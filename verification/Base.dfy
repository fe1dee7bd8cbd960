/** Byte strings, 32-byte hashes and the file metadata every component shares. */
module Base {

  newtype byte = x: int | 0 <= x < 256

  type Bytes = seq<byte>

  /** A SHA-256 digest. The all-zero digest is the root the program gives to an empty file. */
  type Hash = h: Bytes | |h| == 32 witness Zeros(32)

  /** The hash function is a parameter of everything that hashes: nothing is assumed of it
      beyond being a function, unless a lemma says otherwise. */
  type HashFn = Bytes -> Hash

  datatype Option<+T> = None | Some(value: T)

  datatype FileMeta = FileMeta(
    fileId: string,
    merkleRoot: Hash,
    lamportTs: nat,
    chunkHashes: seq<Hash>,
    sizeBytes: nat)

  function Zeros(n: nat): (z: Bytes)
    ensures |z| == n
    ensures forall i | 0 <= i < n :: z[i] == 0
  {
    seq(n, _ => 0)
  }

  const ZERO_HASH: Hash := Zeros(32)

  function Concat(parts: seq<Bytes>): Bytes {
    if parts == [] then [] else parts[0] + Concat(parts[1..])
  }

  lemma {:induction false} ConcatAppend(a: seq<Bytes>, b: seq<Bytes>)
    ensures Concat(a + b) == Concat(a) + Concat(b)
  {
    if a == [] {
      assert a + b == b;
    } else {
      assert (a + b)[1..] == a[1..] + b;
      ConcatAppend(a[1..], b);
      assert Concat(a + b) == a[0] + Concat(a[1..] + b);
    }
  }

  /** The first k parts lie at the front of the whole, and part k follows them. */
  lemma ConcatPrefix(parts: seq<Bytes>, k: nat)
    requires k < |parts|
    ensures Concat(parts[..k + 1]) == Concat(parts[..k]) + parts[k]
    ensures |Concat(parts[..k])| + |parts[k]| <= |Concat(parts)|
  {
    assert parts[..k + 1] == parts[..k] + [parts[k]];
    ConcatAppend(parts[..k], [parts[k]]);
    assert Concat([parts[k]]) == parts[k];
    assert parts == parts[..k + 1] + parts[k + 1..];
    ConcatAppend(parts[..k + 1], parts[k + 1..]);
  }

  /** The digests of a list of blobs, in order. */
  function Digests(sha: HashFn, parts: seq<Bytes>): (hs: seq<Hash>)
    ensures |hs| == |parts|
    ensures forall i | 0 <= i < |parts| :: hs[i] == sha(parts[i])
  {
    seq(|parts|, i requires 0 <= i < |parts| => sha(parts[i]))
  }

  lemma CountNext<T>(s: seq<T>, n: nat, x: T)
    requires n < |s|
    ensures multiset(s[..n + 1])[x] == multiset(s[..n])[x] + if s[n] == x then 1 else 0
  {
    assert s[..n + 1] == s[..n] + [s[n]];
  }

  lemma Regroup<T>(a: seq<T>, b: seq<T>, c: seq<T>)
    ensures (a + b) + c == a + (b + c)
  {
  }

  lemma Tail<T>(a: seq<T>, b: seq<T>)
    ensures (a + b)[|a|..] == b
  {
  }

  function Without<T>(s: seq<T>, k: nat): seq<T>
    requires k < |s|
  {
    s[..k] + s[k + 1..]
  }

  lemma WithoutOne<T>(s: seq<T>, k: nat)
    requires k < |s|
    ensures multiset(Without(s, k)) == multiset(s) - multiset{s[k]}
    ensures multiset(s) == multiset(Without(s, k)) + multiset{s[k]}
  {
    assert s == s[..k] + [s[k]] + s[k + 1..];
  }
}
