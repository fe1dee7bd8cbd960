/** internal/merkle/tree.go: the Merkle root over a file's chunk hashes. */
module Merkle {
  import opened Base

  function Node(sha: HashFn, left: Hash, right: Hash): Hash {
    sha(left + right)
  }

  predicate IsPowerOfTwo(k: nat) {
    k == 1 || (k > 1 && k % 2 == 0 && IsPowerOfTwo(k / 2))
  }

  /** The largest power of two below n. */
  function SplitPoint(n: nat): (k: nat)
    requires n >= 2
    ensures IsPowerOfTwo(k) && k < n <= 2 * k
  {
    if n == 2 then 1 else 2 * SplitPoint((n + 1) / 2)
  }

  /** The tree hash of section 2.1 of RFC 6962, without its prefix bytes and with a zero root for
      the empty list: split at the largest power of two below the length. */
  function Root(sha: HashFn, hs: seq<Hash>): Hash
    decreases |hs|
  {
    if hs == [] then ZERO_HASH
    else if |hs| == 1 then hs[0]
    else var k := SplitPoint(|hs|); Node(sha, Root(sha, hs[..k]), Root(sha, hs[k..]))
  }

  /** One pass of pairing: neighbours are hashed together, an odd last hash is kept as it is. */
  function Level(sha: HashFn, hs: seq<Hash>): (up: seq<Hash>)
    ensures |up| == (|hs| + 1) / 2
  {
    if |hs| < 2 then hs else [Node(sha, hs[0], hs[1])] + Level(sha, hs[2..])
  }

  lemma {:induction false} LevelSplitsAtEven(sha: HashFn, hs: seq<Hash>, k: nat)
    requires k <= |hs| && k % 2 == 0
    ensures Level(sha, hs) == Level(sha, hs[..k]) + Level(sha, hs[k..])
    decreases k
  {
    if k == 0 {
      assert hs[k..] == hs;
    } else {
      LevelSplitsAtEven(sha, hs[2..], k - 2);
      assert hs[2..][..k - 2] == hs[..k][2..];
      assert hs[2..][k - 2..] == hs[k..];
      assert Level(sha, hs[..k]) == [Node(sha, hs[0], hs[1])] + Level(sha, hs[..k][2..]);
      Regroup([Node(sha, hs[0], hs[1])], Level(sha, hs[..k][2..]), Level(sha, hs[k..]));
    }
  }

  /** Pairing once does not change the root, for every length. */
  lemma {:induction false} LevelKeepsRoot(sha: HashFn, hs: seq<Hash>)
    ensures Root(sha, Level(sha, hs)) == Root(sha, hs)
    decreases |hs|
  {
    if |hs| == 2 {
      assert hs[..1] == [hs[0]] && hs[1..] == [hs[1]];
    } else if |hs| > 2 {
      var k := SplitPoint(|hs|);
      LevelSplitsAtEven(sha, hs, k);
      var up := Level(sha, hs);
      assert SplitPoint(|up|) == k / 2;
      assert up[..k / 2] == Level(sha, hs[..k]) && up[k / 2..] == Level(sha, hs[k..]);
      LevelKeepsRoot(sha, hs[..k]);
      LevelKeepsRoot(sha, hs[k..]);
    }
  }

  /** Hash i of the next level is the hash of hashes 2i and 2i + 1 one after the other, or the odd last one itself. */
  ghost predicate PairedAt(sha: HashFn, hs: seq<Hash>, i: nat, h: Hash)
    requires 2 * i < |hs|
  {
    var left: Bytes := hs[2 * i];
    h == if 2 * i + 1 < |hs| then sha(left + hs[2 * i + 1]) else hs[2 * i]
  }

  ghost predicate Paired(sha: HashFn, hs: seq<Hash>, up: seq<Hash>) {
    |up| == (|hs| + 1) / 2 && forall i | 0 <= i < |up| :: PairedAt(sha, hs, i, up[i])
  }

  lemma {:induction false} LevelIsPaired(sha: HashFn, hs: seq<Hash>)
    ensures Paired(sha, hs, Level(sha, hs))
    decreases |hs|
  {
    if |hs| >= 2 {
      LevelIsPaired(sha, hs[2..]);
      var up, rest := Level(sha, hs), Level(sha, hs[2..]);
      forall i | 0 < i < |up| ensures PairedAt(sha, hs, i, up[i]) {
        assert up[i] == rest[i - 1] && PairedAt(sha, hs[2..], i - 1, rest[i - 1]);
      }
    }
  }

  lemma PairedOnce(sha: HashFn, hs: seq<Hash>, a: seq<Hash>, b: seq<Hash>)
    requires Paired(sha, hs, a) && Paired(sha, hs, b)
    ensures a == b
  {
    forall i | 0 <= i < |a| ensures a[i] == b[i] {
      assert PairedAt(sha, hs, i, a[i]) && PairedAt(sha, hs, i, b[i]);
    }
  }

  /** What the root is, level by level: 32 zero bytes for no hash, the hash itself for one, and for more the root of the
      next level. */
  lemma RootByLevels(sha: HashFn, hs: seq<Hash>, up: seq<Hash>)
    requires Paired(sha, hs, up)
    ensures hs == [] ==> |Root(sha, hs)| == 32 && forall i | 0 <= i < 32 :: Root(sha, hs)[i] == 0
    ensures |hs| == 1 ==> Root(sha, hs) == hs[0]
    ensures |hs| >= 2 ==> |up| < |hs| && Root(sha, hs) == Root(sha, up)
  {
    LevelIsPaired(sha, hs);
    PairedOnce(sha, hs, up, Level(sha, hs));
    LevelKeepsRoot(sha, hs);
  }

  /** Two hashes further on: their node joins what is done. */
  lemma PairStep(sha: HashFn, hs: seq<Hash>, i: nat, done: seq<Hash>)
    requires i + 1 < |hs|
    ensures done + Level(sha, hs[i..]) == (done + [Node(sha, hs[i], hs[i + 1])]) + Level(sha, hs[i + 2..])
  {
    assert hs[i..][2..] == hs[i + 2..];
    Regroup(done, [Node(sha, hs[i], hs[i + 1])], Level(sha, hs[i + 2..]));
  }

  /** The odd last hash is promoted as it is. */
  lemma OddEnd(sha: HashFn, hs: seq<Hash>, done: seq<Hash>)
    requires hs != []
    ensures done + Level(sha, hs[|hs| - 1..]) == done + [hs[|hs| - 1]]
  {
    assert hs[|hs| - 1..] == [hs[|hs| - 1]];
  }

  /** The inner loop: one level of the tree, left to right. */
  method PairUp(sha: HashFn, hashes: seq<Hash>) returns (newHashes: seq<Hash>)
    ensures newHashes == Level(sha, hashes) && Paired(sha, hashes, newHashes)
  {
    LevelIsPaired(sha, hashes);
    newHashes := [];
    var i := 0;
    ghost var level := Level(sha, hashes);
    assert hashes[0..] == hashes;
    while i < |hashes|
      invariant 0 <= i <= |hashes| + 1
      invariant if i <= |hashes| then newHashes + Level(sha, hashes[i..]) == level else newHashes == level
    {
      if i + 1 >= |hashes| {
        OddEnd(sha, hashes, newHashes);
        newHashes := newHashes + [hashes[i]];
      } else {
        PairStep(sha, hashes, i, newHashes);
        newHashes := newHashes + [Node(sha, hashes[i], hashes[i + 1])];
      }
      i := i + 2;
    }
  }

  /** The bottom-up loops of the program compute the recursive tree hash. */
  method ComputeRoot(sha: HashFn, chunkHashes: seq<Hash>) returns (root: Hash)
    ensures root == Root(sha, chunkHashes)
    ensures chunkHashes == [] ==> forall i | 0 <= i < |root| :: root[i] == 0
  {
    if |chunkHashes| == 0 {
      return ZERO_HASH;
    }
    var hashes := chunkHashes;
    while |hashes| > 1
      invariant |hashes| >= 1
      invariant Root(sha, hashes) == Root(sha, chunkHashes)
      decreases |hashes|
    {
      LevelKeepsRoot(sha, hashes);
      hashes := PairUp(sha, hashes);
    }
    root := hashes[0];
  }

  // ---- When do equal roots mean equal chunk lists? ----

  ghost predicate ListOver(leaf: Hash -> bool, n: nat, xs: seq<Hash>) {
    |xs| <= n && forall h | h in xs :: leaf(h)
  }

  /** The hash of a non-empty list of at most n leaves. */
  ghost predicate TreeHash(sha: HashFn, leaf: Hash -> bool, n: nat, h: Hash) {
    exists xs :: ListOver(leaf, n, xs) && xs != [] && Root(sha, xs) == h
  }

  /** No two different pairs of tree hashes collide. Only hashes of lists of at most n leaves
      matter, so finitely many inputs are concerned when the leaves are finitely many. */
  ghost predicate CollisionFree(sha: HashFn, leaf: Hash -> bool, n: nat) {
    forall a, b, c, d |
      && TreeHash(sha, leaf, n, a) && TreeHash(sha, leaf, n, b)
      && TreeHash(sha, leaf, n, c) && TreeHash(sha, leaf, n, d)
      && Node(sha, a, b) == Node(sha, c, d)
      :: a == c && b == d
  }

  ghost predicate RootsDecideEquality(sha: HashFn, leaf: Hash -> bool, n: nat) {
    forall xs, ys :: ListOver(leaf, n, xs) && ListOver(leaf, n, ys) && Root(sha, xs) == Root(sha, ys) ==>
      xs == ys
  }

  /** No chunk hash is also the hash of an inner node, and no root is the zero of the empty file. */
  ghost predicate NoClash(sha: HashFn, leaf: Hash -> bool, n: nat) {
    forall zs :: ListOver(leaf, n, zs) && zs != [] ==>
      Root(sha, zs) != ZERO_HASH && (|zs| >= 2 ==> !leaf(Root(sha, zs)))
  }

  lemma SplitHashes(sha: HashFn, leaf: Hash -> bool, n: nat, xs: seq<Hash>, k: nat)
    requires ListOver(leaf, n, xs) && 0 < k < |xs|
    ensures TreeHash(sha, leaf, n, Root(sha, xs[..k])) && TreeHash(sha, leaf, n, Root(sha, xs[k..]))
  {
    assert ListOver(leaf, n, xs[..k]) && ListOver(leaf, n, xs[k..]);
  }

  lemma SubtreesAgree(sha: HashFn, leaf: Hash -> bool, n: nat, xs: seq<Hash>, ys: seq<Hash>)
    requires CollisionFree(sha, leaf, n)
    requires ListOver(leaf, n, xs) && ListOver(leaf, n, ys) && |xs| >= 2 && |ys| >= 2
    requires Root(sha, xs) == Root(sha, ys)
    ensures var k, m := SplitPoint(|xs|), SplitPoint(|ys|);
      && Root(sha, xs[..k]) == Root(sha, ys[..m]) && Root(sha, xs[k..]) == Root(sha, ys[m..])
      && ListOver(leaf, n, xs[..k]) && ListOver(leaf, n, ys[..m])
      && ListOver(leaf, n, xs[k..]) && ListOver(leaf, n, ys[m..])
  {
    var k, m := SplitPoint(|xs|), SplitPoint(|ys|);
    SplitHashes(sha, leaf, n, xs, k);
    SplitHashes(sha, leaf, n, ys, m);
    assert Node(sha, Root(sha, xs[..k]), Root(sha, xs[k..])) ==
           Node(sha, Root(sha, ys[..m]), Root(sha, ys[m..]));
  }

  /** A list of at most one hash shares its root with no other list. */
  lemma ShortRoots(sha: HashFn, leaf: Hash -> bool, n: nat, xs: seq<Hash>, ys: seq<Hash>)
    requires |xs| != |ys| ==> NoClash(sha, leaf, n)
    requires ListOver(leaf, n, xs) && ListOver(leaf, n, ys) && |xs| < 2
    requires Root(sha, xs) == Root(sha, ys)
    ensures xs == ys
  {
    if |xs| == 1 {
      assert xs == [Root(sha, xs)];
    }
    if |ys| == 1 {
      assert ys == [Root(sha, ys)];
    }
  }

  lemma {:induction false} EqualRootsEqualLists(sha: HashFn, leaf: Hash -> bool, n: nat, xs: seq<Hash>, ys: seq<Hash>)
    requires CollisionFree(sha, leaf, n)
    requires |xs| != |ys| ==> NoClash(sha, leaf, n)
    requires ListOver(leaf, n, xs) && ListOver(leaf, n, ys)
    requires Root(sha, xs) == Root(sha, ys)
    ensures xs == ys
    decreases |xs|
  {
    if |xs| >= 2 && |ys| >= 2 {
      var k, m := SplitPoint(|xs|), SplitPoint(|ys|);
      SubtreesAgree(sha, leaf, n, xs, ys);
      EqualRootsEqualLists(sha, leaf, n, xs[..k], ys[..m]);
      EqualRootsEqualLists(sha, leaf, n, xs[k..], ys[m..]);
      assert xs == xs[..k] + xs[k..] && ys == ys[..m] + ys[m..];
    } else if |xs| < 2 {
      ShortRoots(sha, leaf, n, xs, ys);
    } else {
      ShortRoots(sha, leaf, n, ys, xs);
    }
  }

  /** Exactly when comparing roots is as good as comparing chunk lists: when no chunk hash doubles
      as an inner node and no root is zero. The two failing families are `[h]` against the list h is
      the root of, and a zero root against the empty file. */
  lemma RootsDecideEqualityIff(sha: HashFn, leaf: Hash -> bool, n: nat)
    requires CollisionFree(sha, leaf, n)
    ensures RootsDecideEquality(sha, leaf, n) <==> NoClash(sha, leaf, n)
  {
    if NoClash(sha, leaf, n) {
      forall xs, ys | ListOver(leaf, n, xs) && ListOver(leaf, n, ys) && Root(sha, xs) == Root(sha, ys)
        ensures xs == ys
      {
        EqualRootsEqualLists(sha, leaf, n, xs, ys);
      }
    }
    if RootsDecideEquality(sha, leaf, n) {
      forall zs | ListOver(leaf, n, zs) && zs != []
        ensures Root(sha, zs) != ZERO_HASH && (|zs| >= 2 ==> !leaf(Root(sha, zs)))
      {
        assert Root(sha, []) == ZERO_HASH;
        assert Root(sha, [Root(sha, zs)]) == Root(sha, zs);
      }
    }
  }

  /** Lists of one length need no such condition: a root pins down a chunk list of known length. */
  lemma SameLengthRoots(sha: HashFn, leaf: Hash -> bool, xs: seq<Hash>, ys: seq<Hash>)
    requires |xs| == |ys| && CollisionFree(sha, leaf, |xs|)
    requires forall h | h in xs + ys :: leaf(h)
    ensures Root(sha, xs) == Root(sha, ys) <==> xs == ys
  {
    if Root(sha, xs) == Root(sha, ys) {
      EqualRootsEqualLists(sha, leaf, |xs|, xs, ys);
    }
  }
}
