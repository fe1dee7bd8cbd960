/** internal/control/service.go: the Merkle diff and chunk availability answers. */
module Control {
  import opened Base

  /** The elements a test keeps, in order and with repeats. */
  ghost function Keep<T>(xs: seq<T>, test: T -> bool): seq<T> {
    if xs == [] then []
    else
      var last := xs[|xs| - 1];
      Keep(xs[..|xs| - 1], test) + if test(last) then [last] else []
  }

  lemma {:induction false} KeepCount<T>(xs: seq<T>, test: T -> bool, x: T)
    ensures multiset(Keep(xs, test))[x] == if test(x) then multiset(xs)[x] else 0
    ensures x in Keep(xs, test) <==> x in xs && test(x)
  {
    if xs != [] {
      var front, last := xs[..|xs| - 1], xs[|xs| - 1];
      KeepCount(front, test, x);
      assert xs == front + [last];
    }
  }

  /** The second list is the elements of the first at these places, which ascend. */
  ghost predicate Picks<T>(xs: seq<T>, kept: seq<T>, at: seq<nat>) {
    && |at| == |kept| && (forall i | 0 <= i < |at| :: at[i] < |xs| && kept[i] == xs[at[i]])
    && (forall i, j | 0 <= i < j < |at| :: at[i] < at[j])
  }

  /** These are all the places of elements the test accepts. */
  ghost predicate Accepts<T>(xs: seq<T>, test: T -> bool, at: seq<nat>) {
    forall k: nat | k < |xs| :: k in at <==> test(xs[k])
  }

  lemma PicksNext<T>(xs: seq<T>, kept: seq<T>, at: seq<nat>, x: T)
    requires Picks(xs, kept, at)
    ensures Picks(xs + [x], kept, at) && Picks(xs + [x], kept + [x], at + [|xs|])
  {
  }

  lemma AcceptsNext<T>(xs: seq<T>, test: T -> bool, at: seq<nat>, x: T)
    requires Accepts(xs, test, at) && forall i | 0 <= i < |at| :: at[i] < |xs|
    ensures Accepts(xs + [x], test, if test(x) then at + [|xs|] else at)
  {
    var at' := if test(x) then at + [|xs|] else at;
    forall k: nat | k < |xs| + 1 ensures k in at' <==> test((xs + [x])[k]) {
      assert k < |xs| ==> (k in at <==> test(xs[k]));
    }
  }

  /** The elements kept stand in their old order. */
  lemma {:induction false} KeepOrder<T>(xs: seq<T>, test: T -> bool) returns (at: seq<nat>)
    ensures Picks(xs, Keep(xs, test), at) && Accepts(xs, test, at)
  {
    at := [];
    if xs != [] {
      var front, last := xs[..|xs| - 1], xs[|xs| - 1];
      at := KeepOrder(front, test);
      PicksNext(front, Keep(front, test), at, last);
      AcceptsNext(front, test, at, last);
      at := if test(last) then at + [|front|] else at;
      assert xs == front + [last];
    }
  }

  lemma KeepAppend<T>(xs: seq<T>, x: T, test: T -> bool)
    ensures Keep(xs + [x], test) == Keep(xs, test) + (if test(x) then [x] else [])
  {
    assert (xs + [x])[..|xs|] == xs;
  }

  datatype DiffResponse = DiffResponse(remoteRoot: Bytes, isSynced: bool, missing: seq<Hash>)

  ghost function Missing(chunkHashes: seq<Hash>, known: seq<Bytes>): seq<Hash> {
    Keep(chunkHashes, (h: Hash) => h !in known)
  }

  /** The answer to a diff request: an empty remote root for an unknown file, "synced" for a request
      that carries the very same 32-byte root, and otherwise the chunks not known to the requester. */
  ghost function DiffAnswer(meta: Option<FileMeta>, localRoot: Bytes, known: seq<Bytes>): DiffResponse {
    match meta
    case None => DiffResponse([], false, [])
    case Some(m) =>
      if m.merkleRoot == localRoot then DiffResponse(m.merkleRoot, true, [])
      else DiffResponse(m.merkleRoot, false, Missing(m.chunkHashes, known))
  }

  method DiffMerkleTree(store: map<string, FileMeta>, fileId: string, localRoot: Bytes, known: seq<Bytes>)
    returns (resp: DiffResponse)
    ensures resp == DiffAnswer(if fileId in store then Some(store[fileId]) else None, localRoot, known)
    ensures resp.remoteRoot == [] <==> fileId !in store
    ensures fileId !in store ==> !resp.isSynced && resp.missing == []
    ensures fileId in store ==> resp.remoteRoot == store[fileId].merkleRoot
    ensures resp.isSynced <==> fileId in store && store[fileId].merkleRoot == localRoot
    ensures forall h: Hash ::
      multiset(resp.missing)[h] ==
      if fileId !in store || resp.isSynced || h in known then 0 else multiset(store[fileId].chunkHashes)[h]
  {
    if fileId !in store {
      return DiffResponse([], false, []);
    }
    var meta := store[fileId];
    if |localRoot| == 32 && meta.merkleRoot == localRoot {
      return DiffResponse(meta.merkleRoot, true, []);
    }
    var knownSet: set<Hash> := {};
    for i := 0 to |known|
      invariant forall h: Hash :: h in knownSet <==> h in known[..i]
    {
      if |known[i]| == 32 {
        var h: Hash := known[i];
        knownSet := knownSet + {h};
      }
    }
    assert known[..|known|] == known;
    var missing: seq<Hash> := [];
    for i := 0 to |meta.chunkHashes|
      invariant missing == Missing(meta.chunkHashes[..i], known)
    {
      KeepAppend(meta.chunkHashes[..i], meta.chunkHashes[i], (h: Hash) => h !in known);
      assert meta.chunkHashes[..i + 1] == meta.chunkHashes[..i] + [meta.chunkHashes[i]];
      if meta.chunkHashes[i] !in knownSet {
        missing := missing + [meta.chunkHashes[i]];
      }
    }
    assert meta.chunkHashes[..|meta.chunkHashes|] == meta.chunkHashes;
    resp := DiffResponse(meta.merkleRoot, false, missing);
    KnownPlusMissingCovers(meta.chunkHashes, known);
  }

  /** The missing chunks are listed in the order of the file. */
  lemma MissingOrder(chunkHashes: seq<Hash>, known: seq<Bytes>) returns (at: seq<nat>)
    ensures Picks(chunkHashes, Missing(chunkHashes, known), at)
    ensures forall k: nat | k < |chunkHashes| :: k in at <==> chunkHashes[k] !in known
  {
    at := KeepOrder(chunkHashes, (h: Hash) => h !in known);
    assert Accepts(chunkHashes, (h: Hash) => h !in known, at);
  }

  /** What the requester knows and what it is told is missing cover the remote chunk list, and a
      missing chunk is listed as often as the file repeats it. */
  lemma KnownPlusMissingCovers(chunkHashes: seq<Hash>, known: seq<Bytes>)
    ensures forall h | h in chunkHashes :: h in known || h in Missing(chunkHashes, known)
    ensures forall h: Hash ::
      multiset(Missing(chunkHashes, known))[h] == if h in known then 0 else multiset(chunkHashes)[h]
  {
    forall h: Hash
      ensures h in Missing(chunkHashes, known) <==> h in chunkHashes && h !in known
      ensures multiset(Missing(chunkHashes, known))[h] == if h in known then 0 else multiset(chunkHashes)[h]
    {
      KeepCount(chunkHashes, (h: Hash) => h !in known, h);
    }
  }

  ghost function Available(objects: map<Hash, Bytes>, asked: seq<Hash>): seq<Hash> {
    Keep(asked, (h: Hash) => h in objects)
  }

  lemma AvailableNext(objects: map<Hash, Bytes>, asked: seq<Hash>, h: Hash)
    ensures Available(objects, asked + [h]) == Available(objects, asked) + if h in objects then [h] else []
  {
    assert (asked + [h])[..|asked|] == asked;
  }

  /** The entries of a request that are hashes at all. */
  ghost function WellFormed(asked: seq<Bytes>): seq<Hash> {
    if asked == [] then []
    else
      var last := asked[|asked| - 1];
      WellFormed(asked[..|asked| - 1]) + if |last| == 32 then [last] else []
  }

  lemma {:induction false} AllWellFormed(asked: seq<Hash>)
    ensures WellFormed(asked) == asked
  {
    if asked != [] {
      AllWellFormed(asked[..|asked| - 1]);
      assert asked == asked[..|asked| - 1] + [asked[|asked| - 1]];
    }
  }

  /** The answer to a request for availability: malformed hashes are skipped; of the others the held ones are listed,
      in order and with repeats. */
  ghost function AvailabilityAnswer(objects: map<Hash, Bytes>, asked: seq<Bytes>): seq<Hash> {
    Available(objects, WellFormed(asked))
  }

  /** To a request made of hashes. */
  lemma HashesAnswered(objects: map<Hash, Bytes>, asked: seq<Hash>)
    ensures AvailabilityAnswer(objects, asked) == Available(objects, asked)
  {
    AllWellFormed(asked);
  }

  /** To any request: the places of the answered entries ascend, and they are those of the well-formed hashes of blobs
      the store holds. */
  lemma {:induction false} AvailabilityOrder(objects: map<Hash, Bytes>, asked: seq<Bytes>) returns (at: seq<nat>)
    ensures Picks(asked, AvailabilityAnswer(objects, asked), at)
    ensures forall k: nat | k < |asked| :: k in at <==> |asked[k]| == 32 && asked[k] in objects
  {
    at := [];
    if asked != [] {
      var front, last := asked[..|asked| - 1], asked[|asked| - 1];
      at := AvailabilityOrder(objects, front);
      if |last| == 32 {
        AvailableNext(objects, WellFormed(front), last);
        assert WellFormed(asked) == WellFormed(front) + [last];
        if last in objects {
          at := at + [|front|];
        }
      } else {
        assert WellFormed(asked) == WellFormed(front);
      }
    }
  }

  method GetChunkAvailability(objects: map<Hash, Bytes>, asked: seq<Bytes>) returns (available: seq<Hash>)
    ensures available == AvailabilityAnswer(objects, asked)
  {
    available := [];
    for i := 0 to |asked|
      invariant available == Available(objects, WellFormed(asked[..i]))
    {
      assert asked[..i + 1][..i] == asked[..i];
      if |asked[i]| == 32 {
        var h: Hash := asked[i];
        AvailableNext(objects, WellFormed(asked[..i]), h);
        assert WellFormed(asked[..i + 1]) == WellFormed(asked[..i]) + [h];
        if h in objects {
          available := available + [h];
        }
      } else {
        assert WellFormed(asked[..i + 1]) == WellFormed(asked[..i]);
      }
    }
    assert asked[..|asked|] == asked;
  }

  lemma AvailableCount(objects: map<Hash, Bytes>, asked: seq<Hash>, h: Hash)
    ensures multiset(Available(objects, asked))[h] == if h in objects then multiset(asked)[h] else 0
  {
    KeepCount(asked, (h: Hash) => h in objects, h);
  }
}
