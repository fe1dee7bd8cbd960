/** internal/store/cas.go: the content-addressed blob store. */
module Store {
  import opened Base

  /** Every blob hashes to the name it is stored under. */
  ghost predicate HashChecked(sha: HashFn, objects: map<Hash, Bytes>) {
    forall h | h in objects :: sha(objects[h]) == h
  }

  /** Nothing stored is lost or changed. */
  ghost predicate Extends(before: map<Hash, Bytes>, after: map<Hash, Bytes>) {
    forall h | h in before :: h in after && after[h] == before[h]
  }

  /** A put adds the blob if its name is new and its hash is right, and otherwise changes nothing. */
  function PutBlob(sha: HashFn, objects: map<Hash, Bytes>, h: Hash, data: Bytes): map<Hash, Bytes> {
    if h in objects || sha(data) != h then objects else objects[h := data]
  }

  function PutAll(sha: HashFn, objects: map<Hash, Bytes>, blobs: seq<Bytes>): map<Hash, Bytes>
    decreases |blobs|
  {
    if blobs == [] then objects else PutAll(sha, PutBlob(sha, objects, sha(blobs[0]), blobs[0]), blobs[1..])
  }

  /** Every blob is in the store afterwards, under its own hash, and nothing but these blobs was added. */
  lemma {:induction false} PutAllStores(sha: HashFn, objects: map<Hash, Bytes>, blobs: seq<Bytes>)
    ensures var r := PutAll(sha, objects, blobs);
      && (HashChecked(sha, objects) ==> HashChecked(sha, r)) && Extends(objects, r)
      && (forall b | b in blobs :: sha(b) in r)
      && (forall h | h in r :: h in objects || r[h] in blobs)
    decreases |blobs|
  {
    if blobs != [] {
      PutAllStores(sha, PutBlob(sha, objects, sha(blobs[0]), blobs[0]), blobs[1..]);
    }
  }

  class CasBlobStore {
    const sha: HashFn
    var objects: map<Hash, Bytes>

    ghost predicate Valid()
      reads this
    {
      HashChecked(sha, objects)
    }

    constructor (sha: HashFn)
      ensures Valid() && this.sha == sha && objects == map[]
    {
      this.sha := sha;
      objects := map[];
    }

    /** `ioOk` is whether the temporary file could be written and renamed. The write to the temporary
        file and the rename are one step here. */
    method Put(h: Hash, data: Bytes, ioOk: bool) returns (ok: bool)
      requires Valid()
      modifies this
      ensures Valid()
      ensures objects == if ioOk then PutBlob(sha, old(objects), h, data) else old(objects)
      ensures objects ==
        if ioOk && h !in old(objects) && sha(data) == h then old(objects)[h := data] else old(objects)
      ensures ok <==> h in objects
    {
      if h in objects {
        return true;
      }
      if !ioOk {
        return false;
      }
      if sha(data) != h {
        return false;
      }
      objects := objects[h := data];
      ok := true;
    }

    /** What comes back always hashes to what was asked for. */
    method Get(h: Hash) returns (data: Option<Bytes>)
      requires Valid()
      ensures data.Some? <==> h in objects
      ensures data.Some? ==> data.value == objects[h] && sha(data.value) == h
    {
      data := if h in objects then Some(objects[h]) else None;
    }
  }
}
