/** internal/assembler: out-of-order assembly into a sparse file, and plain sequential assembly. */
module Assembler {
  import opened Base

  /** `os.File.WriteAt`: overwrite in place, extending the file with zeros where needed. */
  function WriteAt(file: Bytes, offset: nat, data: Bytes): (r: Bytes)
    ensures data != [] ==> |r| == if |file| < offset + |data| then offset + |data| else |file|
    ensures forall p | 0 <= p < |data| :: offset + p < |r| && r[offset + p] == data[p]
    ensures forall p | 0 <= p < |r| && !(offset <= p < offset + |data|) ::
      r[p] == if p < |file| then file[p] else 0
  {
    if data == [] then file
    else
      var end := offset + |data|;
      seq(if |file| < end then end else |file|,
          p requires p >= 0 => if offset <= p < end then data[p - offset] else if p < |file| then file[p] else 0)
  }

  /** Where chunk i starts: the sum of the lengths before it. */
  function Offset(chunks: seq<Bytes>, i: nat): nat
    requires i <= |chunks|
  {
    |Concat(chunks[..i])|
  }

  lemma OffsetNext(chunks: seq<Bytes>, i: nat)
    requires i < |chunks|
    ensures Offset(chunks, i + 1) == Offset(chunks, i) + |chunks[i]| <= |Concat(chunks)|
  {
    ConcatPrefix(chunks, i);
  }

  lemma {:induction false} OffsetMonotone(chunks: seq<Bytes>, i: nat, j: nat)
    requires i <= j <= |chunks|
    ensures Offset(chunks, i) <= Offset(chunks, j)
    decreases j - i
  {
    if i < j {
      OffsetNext(chunks, i);
      OffsetMonotone(chunks, i + 1, j);
    }
  }

  function CountSet(bits: seq<bool>): nat {
    if bits == [] then 0 else (if bits[0] then 1 else 0) + CountSet(bits[1..])
  }

  lemma {:induction false} CountSetUpdate(bits: seq<bool>, i: nat)
    requires i < |bits| && !bits[i]
    ensures CountSet(bits[i := true]) == CountSet(bits) + 1
  {
    if i > 0 {
      CountSetUpdate(bits[1..], i - 1);
      assert bits[i := true][1..] == bits[1..][i - 1 := true];
    }
  }

  lemma {:induction false} CountSetFull(bits: seq<bool>)
    ensures CountSet(bits) <= |bits|
    ensures CountSet(bits) == |bits| <==> forall i | 0 <= i < |bits| :: bits[i]
  {
    if bits != [] {
      CountSetFull(bits[1..]);
      assert forall i | 1 <= i < |bits| :: bits[i] == bits[1..][i - 1];
    }
  }

  /** The fields of a SparseFile as a value. */
  datatype Sparse = Sparse(file: Bytes, bitmap: seq<bool>, chunksDone: nat)

  /** One call of WriteChunk. A write may fail part-way: `written` bytes reach the file. */
  datatype Call = Call(index: int, offset: int, data: Bytes, written: nat)

  function Fresh(totalSize: nat, totalChunks: nat): Sparse {
    Sparse(Zeros(totalSize), seq(totalChunks, _ => false), 0)
  }

  predicate Refused(st: Sparse, c: Call) {
    c.index < 0 || c.index >= |st.bitmap|
  }

  predicate Succeeds(st: Sparse, c: Call) {
    !Refused(st, c) && (st.bitmap[c.index] || (c.offset >= 0 && c.written >= |c.data|))
  }

  function Apply(st: Sparse, c: Call): Sparse {
    if Refused(st, c) || st.bitmap[c.index] || c.offset < 0 then st
    else if c.written < |c.data| then st.(file := WriteAt(st.file, c.offset, c.data[..c.written]))
    else Sparse(WriteAt(st.file, c.offset, c.data), st.bitmap[c.index := true], st.chunksDone + 1)
  }

  /** A wrong index and a negative offset are refused, a chunk that is done is left alone, a write that fails part-way
      leaves its first bytes and sets nothing, and one that goes through sets the chunk. */
  lemma ApplyExact(st: Sparse, c: Call)
    ensures var st', writes := Apply(st, c), 0 <= c.index < |st.bitmap| && !st.bitmap[c.index] && c.offset >= 0;
      && (Succeeds(st, c) <==>
            if writes then c.written >= |c.data| else 0 <= c.index < |st.bitmap| && st.bitmap[c.index])
      && (!writes ==> st' == st)
      && (writes ==>
            && st'.bitmap == st.bitmap[c.index := c.written >= |c.data|]
            && st'.file == WriteAt(st.file, c.offset, if c.written < |c.data| then c.data[..c.written] else c.data)
            && st'.chunksDone == st.chunksDone + if c.written < |c.data| then 0 else 1)
  {
  }

  function ApplyAll(st: Sparse, calls: seq<Call>): Sparse
    decreases |calls|
  {
    if calls == [] then st else ApplyAll(Apply(st, calls[0]), calls[1..])
  }

  /** The sparse file of the program. */
  class SparseFile {
    var file: Bytes
    var bitmap: seq<bool>
    var chunksDone: nat
    const total: nat

    ghost predicate Valid()
      reads this
    {
      |bitmap| == total && chunksDone == CountSet(bitmap)
    }

    ghost function View(): Sparse
      reads this
    {
      Sparse(file, bitmap, chunksDone)
    }

    constructor (totalSize: nat, totalChunks: nat)
      ensures Valid() && total == totalChunks && View() == Fresh(totalSize, totalChunks)
      ensures |file| == totalSize && (forall p | 0 <= p < totalSize :: file[p] == 0) && chunksDone == 0
      ensures forall i | 0 <= i < totalChunks :: !bitmap[i]
    {
      file := Zeros(totalSize);
      bitmap := seq(totalChunks, _ => false);
      chunksDone := 0;
      total := totalChunks;
      new;
      NothingSet(totalChunks);
    }

    method WriteChunk(chunkIndex: int, offset: int, data: Bytes, written: nat) returns (ok: bool)
      requires Valid()
      modifies this
      ensures Valid()
      ensures var c := Call(chunkIndex, offset, data, written);
        View() == Apply(old(View()), c) && ok == Succeeds(old(View()), c)
    {
      if chunkIndex < 0 || chunkIndex >= total {
        return false;
      }
      if bitmap[chunkIndex] {
        return true;
      }
      if offset < 0 {
        return false;
      }
      if written < |data| {
        file := WriteAt(file, offset, data[..written]);
        return false;
      }
      file := WriteAt(file, offset, data);
      CountSetUpdate(bitmap, chunkIndex);
      bitmap := bitmap[chunkIndex := true];
      chunksDone := chunksDone + 1;
      ok := true;
    }

    method IsComplete() returns (done: bool)
      requires Valid()
      ensures done <==> forall i | 0 <= i < total :: bitmap[i]
    {
      CountSetFull(bitmap);
      done := chunksDone == total;
    }
  }

  lemma {:induction false} NothingSet(n: nat)
    ensures CountSet(seq(n, _ => false)) == 0
  {
    if n > 0 {
      NothingSet(n - 1);
      assert seq(n, _ => false)[1..] == seq(n - 1, _ => false);
    }
  }

  // ---- Any order, any repeats, any failures ----

  /** Every in-range call carries its chunk at the prefix-sum offset. */
  ghost predicate Addressed(chunks: seq<Bytes>, c: Call) {
    0 <= c.index < |chunks| ==> c.data == chunks[c.index] && c.offset == Offset(chunks, c.index)
  }

  ghost predicate InPlace(file: Bytes, chunks: seq<Bytes>, i: nat)
    requires i < |chunks|
  {
    var off := Offset(chunks, i);
    chunks[i] == [] || (off + |chunks[i]| <= |file| && file[off..off + |chunks[i]|] == chunks[i])
  }

  ghost predicate Represents(st: Sparse, chunks: seq<Bytes>, totalSize: nat) {
    && |st.bitmap| == |chunks|
    && st.chunksDone == CountSet(st.bitmap)
    && totalSize <= |st.file|
    && (|st.file| <= totalSize || |st.file| <= |Concat(chunks)|)
    && (forall i | 0 <= i < |chunks| && st.bitmap[i] :: InPlace(st.file, chunks, i))
    && (forall p | |Concat(chunks)| <= p < |st.file| :: st.file[p] == 0)
  }

  /** A write inside chunk i's range leaves every other chunk alone. */
  lemma OthersStay(file: Bytes, chunks: seq<Bytes>, i: nat, data: Bytes, j: nat)
    requires i < |chunks| && j < |chunks| && i != j && |data| <= |chunks[i]|
    requires InPlace(file, chunks, j)
    ensures InPlace(WriteAt(file, Offset(chunks, i), data), chunks, j)
  {
    OffsetNext(chunks, i);
    OffsetNext(chunks, j);
    if i < j {
      OffsetMonotone(chunks, i + 1, j);
    } else {
      OffsetMonotone(chunks, j + 1, i);
    }
    var off, r := Offset(chunks, j), WriteAt(file, Offset(chunks, i), data);
    if chunks[j] != [] {
      assert r[off..off + |chunks[j]|] == file[off..off + |chunks[j]|];
    }
  }

  /** A write inside chunk i's range keeps the size bounds and the zeros behind the content. */
  lemma WriteStaysInside(file: Bytes, chunks: seq<Bytes>, totalSize: nat, i: nat, data: Bytes)
    requires i < |chunks| && |data| <= |chunks[i]|
    requires totalSize <= |file| && (|file| <= totalSize || |file| <= |Concat(chunks)|)
    requires forall p | |Concat(chunks)| <= p < |file| :: file[p] == 0
    ensures var r := WriteAt(file, Offset(chunks, i), data);
      && totalSize <= |r| && (|r| <= totalSize || |r| <= |Concat(chunks)|)
      && forall p | |Concat(chunks)| <= p < |r| :: r[p] == 0
  {
    OffsetNext(chunks, i);
  }

  lemma ApplyRepresents(st: Sparse, chunks: seq<Bytes>, totalSize: nat, c: Call)
    requires Represents(st, chunks, totalSize) && Addressed(chunks, c)
    ensures Represents(Apply(st, c), chunks, totalSize)
  {
    var st' := Apply(st, c);
    if st' != st {
      var i := c.index;
      var data := if c.written < |c.data| then c.data[..c.written] else c.data;
      assert st'.file == WriteAt(st.file, Offset(chunks, i), data);
      WriteStaysInside(st.file, chunks, totalSize, i, data);
      forall j | 0 <= j < |chunks| && st'.bitmap[j] ensures InPlace(st'.file, chunks, j) {
        if j != i {
          OthersStay(st.file, chunks, i, data, j);
        } else {
          assert data == chunks[i];
        }
      }
      if c.written >= |c.data| {
        CountSetUpdate(st.bitmap, i);
      }
    }
  }

  ghost predicate Landed(calls: seq<Call>, i: int) {
    exists k | 0 <= k < |calls| :: calls[k].index == i && calls[k].written >= |calls[k].data|
  }

  lemma {:induction false} ApplyAllRepresents(st: Sparse, chunks: seq<Bytes>, totalSize: nat, calls: seq<Call>)
    requires Represents(st, chunks, totalSize)
    requires forall k | 0 <= k < |calls| :: Addressed(chunks, calls[k])
    ensures var st' := ApplyAll(st, calls);
      && Represents(st', chunks, totalSize)
      && forall i | 0 <= i < |chunks| :: st'.bitmap[i] <==> st.bitmap[i] || Landed(calls, i)
    decreases |calls|
  {
    if calls != [] {
      var st1 := Apply(st, calls[0]);
      assert Addressed(chunks, calls[0]);
      ApplyRepresents(st, chunks, totalSize, calls[0]);
      ApplyAllRepresents(st1, chunks, totalSize, calls[1..]);
      forall i | 0 <= i < |chunks|
        ensures st1.bitmap[i] || Landed(calls[1..], i) <==> st.bitmap[i] || Landed(calls, i)
      {
        if Landed(calls[1..], i) {
          var k :| 0 <= k < |calls[1..]| && calls[1..][k].index == i && calls[1..][k].written >= |calls[1..][k].data|;
          assert calls[k + 1].index == i;
        }
        if Landed(calls, i) {
          var k :| 0 <= k < |calls| && calls[k].index == i && calls[k].written >= |calls[k].data|;
          if k > 0 {
            assert calls[1..][k - 1].index == i;
          }
        }
      }
    }
  }

  lemma {:induction false} InPlaceIsConcat(file: Bytes, chunks: seq<Bytes>, k: nat)
    requires k <= |chunks|
    requires forall i | 0 <= i < k :: InPlace(file, chunks, i)
    ensures Offset(chunks, k) <= |file| && file[..Offset(chunks, k)] == Concat(chunks[..k])
  {
    if k > 0 {
      InPlaceIsConcat(file, chunks, k - 1);
      OffsetNext(chunks, k - 1);
      ConcatPrefix(chunks, k - 1);
      assert InPlace(file, chunks, k - 1);
      var a, b := Offset(chunks, k - 1), Offset(chunks, k);
      assert file[..b] == file[..a] + file[a..b];
    }
  }

  /** Main result. After any sequence of WriteChunk calls at prefix-sum offsets (any order, repeats,
      refused indices, failed writes) chunksDone counts the set bits, a chunk is done exactly when one
      of its writes went through, and a complete file is the concatenation of the chunks followed by
      whatever `Truncate` reserved beyond it: it is the concatenation exactly when the announced
      size does not exceed it. */
  lemma OutOfOrderAssembly(chunks: seq<Bytes>, totalSize: nat, calls: seq<Call>)
    requires forall k | 0 <= k < |calls| :: Addressed(chunks, calls[k])
    ensures var st := ApplyAll(Fresh(totalSize, |chunks|), calls);
      && |st.bitmap| == |chunks|
      && st.chunksDone == CountSet(st.bitmap)
      && (forall i | 0 <= i < |chunks| :: st.bitmap[i] <==> Landed(calls, i))
      && (st.chunksDone == |chunks| ==>
            && st.file == Image(chunks, totalSize)
            && (st.file == Concat(chunks) <==> totalSize <= |Concat(chunks)|))
  {
    NothingSet(|chunks|);
    ApplyAllRepresents(Fresh(totalSize, |chunks|), chunks, totalSize, calls);
    var st := ApplyAll(Fresh(totalSize, |chunks|), calls);
    if st.chunksDone == |chunks| {
      CountSetFull(st.bitmap);
      CompleteImage(st, chunks, totalSize);
    }
  }

  /** The concatenation, zero-filled up to the announced size. */
  function Image(chunks: seq<Bytes>, totalSize: nat): Bytes {
    Padded(Concat(chunks), totalSize)
  }

  function Padded(whole: Bytes, size: nat): Bytes {
    if size > |whole| then whole + Zeros(size - |whole|) else whole
  }

  lemma PaddedWrite(whole: Bytes, data: Bytes, size: nat)
    ensures WriteAt(Padded(whole, size), |whole|, data) == Padded(whole + data, size)
  {
    var before, after := Padded(whole, size), Padded(whole + data, size);
    var r := WriteAt(before, |whole|, data);
    if data == [] {
      assert whole + data == whole;
    } else {
      assert |r| == |after|;
      forall p | 0 <= p < |r| ensures r[p] == after[p] {
        if |whole| <= p < |whole| + |data| {
          assert r[|whole| + (p - |whole|)] == data[p - |whole|];
        }
      }
      assert r == after;
    }
  }

  /** Writing the next chunk where the previous ones end turns one image into the next. */
  lemma ImageNext(blobs: seq<Bytes>, blob: Bytes, size: nat)
    ensures WriteAt(Image(blobs, size), |Concat(blobs)|, blob) == Image(blobs + [blob], size)
    ensures Concat(blobs + [blob]) == Concat(blobs) + blob
  {
    ConcatAppend(blobs, [blob]);
    assert Concat([blob]) == blob;
    PaddedWrite(Concat(blobs), blob, size);
  }

  lemma CompleteImage(st: Sparse, chunks: seq<Bytes>, totalSize: nat)
    requires Represents(st, chunks, totalSize) && forall i | 0 <= i < |chunks| :: st.bitmap[i]
    ensures st.file == Image(chunks, totalSize)
  {
    InPlaceIsConcat(st.file, chunks, |chunks|);
    assert chunks[..|chunks|] == chunks;
    assert st.file == st.file[..|Concat(chunks)|] + st.file[|Concat(chunks)|..];
  }

  // ---- Sequential assembly ----

  predicate Holds(objects: map<Hash, Bytes>, hs: seq<Hash>) {
    forall h | h in hs :: h in objects
  }

  function Blobs(objects: map<Hash, Bytes>, hs: seq<Hash>): (bs: seq<Bytes>)
    requires Holds(objects, hs)
    ensures |bs| == |hs| && forall i | 0 <= i < |hs| :: bs[i] == objects[hs[i]]
  {
    seq(|hs|, i requires 0 <= i < |hs| => objects[hs[i]])
  }

  /** Make the file and append the blobs one by one; stop at the first one the store lacks or whose copy
      fails. `copyOk` says whether the copy of chunk i succeeds. */
  method Assemble(objects: map<Hash, Bytes>, chunkHashes: seq<Hash>, createOk: bool, copyOk: nat -> bool)
    returns (ok: bool, out: Bytes)
    ensures ok <==> createOk && Holds(objects, chunkHashes) && forall i: nat | i < |chunkHashes| :: copyOk(i)
    ensures ok ==> out == Concat(Blobs(objects, chunkHashes))
    ensures !createOk ==> out == []
    ensures createOk && !ok ==>
      exists i: nat | i < |chunkHashes| ::
        && (chunkHashes[i] !in objects || !copyOk(i))
        && Holds(objects, chunkHashes[..i]) && out == Concat(Blobs(objects, chunkHashes[..i]))
  {
    out := [];
    if !createOk {
      return false, out;
    }
    for i := 0 to |chunkHashes|
      invariant Holds(objects, chunkHashes[..i]) && forall j: nat | j < i :: copyOk(j)
      invariant out == Concat(Blobs(objects, chunkHashes[..i]))
    {
      var h := chunkHashes[i];
      if h !in objects || !copyOk(i) {
        return false, out;
      }
      assert Blobs(objects, chunkHashes[..i + 1]) == Blobs(objects, chunkHashes[..i]) + [objects[h]];
      ConcatAppend(Blobs(objects, chunkHashes[..i]), [objects[h]]);
      assert Concat([objects[h]]) == objects[h];
      out := out + objects[h];
    }
    assert chunkHashes[..|chunkHashes|] == chunkHashes;
    ok := true;
  }
}
