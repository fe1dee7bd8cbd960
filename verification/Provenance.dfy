/** What a file change reads, byte for byte: a user's content, or what a pull has written over what was there. A pull
    writes in place, so a change may read a file that is not finished, and publish it. */
module Provenance {
  import opened Base
  import opened Assembler
  import opened Protocol
  import opened Integrity
  import opened Safety
  import opened Progress
  import opened History
  import opened Changes
  import opened Content

  /** The action writes to the file. */
  ghost predicate WritesFile(node: Node, a: Action, f: string) {
    match a
    case UserWrite(file, _) => file == f
    case PullAssemble(k) => k in node.pulls && node.pulls[k].file == f
    case PullWrite(k) => k in node.pulls && node.pulls[k].file == f
    case PullBroken(k, damage) => k in node.pulls && node.pulls[k].file == f && damage != Kept
    case _ => false
  }

  function OnFile(node: Node, f: string): Option<Bytes> {
    if f in node.disk then Some(node.disk[f]) else None
  }

  lemma DiskFrame(env: Env, name: string, node: Node, a: Action, f: string)
    requires Enabled(env, name, node, a) && !WritesFile(node, a, f)
    ensures OnFile(After(env, name, node, a), f) == OnFile(node, f)
  {
    if a.UserWrite? || Rewrites(a) {
      OtherFile(env, name, node, a, f);
    } else {
      Frame(env, name, node, a);
    }
  }

  lemma OtherFile(env: Env, name: string, node: Node, a: Action, f: string)
    requires Enabled(env, name, node, a) && !WritesFile(node, a, f) && (a.UserWrite? || Rewrites(a))
    ensures OnFile(After(env, name, node, a), f) == OnFile(node, f)
  {
  }

  // ---- Runs ----

  /** Event t writes to the file on the node. */
  ghost predicate Touches(states: seq<Cluster>, events: seq<Event>, n: string, f: string, t: nat)
    requires |states| == |events| + 1 && t < |events|
  {
    events[t].name == n && n in states[t].nodes && WritesFile(states[t].nodes[n], events[t].action, f)
  }

  ghost predicate Untouched(states: seq<Cluster>, events: seq<Event>, n: string, f: string, from: nat, upto: nat)
    requires |states| == |events| + 1 && upto <= |events|
  {
    forall t | from <= t < upto :: !Touches(states, events, n, f, t)
  }

  /** Event t was the last before r to write to the file. */
  ghost predicate LastTouch(states: seq<Cluster>, events: seq<Event>, n: string, f: string, t: nat, r: nat)
    requires |states| == |events| + 1 && r <= |events|
  {
    t < r && Touches(states, events, n, f, t) && Untouched(states, events, n, f, t + 1, r)
  }

  lemma {:induction false} StaysOnFile(env: Env, states: seq<Cluster>, events: seq<Event>, n: string, f: string,
                                       from: nat, r: nat)
    requires Run(env, states, events) && from <= r < |states| && n in states[r].nodes
    requires Untouched(states, events, n, f, from, r)
    ensures n in states[from].nodes && OnFile(states[r].nodes[n], f) == OnFile(states[from].nodes[n], f)
    decreases r
  {
    if from < r {
      assert Taken(env, states, events, r - 1) && !Touches(states, events, n, f, r - 1);
      if events[r - 1].name == n {
        DiskFrame(env, n, states[r - 1].nodes[n], events[r - 1].action, f);
      }
      StaysOnFile(env, states, events, n, f, from, r - 1);
    }
  }

  lemma {:induction false} FindTouch(states: seq<Cluster>, events: seq<Event>, n: string, f: string, r: nat)
    returns (t: nat)
    requires |states| == |events| + 1 && r <= |events| && !Untouched(states, events, n, f, 0, r)
    ensures LastTouch(states, events, n, f, t, r)
    decreases r
  {
    if Touches(states, events, n, f, r - 1) {
      t := r - 1;
    } else {
      t := FindTouch(states, events, n, f, r - 1);
    }
  }

  /** The content is a user's: it was on disk from the start and nothing has written to the file, or the last to write
      to it was a user, and wrote this. */
  ghost predicate ByUser(states: seq<Cluster>, events: seq<Event>, n: string, f: string, content: Bytes, r: nat)
    requires |states| == |events| + 1 && r <= |events|
  {
    || (Untouched(states, events, n, f, 0, r) && n in states[0].nodes && OnFile(states[0].nodes[n], f) == Some(content))
    || exists t: nat :: LastTouch(states, events, n, f, t, r) && events[t] == Event(n, UserWrite(f, content))
  }

  // ---- Bytes ----

  lemma WriteJoin(y: Bytes, o: nat, p: Bytes, q: Bytes)
    ensures WriteAt(WriteAt(y, o, p), o + |p|, q) == WriteAt(y, o, p + q)
  {
    var once, twice := WriteAt(y, o, p + q), WriteAt(WriteAt(y, o, p), o + |p|, q);
    if p == [] {
      assert p + q == q;
    } else if q == [] {
      assert p + q == p;
    } else {
      assert |once| == |twice|;
      forall i | 0 <= i < |once| ensures once[i] == twice[i] {
        JoinedByte(y, o, p, q, i);
      }
    }
  }

  lemma JoinedByte(y: Bytes, o: nat, p: Bytes, q: Bytes, i: nat)
    requires p != [] && q != []
    requires i < |WriteAt(y, o, p + q)| && i < |WriteAt(WriteAt(y, o, p), o + |p|, q)|
    ensures WriteAt(y, o, p + q)[i] == WriteAt(WriteAt(y, o, p), o + |p|, q)[i]
  {
    if o <= i < o + |p| {
      assert WriteAt(y, o, p)[o + (i - o)] == p[i - o] == (p + q)[i - o];
      assert WriteAt(y, o, p + q)[o + (i - o)] == (p + q)[i - o];
    } else if o + |p| <= i < o + |p| + |q| {
      assert WriteAt(y, o, p + q)[o + (i - o)] == (p + q)[i - o];
      assert WriteAt(WriteAt(y, o, p), o + |p|, q)[o + |p| + (i - o - |p|)] == q[i - o - |p|];
    }
  }

  /** The bytes from `o` to `b` of the whole, written over y. */
  function Patched(y: Bytes, o: nat, b: nat, whole: Bytes): Bytes
    requires o <= b <= |whole|
  {
    WriteAt(y, o, whole[o..b])
  }

  lemma PatchOn(y: Bytes, o: nat, b: nat, d: nat, whole: Bytes)
    requires o <= b <= d <= |whole|
    ensures WriteAt(Patched(y, o, b, whole), b, whole[b..d]) == Patched(y, o, d, whole)
  {
    SliceJoin(whole, o, b, d);
    WriteJoin(y, o, whole[o..b], whole[b..d]);
  }

  lemma SliceJoin<T>(s: seq<T>, o: nat, b: nat, d: nat)
    requires o <= b <= d <= |s|
    ensures s[o..b] + s[b..d] == s[o..d]
  {
  }

  /** Where nothing was written, y already is what the whole is, with zeros behind its end; and it is not longer. */
  predicate Fits(y: Bytes, o: nat, b: nat, whole: Bytes)
    requires o <= b <= |whole|
  {
    && (if o < b && |y| < b then b else |y|) == |whole|
    && forall i | 0 <= i < |whole| && !(o <= i < b) :: whole[i] == if i < |y| then y[i] else 0
  }

  /** The patched file is the whole if and only if it fits. */
  lemma WholeIffFits(y: Bytes, o: nat, b: nat, whole: Bytes)
    requires o <= b <= |whole|
    ensures Patched(y, o, b, whole) == whole <==> Fits(y, o, b, whole)
  {
    var r, part := Patched(y, o, b, whole), whole[o..b];
    if o == b {
      assert part == [];
    }
    assert |r| == if o < b && |y| < b then b else |y|;
    forall i | o <= i < b && i < |r| ensures r[i] == whole[i] {
      assert r[o + (i - o)] == part[i - o];
    }
    if Fits(y, o, b, whole) {
      assert forall i | 0 <= i < |whole| :: r[i] == whole[i];
    }
  }

  /** A file made by the pull itself and not edited since: exactly if the bytes still to come are all zero. */
  lemma WholeIffZeros(b: nat, whole: Bytes)
    requires b <= |whole|
    ensures Fits(Zeros(|whole|), 0, b, whole) <==> whole[b..] == Zeros(|whole| - b)
  {
    if whole[b..] == Zeros(|whole| - b) {
      forall i | b <= i < |whole| ensures whole[i] == 0 {
        assert whole[i] == whole[b..][i - b];
      }
    }
  }

  // ---- A pull that is writing ----

  /** The content the metadata was made from. */
  ghost predicate MadeFrom(env: Env, m: FileMeta, whole: Bytes) {
    InWorld(env, whole) && m == Version(env, m.fileId, whole, m.lamportTs)
  }

  /** The chunks a pull has written are the first of the whole, and so is the next. */
  lemma WrittenPart(env: Env, node: Node, k: nat, whole: Bytes)
    requires ValidEnv(env) && NoCollisions(env) && NodeInv(env, node) && k in node.pulls
    requires node.pulls[k].phase.Assembling? && MadeFrom(env, node.pulls[k].phase.remote, whole)
    ensures var p := node.pulls[k].phase;
      && p.offset <= |whole|
      && (CanWrite(node, k) ==> var d := p.offset + |NextChunk(node, k)|;
           d <= |whole| && NextChunk(node, k) == whole[p.offset..d])
  {
    var p := node.pulls[k].phase;
    assert PullOk(env, node, node.pulls[k]);
    FirstBlobs(env, node.cas, whole, p.remote.chunkHashes, p.written);
  }

  lemma FirstBlobs(env: Env, cas: map<Hash, Bytes>, whole: Bytes, hashes: seq<Hash>, w: nat)
    requires ValidEnv(env) && NoCollisions(env) && BlobsOk(env, cas) && InWorld(env, whole)
    requires hashes == Digests(env.sha, env.split(whole)) && w <= |hashes| && Holds(cas, hashes[..w])
    ensures var o := |Concat(Blobs(cas, hashes[..w]))|;
      && o <= |whole|
      && (w < |hashes| && hashes[w] in cas ==>
            o + |cas[hashes[w]]| <= |whole| && cas[hashes[w]] == whole[o..o + |cas[hashes[w]]|])
  {
    var parts := env.split(whole);
    BlobsAreParts(env, cas, parts, hashes, w);
    PrefixOfWhole(parts, w);
    if w < |hashes| && hashes[w] in cas {
      BlobIsPart(env, cas, parts, hashes, w);
      NextPart(parts, w);
    }
  }

  lemma BlobIsPart(env: Env, cas: map<Hash, Bytes>, parts: seq<Bytes>, hashes: seq<Hash>, i: nat)
    requires NoCollisions(env) && BlobsOk(env, cas) && hashes == Digests(env.sha, parts) && i < |parts|
    requires (forall p | p in parts :: env.world(p)) && hashes[i] in cas
    ensures cas[hashes[i]] == parts[i]
  {
    assert parts[i] in parts;
  }

  lemma BlobsAreParts(env: Env, cas: map<Hash, Bytes>, parts: seq<Bytes>, hashes: seq<Hash>, w: nat)
    requires NoCollisions(env) && BlobsOk(env, cas) && hashes == Digests(env.sha, parts) && w <= |parts|
    requires (forall p | p in parts :: env.world(p)) && Holds(cas, hashes[..w])
    ensures Blobs(cas, hashes[..w]) == parts[..w]
  {
    forall i | 0 <= i < w ensures Blobs(cas, hashes[..w])[i] == parts[..w][i] {
      assert hashes[..w][i] in hashes[..w];
      BlobIsPart(env, cas, parts, hashes, i);
    }
  }

  lemma PrefixOfWhole(parts: seq<Bytes>, w: nat)
    requires w <= |parts|
    ensures |Concat(parts[..w])| <= |Concat(parts)| && Concat(parts)[..|Concat(parts[..w])|] == Concat(parts[..w])
  {
    assert parts == parts[..w] + parts[w..];
    ConcatAppend(parts[..w], parts[w..]);
  }

  lemma NextPart(parts: seq<Bytes>, w: nat)
    requires w < |parts|
    ensures var o, d := |Concat(parts[..w])|, |Concat(parts[..w])| + |parts[w]|;
      d <= |Concat(parts)| && Concat(parts)[o..d] == parts[w]
  {
    ConcatPrefix(parts, w);
    PrefixOfWhole(parts, w + 1);
    var o, d := |Concat(parts[..w])|, |Concat(parts[..w])| + |parts[w]|;
    assert Concat(parts)[..d][o..] == Concat(parts)[o..d];
  }

  /** One action of the node while its pull k is writing and goes on: the pull writes its next chunk, or it stays where
      it is; and then only an edit changes the file. */
  lemma WritingStep(env: Env, name: string, node: Node, a: Action, k: nat)
    requires NodeInv(env, node) && Enabled(env, name, node, a) && k in node.pulls && node.pulls[k].phase.Assembling?
    requires var after := After(env, name, node, a); k in after.pulls && after.pulls[k].phase.Assembling?
    ensures var p, p' := node.pulls[k].phase, After(env, name, node, a).pulls[k].phase;
      && p'.remote == p.remote
      && if a == PullWrite(k) then CanWrite(node, k) && After(env, name, node, a) == WriteNextChunk(node, k)
         else p'.offset == p.offset
  {
    if OwnAction(a, k) {
      OwnWritingStep(env, name, node, a, k);
    } else {
      OthersLeavePull(env, name, node, a, k);
    }
  }

  lemma OwnWritingStep(env: Env, name: string, node: Node, a: Action, k: nat)
    requires Enabled(env, name, node, a) && OwnAction(a, k) && k in node.pulls && node.pulls[k].phase.Assembling?
    requires var after := After(env, name, node, a); k in after.pulls && after.pulls[k].phase.Assembling?
    ensures a == PullWrite(k)
  {
  }

  /** Only this pull and users write to the file meanwhile. */
  lemma OnlyWriter(env: Env, node: Node, a: Action, k: nat)
    requires NodeInv(env, node) && k in node.pulls && WritesFile(node, a, node.pulls[k].file) && !a.UserWrite?
    ensures a.k == k
  {
  }

  ghost predicate IsWriting(c: Cluster, n: string, k: nat, f: string, m: FileMeta) {
    HasPull(c, n, k) && c.nodes[n].pulls[k].file == f && PhaseAt(c, n, k).Assembling? && PhaseAt(c, n, k).remote == m
  }

  /** What pull k writes over: at event e the pull made the file, of the announced size, and starts at 0; or a user
      replaced it while the pull was writing, and the pull goes on where it was; or the pull could not give it its
      size. */
  ghost predicate Ground(states: seq<Cluster>, events: seq<Event>, n: string, k: nat, f: string, m: FileMeta,
                         e: nat, y: Bytes, o: nat)
    requires |states| == |events| + 1
  {
    && e < |events| && events[e].name == n && HasPull(states[e], n, k) && states[e].nodes[n].pulls[k].file == f
    && Captured(PhaseAt(states[e], n, k)) == Some(m)
    && match events[e].action
       case PullAssemble(l) => l == k && y == Zeros(m.sizeBytes) && o == 0
       case UserWrite(file, content) =>
         file == f && y == content && PhaseAt(states[e], n, k).Assembling? && o == PhaseAt(states[e], n, k).offset
       case PullBroken(l, damage) => l == k && damage == Emptied && y == [] && o == 0
       case _ => false
  }

  /** The pull has been writing since event e, and nobody has edited the file since. */
  ghost predicate WritingSince(states: seq<Cluster>, events: seq<Event>, n: string, k: nat, f: string, m: FileMeta,
                               e: nat, j: nat)
    requires |states| == |events| + 1 && j < |states|
  {
    && e < j && (forall t | e < t <= j :: IsWriting(states[t], n, k, f, m))
    && (forall t | e < t < j :: !Edits(events, n, f, t))
  }

  /** While a pull is writing, the file is what it found with a stretch of the whole written over it. */
  ghost predicate PatchedAt(states: seq<Cluster>, events: seq<Event>, n: string, k: nat, f: string, m: FileMeta,
                            e: nat, y: Bytes, o: nat, whole: Bytes, j: nat)
    requires |states| == |events| + 1 && j < |states|
  {
    && Ground(states, events, n, k, f, m, e, y, o) && WritingSince(states, events, n, k, f, m, e, j)
    && o <= PhaseAt(states[j], n, k).offset <= |whole|
    && OnFile(states[j].nodes[n], f) == Some(Patched(y, o, PhaseAt(states[j], n, k).offset, whole))
  }

  lemma GroundLaid(env: Env, states: seq<Cluster>, events: seq<Event>, n: string, k: nat, f: string, m: FileMeta,
                   whole: Bytes, e: nat, y: Bytes, o: nat)
    requires |states| == |events| + 1 && Ground(states, events, n, k, f, m, e, y, o)
    requires IsWriting(states[e + 1], n, k, f, m) && PhaseAt(states[e + 1], n, k).offset == o <= |whole|
    requires OnFile(states[e + 1].nodes[n], f) == Some(y)
    ensures PatchedAt(states, events, n, k, f, m, e, y, o, whole, e + 1)
  {
    assert whole[o..o] == [];
  }

  /** The pull has just started to write. */
  lemma Starts(env: Env, states: seq<Cluster>, events: seq<Event>, n: string, k: nat, t: nat)
    requires Run(env, states, events) && t < |events| && events[t] == Event(n, PullAssemble(k))
    ensures HasPull(states[t], n, k) && HasPull(states[t + 1], n, k)
    ensures var pull, pull' := states[t].nodes[n].pulls[k], states[t + 1].nodes[n].pulls[k];
      && pull.phase.Fetching? && pull'.file == pull.file && pull'.phase == Assembling(pull.phase.remote, 0, 0, true)
      && OnFile(states[t + 1].nodes[n], pull.file) == Some(Zeros(pull.phase.remote.sizeBytes))
  {
    assert Taken(env, states, events, t);
  }

  /** The pull goes on writing, and nobody edits the file. */
  lemma GoesOn(env: Env, states: seq<Cluster>, events: seq<Event>, n: string, k: nat, f: string, m: FileMeta,
               whole: Bytes, t: nat, e: nat, y: Bytes, o: nat)
    requires Run(env, states, events) && ValidEnv(env) && NoCollisions(env) && MadeFrom(env, m, whole)
    requires t < |events| && PatchedAt(states, events, n, k, f, m, e, y, o, whole, t) && !Edits(events, n, f, t)
    requires HasPull(states[t + 1], n, k) && PhaseAt(states[t + 1], n, k).Assembling?
    ensures PatchedAt(states, events, n, k, f, m, e, y, o, whole, t + 1)
  {
    assert IsWriting(states[t], n, k, f, m);
    RunInv(env, states, events, t);
    assert Taken(env, states, events, t);
    assert NodeInv(env, states[t].nodes[n]);
    StepFollows(env, states, events, t, n, k);
    if events[t].name == n {
      StepPatches(env, n, states[t].nodes[n], events[t].action, k, y, o, whole);
    }
    PatchedNext(states, events, n, k, f, m, e, y, o, whole, t);
  }

  lemma PatchedNext(states: seq<Cluster>, events: seq<Event>, n: string, k: nat, f: string, m: FileMeta,
                    e: nat, y: Bytes, o: nat, whole: Bytes, t: nat)
    requires |states| == |events| + 1 && t < |events| && PatchedAt(states, events, n, k, f, m, e, y, o, whole, t)
    requires IsWriting(states[t + 1], n, k, f, m) && !Edits(events, n, f, t)
    requires o <= PhaseAt(states[t + 1], n, k).offset <= |whole|
    requires OnFile(states[t + 1].nodes[n], f) == Some(Patched(y, o, PhaseAt(states[t + 1], n, k).offset, whole))
    ensures PatchedAt(states, events, n, k, f, m, e, y, o, whole, t + 1)
  {
  }

  lemma StepPatches(env: Env, name: string, node: Node, a: Action, k: nat, y: Bytes, o: nat, whole: Bytes)
    requires ValidEnv(env) && NoCollisions(env) && NodeInv(env, node) && Enabled(env, name, node, a)
    requires k in node.pulls && node.pulls[k].phase.Assembling? && MadeFrom(env, node.pulls[k].phase.remote, whole)
    requires var after := After(env, name, node, a); k in after.pulls && after.pulls[k].phase.Assembling?
    requires !(a.UserWrite? && a.file == node.pulls[k].file) && o <= node.pulls[k].phase.offset <= |whole|
    requires OnFile(node, node.pulls[k].file) == Some(Patched(y, o, node.pulls[k].phase.offset, whole))
    ensures var after, f := After(env, name, node, a), node.pulls[k].file;
      && after.pulls[k].phase.remote == node.pulls[k].phase.remote && o <= after.pulls[k].phase.offset <= |whole|
      && OnFile(after, f) == Some(Patched(y, o, after.pulls[k].phase.offset, whole))
  {
    WritingStep(env, name, node, a, k);
    if a == PullWrite(k) {
      WrittenPart(env, node, k, whole);
      WritePatches(node, k, y, o, whole);
    } else {
      FileStays(env, name, node, a, k);
    }
  }

  lemma WritePatches(node: Node, k: nat, y: Bytes, o: nat, whole: Bytes)
    requires CanWrite(node, k) && o <= node.pulls[k].phase.offset
    requires var d := node.pulls[k].phase.offset + |NextChunk(node, k)|;
      d <= |whole| && NextChunk(node, k) == whole[node.pulls[k].phase.offset..d]
    requires OnFile(node, node.pulls[k].file) == Some(Patched(y, o, node.pulls[k].phase.offset, whole))
    ensures var after, f := WriteNextChunk(node, k), node.pulls[k].file;
      && o <= after.pulls[k].phase.offset <= |whole|
      && OnFile(after, f) == Some(Patched(y, o, after.pulls[k].phase.offset, whole))
  {
    PatchOn(y, o, node.pulls[k].phase.offset, node.pulls[k].phase.offset + |NextChunk(node, k)|, whole);
  }

  lemma FileStays(env: Env, name: string, node: Node, a: Action, k: nat)
    requires NodeInv(env, node) && Enabled(env, name, node, a) && k in node.pulls && node.pulls[k].phase.Assembling?
    requires var after := After(env, name, node, a); k in after.pulls && after.pulls[k].phase.Assembling?
    requires a != PullWrite(k) && !(a.UserWrite? && a.file == node.pulls[k].file)
    ensures var f := node.pulls[k].file; OnFile(After(env, name, node, a), f) == OnFile(node, f)
  {
    var f := node.pulls[k].file;
    if WritesFile(node, a, f) {
      OnlyWriter(env, node, a, k);
      OwnWritingStep(env, name, node, a, k);
    } else {
      DiskFrame(env, name, node, a, f);
    }
  }

  /** Somebody edits the file under the pull. */
  lemma EditedUnder(env: Env, states: seq<Cluster>, events: seq<Event>, n: string, k: nat, f: string, m: FileMeta,
                    t: nat)
    requires Run(env, states, events) && t < |events| && IsWriting(states[t], n, k, f, m) && Edits(events, n, f, t)
    ensures IsWriting(states[t + 1], n, k, f, m)
    ensures PhaseAt(states[t + 1], n, k).offset == PhaseAt(states[t], n, k).offset
    ensures OnFile(states[t + 1].nodes[n], f) == Some(events[t].action.content)
  {
    assert Taken(env, states, events, t);
  }

  /** In every run, for every pull that is writing. */
  lemma {:induction false} FindGround(env: Env, states: seq<Cluster>, events: seq<Event>, n: string, k: nat, f: string,
                                      m: FileMeta, whole: Bytes, j: nat)
    returns (e: nat, y: Bytes, o: nat)
    requires Run(env, states, events) && ValidEnv(env) && NoCollisions(env) && MadeFrom(env, m, whole)
    requires j < |states| && IsWriting(states[j], n, k, f, m)
    ensures PatchedAt(states, events, n, k, f, m, e, y, o, whole, j)
    decreases j
  {
    NoneAtStart(states[0], n, k);
    StepFollows(env, states, events, j - 1, n, k);
    e := j - 1;
    if !PhaseAt(states[e], n, k).Assembling? {
      Starts(env, states, events, n, k, e);
      y, o := Zeros(m.sizeBytes), 0;
      GroundLaid(env, states, events, n, k, f, m, whole, e, y, o);
    } else {
      StillSame(env, states, events, n, k, f, m, e);
      if Edits(events, n, f, e) {
        y, o := events[e].action.content, PhaseAt(states[e], n, k).offset;
        EditIsGround(env, states, events, n, k, f, m, whole, e);
      } else {
        e, y, o := FindGround(env, states, events, n, k, f, m, whole, j - 1);
        GoesOn(env, states, events, n, k, f, m, whole, j - 1, e, y, o);
      }
    }
  }

  lemma EditIsGround(env: Env, states: seq<Cluster>, events: seq<Event>, n: string, k: nat, f: string, m: FileMeta,
                     whole: Bytes, e: nat)
    requires Run(env, states, events) && ValidEnv(env) && NoCollisions(env) && MadeFrom(env, m, whole)
    requires e < |events| && IsWriting(states[e], n, k, f, m) && Edits(events, n, f, e)
    ensures PatchedAt(states, events, n, k, f, m, e, events[e].action.content, PhaseAt(states[e], n, k).offset, whole,
                      e + 1)
  {
    EditedUnder(env, states, events, n, k, f, m, e);
    InsideWhole(env, states, events, n, k, f, m, whole, e);
    GroundLaid(env, states, events, n, k, f, m, whole, e, events[e].action.content, PhaseAt(states[e], n, k).offset);
  }

  lemma InsideWhole(env: Env, states: seq<Cluster>, events: seq<Event>, n: string, k: nat, f: string, m: FileMeta,
                    whole: Bytes, t: nat)
    requires Run(env, states, events) && ValidEnv(env) && NoCollisions(env) && MadeFrom(env, m, whole)
    requires t < |states| && IsWriting(states[t], n, k, f, m)
    ensures PhaseAt(states[t], n, k).offset <= |whole|
  {
    RunInv(env, states, events, t);
    assert NodeInv(env, states[t].nodes[n]);
    WrittenPart(env, states[t].nodes[n], k, whole);
  }

  lemma StillSame(env: Env, states: seq<Cluster>, events: seq<Event>, n: string, k: nat, f: string, m: FileMeta, t: nat)
    requires Run(env, states, events) && t < |events| && IsWriting(states[t + 1], n, k, f, m)
    requires HasPull(states[t], n, k) && PhaseAt(states[t], n, k).Assembling?
    ensures IsWriting(states[t], n, k, f, m)
  {
    RunInv(env, states, events, t);
    assert Taken(env, states, events, t);
    assert NodeInv(env, states[t].nodes[n]);
    StepFollows(env, states, events, t, n, k);
    if events[t].name == n {
      WritingStep(env, n, states[t].nodes[n], events[t].action, k);
    }
  }

  // ---- What is read ----

  /** What a pull k has made of a file: the last to write to the file was the pull at event `touch`; it writes a content
      over what event `ground` left, and has got from `from` to `upto`. */
  datatype Patch = Patch(k: nat, m: FileMeta, whole: Bytes, ground: nat, under: Bytes, from: nat, touch: nat, upto: nat)

  ghost predicate ByPull(env: Env, states: seq<Cluster>, events: seq<Event>, n: string, f: string, content: Bytes,
                         r: nat, p: Patch)
    requires |states| == |events| + 1 && r <= |events|
  {
    && LastTouch(states, events, n, f, p.touch, r) && !events[p.touch].action.UserWrite? && p.ground <= p.touch
    && Ground(states, events, n, p.k, f, p.m, p.ground, p.under, p.from)
    && (forall t | p.ground < t <= p.touch :: IsWriting(states[t], n, p.k, f, p.m) && !Edits(events, n, f, t))
    && MadeFrom(env, p.m, p.whole) && p.from <= p.upto <= |p.whole|
    && content == Patched(p.under, p.from, p.upto, p.whole)
  }

  lemma FindWhole(env: Env, states: seq<Cluster>, events: seq<Event>, n: string, k: nat, f: string, j: nat)
    returns (m: FileMeta, whole: Bytes)
    requires Run(env, states, events) && j < |states| && HasPull(states[j], n, k)
    requires PhaseAt(states[j], n, k).Assembling? && states[j].nodes[n].pulls[k].file == f
    ensures IsWriting(states[j], n, k, f, m) && MadeFrom(env, m, whole)
  {
    RunInv(env, states, events, j);
    assert NodeInv(env, states[j].nodes[n]) && PullOk(env, states[j].nodes[n], states[j].nodes[n].pulls[k]);
    m := PhaseAt(states[j], n, k).remote;
    whole :| InWorld(env, whole) && m == Version(env, m.fileId, whole, m.lamportTs);
  }

  /** After a chunk, or after the file was made. */
  lemma WroteChunk(env: Env, states: seq<Cluster>, events: seq<Event>, n: string, f: string, content: Bytes, r: nat,
                   t: nat)
    returns (p: Patch)
    requires Run(env, states, events) && ValidEnv(env) && NoCollisions(env) && r <= |events|
    requires LastTouch(states, events, n, f, t, r) && (events[t].action.PullAssemble? || events[t].action.PullWrite?)
    requires n in states[t + 1].nodes && OnFile(states[t + 1].nodes[n], f) == Some(content)
    ensures ByPull(env, states, events, n, f, content, r, p)
  {
    assert Taken(env, states, events, t);
    var k := events[t].action.k;
    var m, whole := FindWhole(env, states, events, n, k, f, t + 1);
    var e, y, o := FindGround(env, states, events, n, k, f, m, whole, t + 1);
    p := Patch(k, m, whole, e, y, o, t, PhaseAt(states[t + 1], n, k).offset);
  }

  /** After the pull broke off. */
  lemma BrokeOff(env: Env, states: seq<Cluster>, events: seq<Event>, n: string, f: string, content: Bytes, r: nat,
                 t: nat)
    returns (p: Patch)
    requires Run(env, states, events) && ValidEnv(env) && NoCollisions(env) && r <= |events|
    requires LastTouch(states, events, n, f, t, r) && events[t].action.PullBroken?
    requires n in states[t + 1].nodes && OnFile(states[t + 1].nodes[n], f) == Some(content)
    ensures ByPull(env, states, events, n, f, content, r, p)
  {
    Breaks(env, states, events, n, f, t);
    var k := events[t].action.k;
    var m, whole := FindWhole(env, states, events, n, k, f, t);
    if events[t].action.damage == Emptied {
      p := Patch(k, m, whole, t, [], 0, t, 0);
      assert whole[0..0] == [];
    } else {
      p := TornFile(env, states, events, n, f, content, r, t, m, whole);
    }
  }

  lemma Breaks(env: Env, states: seq<Cluster>, events: seq<Event>, n: string, f: string, t: nat)
    requires Run(env, states, events) && t < |events| && Touches(states, events, n, f, t)
    requires events[t].action.PullBroken?
    ensures var k, damage := events[t].action.k, events[t].action.damage;
      && HasPull(states[t], n, k) && PhaseAt(states[t], n, k).Assembling? && states[t].nodes[n].pulls[k].file == f
      && damage != Kept && CanBreak(states[t].nodes[n], k, damage) && n in states[t + 1].nodes
      && OnFile(states[t + 1].nodes[n], f) == Some(Remains(states[t].nodes[n], k, damage))
  {
    assert Taken(env, states, events, t);
  }

  lemma TornFile(env: Env, states: seq<Cluster>, events: seq<Event>, n: string, f: string, content: Bytes, r: nat,
                 t: nat, m: FileMeta, whole: Bytes)
    returns (p: Patch)
    requires Run(env, states, events) && ValidEnv(env) && NoCollisions(env) && r <= |events|
    requires LastTouch(states, events, n, f, t, r) && events[t].action.PullBroken? && events[t].action.damage.Torn?
    requires IsWriting(states[t], n, events[t].action.k, f, m) && MadeFrom(env, m, whole)
    requires CanBreak(states[t].nodes[n], events[t].action.k, events[t].action.damage)
    requires content == Remains(states[t].nodes[n], events[t].action.k, events[t].action.damage)
    ensures ByPull(env, states, events, n, f, content, r, p)
  {
    var k, bytes := events[t].action.k, events[t].action.damage.bytes;
    var e, y, o := FindGround(env, states, events, n, k, f, m, whole, t);
    RunInv(env, states, events, t);
    TornPatches(env, states[t], n, k, y, o, whole, bytes);
    p := Patch(k, m, whole, e, y, o, t, PhaseAt(states[t], n, k).offset + bytes);
    StillPatch(env, states, events, n, f, content, r, p);
  }

  lemma StillPatch(env: Env, states: seq<Cluster>, events: seq<Event>, n: string, f: string, content: Bytes, r: nat,
                   p: Patch)
    requires |states| == |events| + 1 && r <= |events| && LastTouch(states, events, n, f, p.touch, r)
    requires !events[p.touch].action.UserWrite? && Ground(states, events, n, p.k, f, p.m, p.ground, p.under, p.from)
    requires WritingSince(states, events, n, p.k, f, p.m, p.ground, p.touch) && MadeFrom(env, p.m, p.whole)
    requires p.from <= p.upto <= |p.whole| && content == Patched(p.under, p.from, p.upto, p.whole)
    ensures ByPull(env, states, events, n, f, content, r, p)
  {
  }

  lemma TornPatches(env: Env, c: Cluster, n: string, k: nat, y: Bytes, o: nat, whole: Bytes, bytes: nat)
    requires ValidEnv(env) && NoCollisions(env) && ClusterInv(env, c) && n in c.nodes
    requires CanBreak(c.nodes[n], k, Torn(bytes)) && MadeFrom(env, c.nodes[n].pulls[k].phase.remote, whole)
    requires o <= c.nodes[n].pulls[k].phase.offset <= |whole|
    requires var node := c.nodes[n];
      OnFile(node, node.pulls[k].file) == Some(Patched(y, o, node.pulls[k].phase.offset, whole))
    ensures var b := c.nodes[n].pulls[k].phase.offset;
      b + bytes <= |whole| && Remains(c.nodes[n], k, Torn(bytes)) == Patched(y, o, b + bytes, whole)
  {
    var node := c.nodes[n];
    assert NodeInv(env, node);
    WrittenPart(env, node, k, whole);
    var f, b, chunk := node.pulls[k].file, node.pulls[k].phase.offset, NextChunk(node, k);
    assert Remains(node, k, Torn(bytes)) == WriteAt(node.disk[f], b, chunk[..bytes]);
    PatchPart(y, o, b, whole, chunk, bytes);
  }

  lemma PatchPart(y: Bytes, o: nat, b: nat, whole: Bytes, chunk: Bytes, bytes: nat)
    requires o <= b && b + |chunk| <= |whole| && chunk == whole[b..b + |chunk|] && bytes <= |chunk|
    ensures WriteAt(Patched(y, o, b, whole), b, chunk[..bytes]) == Patched(y, o, b + bytes, whole)
  {
    SliceFront(whole, b, b + |chunk|, bytes);
    PatchOn(y, o, b, b + bytes, whole);
  }

  lemma SliceFront<T>(s: seq<T>, b: nat, d: nat, m: nat)
    requires b <= d <= |s| && b + m <= d
    ensures s[b..d][..m] == s[b..b + m]
  {
  }

  lemma OneLastTouch(states: seq<Cluster>, events: seq<Event>, n: string, f: string, t: nat, u: nat, r: nat)
    requires |states| == |events| + 1 && r <= |events|
    requires LastTouch(states, events, n, f, t, r) && LastTouch(states, events, n, f, u, r)
    ensures t == u
  {
  }

  lemma NotBoth(env: Env, states: seq<Cluster>, events: seq<Event>, n: string, f: string, content: Bytes, r: nat,
                p: Patch)
    requires |states| == |events| + 1 && r <= |events| && ByPull(env, states, events, n, f, content, r, p)
    ensures !ByUser(states, events, n, f, content, r)
  {
    forall u: nat | LastTouch(states, events, n, f, u, r) ensures u == p.touch {
      OneLastTouch(states, events, n, f, p.touch, u, r);
    }
  }

  lemma AfterEdit(env: Env, states: seq<Cluster>, events: seq<Event>, n: string, f: string, t: nat)
    requires Run(env, states, events) && t < |events| && Touches(states, events, n, f, t) && events[t].action.UserWrite?
    ensures n in states[t + 1].nodes && OnFile(states[t + 1].nodes[n], f) == Some(events[t].action.content)
  {
    assert Taken(env, states, events, t);
  }

  /** Every file is a user's or a pull's. */
  lemma WhoWrote(env: Env, states: seq<Cluster>, events: seq<Event>, n: string, f: string, content: Bytes, r: nat)
    returns (p: Option<Patch>)
    requires Run(env, states, events) && ValidEnv(env) && NoCollisions(env) && r <= |events|
    requires n in states[r].nodes && OnFile(states[r].nodes[n], f) == Some(content)
    ensures p.None? <==> ByUser(states, events, n, f, content, r)
    ensures p.Some? ==> ByPull(env, states, events, n, f, content, r, p.value)
  {
    if Untouched(states, events, n, f, 0, r) {
      StaysOnFile(env, states, events, n, f, 0, r);
      return None;
    }
    var t := FindTouch(states, events, n, f, r);
    StaysOnFile(env, states, events, n, f, t + 1, r);
    if events[t].action.UserWrite? {
      AfterEdit(env, states, events, n, f, t);
      return None;
    }
    var q: Patch;
    if events[t].action.PullBroken? {
      q := BrokeOff(env, states, events, n, f, content, r, t);
    } else {
      q := WroteChunk(env, states, events, n, f, content, r, t);
    }
    NotBoth(env, states, events, n, f, content, r, q);
    p := Some(q);
  }

  /** The condition, for a pull's file: the bytes it has not written are what they are in the whole. If it made the file
      itself and nobody has edited it since, these are the bytes still to come, and they must be zero. */
  lemma PulledIsWholeIff(env: Env, states: seq<Cluster>, events: seq<Event>, n: string, f: string, content: Bytes,
                         r: nat, p: Patch)
    requires |states| == |events| + 1 && r <= |events| && ByPull(env, states, events, n, f, content, r, p)
    requires ValidEnv(env)
    ensures content == p.whole <==> Fits(p.under, p.from, p.upto, p.whole)
    ensures events[p.ground].action.PullAssemble? ==>
      (content == p.whole <==> p.whole[p.upto..] == Zeros(|p.whole| - p.upto))
  {
    WholeIffFits(p.under, p.from, p.upto, p.whole);
    WholeIffZeros(p.upto, p.whole);
  }

  /** What a file change reads, in every run: exactly the content a user wrote last; or exactly what a pull has written
      over what was there, and then it is the pulled content if and only if the rest fits. */
  lemma ReadIsWholeIff(env: Env, states: seq<Cluster>, events: seq<Event>, n: string, g: nat, f: string, content: Bytes,
                       r: nat)
    returns (p: Option<Patch>)
    requires Run(env, states, events) && ValidEnv(env) && NoCollisions(env)
    requires MadeAt(env, states, events, n, g, Read(f, content), r)
    ensures p.None? <==> ByUser(states, events, n, f, content, r)
    ensures p.Some? ==>
      && ByPull(env, states, events, n, f, content, r, p.value)
      && (content == p.value.whole <==> Fits(p.value.under, p.value.from, p.value.upto, p.value.whole))
      && (events[p.value.ground].action.PullAssemble? ==>
            (content == p.value.whole <==> p.value.whole[p.value.upto..] == Zeros(|p.value.whole| - p.value.upto)))
  {
    p := WhoWrote(env, states, events, n, f, content, r);
    if p.Some? {
      PulledIsWholeIff(env, states, events, n, f, content, r, p.value);
    }
  }

  /** And so it is with what is published. */
  lemma PublishedIsWholeIff(env: Env, states: seq<Cluster>, events: seq<Event>, i: nat, g: nat)
    returns (read: nat, p: Option<Patch>)
    requires Run(env, states, events) && ValidEnv(env) && NoCollisions(env)
    requires i < |events| && events[i].action == IngestPublish(g)
    ensures var n := events[i].name;
      && n in states[i].nodes && g in states[i].nodes[n].ingests && states[i].nodes[n].ingests[g].Stamped?
      && var w := states[i].nodes[n].ingests[g];
         && MadeAt(env, states, events, n, g, Read(w.file, w.content), read) && read < i
         && (p.None? <==> ByUser(states, events, n, w.file, w.content, read))
         && (p.Some? ==>
               && ByPull(env, states, events, n, w.file, w.content, read, p.value)
               && (w.content == p.value.whole <==> Fits(p.value.under, p.value.from, p.value.upto, p.value.whole)))
  {
    var n := events[i].name;
    assert Taken(env, states, events, i);
    var w := states[i].nodes[n].ingests[g];
    var compared, stamped;
    read, compared, stamped := FindStory(env, states, events, n, g, w.file, w.content, w.ts, i);
    p := ReadIsWholeIff(env, states, events, n, g, w.file, w.content, read);
  }

  // ---- Where every version comes from ----

  /** Some user has written the content, or it was on some disk at the start. */
  ghost predicate Authored(states: seq<Cluster>, events: seq<Event>, content: Bytes, j: nat)
    requires |states| == |events| + 1 && j <= |events|
  {
    || (exists n, f :: n in states[0].nodes && OnFile(states[0].nodes[n], f) == Some(content))
    || (exists t | 0 <= t < j :: events[t].action.UserWrite? && events[t].action.content == content)
  }

  /** If event r reads a file, it reads a user's content or a whole pulled one. */
  ghost predicate ReadsWhole(env: Env, states: seq<Cluster>, events: seq<Event>, r: nat)
    requires |states| == |events| + 1 && r < |events|
  {
    forall g, f, content | MadeAt(env, states, events, events[r].name, g, Read(f, content), r) ::
      || ByUser(states, events, events[r].name, f, content, r)
      || exists p :: ByPull(env, states, events, events[r].name, f, content, r, p) && content == p.whole
  }

  lemma UserAuthored(states: seq<Cluster>, events: seq<Event>, n: string, f: string, content: Bytes, r: nat, j: nat)
    requires |states| == |events| + 1 && r <= j <= |events| && ByUser(states, events, n, f, content, r)
    ensures Authored(states, events, content, j)
  {
  }

  /** What a pull writes is present while it does. */
  lemma GroundPresent(states: seq<Cluster>, events: seq<Event>, n: string, k: nat, f: string, m: FileMeta,
                      e: nat, y: Bytes, o: nat)
    requires |states| == |events| + 1 && Ground(states, events, n, k, f, m, e, y, o)
    ensures Present(states[e], f, m)
  {
    assert NodeHas(states[e].nodes[n], f, m);
  }

  /** Metadata is made from one content. */
  lemma MadeFromOne(env: Env, m: FileMeta, a: Bytes, b: Bytes)
    requires ValidEnv(env) && NoCollisions(env) && MadeFrom(env, m, a) && MadeFrom(env, m, b)
    ensures a == b
  {
    SameParts(env, a, b);
  }

  /** A version that was not there before has just been published. */
  lemma NewIsPublished(env: Env, states: seq<Cluster>, events: seq<Event>, t: nat, f: string, v: FileMeta)
    requires Run(env, states, events) && t < |events| && Present(states[t + 1], f, v) && !Present(states[t], f, v)
    ensures events[t].action.IngestPublish? && events[t].name in states[t].nodes
    ensures var node, g := states[t].nodes[events[t].name], events[t].action.k;
      && g in node.ingests && node.ingests[g].Stamped? && node.ingests[g].file == f
      && v == Version(env, f, node.ingests[g].content, node.ingests[g].ts) && InWorld(env, node.ingests[g].content)
  {
    RunInv(env, states, events, t);
    assert Taken(env, states, events, t);
    var e := events[t];
    if !PublishesFile(states[t].nodes[e.name], e.action, f) {
      StepInventsNothing(env, states[t], e.name, e.action, f, v);
    } else {
      PublishedVersion(env, states[t], e.name, e.action.k, f, v);
    }
  }

  lemma PublishedVersion(env: Env, c: Cluster, n: string, g: nat, f: string, v: FileMeta)
    requires ClusterInv(env, c) && Possible(env, c, n, IngestPublish(g)) && c.nodes[n].ingests[g].file == f
    requires Present(Protocol.Step(env, c, n, IngestPublish(g)), f, v) && !Present(c, f, v)
    ensures var w := c.nodes[n].ingests[g]; v == Version(env, f, w.content, w.ts) && InWorld(env, w.content)
  {
    var c' := Protocol.Step(env, c, n, IngestPublish(g));
    assert NodeInv(env, c.nodes[n]) && IngestOk(env, c.nodes[n].cas, c.nodes[n].ingests[g]);
    assert c'.nodes[n] == PublishIngest(env, c.nodes[n], g);
    var o :| o in c'.nodes && NodeHas(c'.nodes[o], f, v);
    if o != n || !(f in c'.nodes[n].meta && c'.nodes[n].meta[f] == v) {
      assert NodeHas(c.nodes[o], f, v);
    }
  }

  /** Where every version comes from, across the cluster: as long as no file change of any node reads a half-written
      file, every version stored or captured anywhere was made from a content that some user wrote, or that was on
      some disk at the start. */
  lemma {:induction false} EveryVersionAuthored(env: Env, states: seq<Cluster>, events: seq<Event>, j: nat, f: string,
                                                v: FileMeta)
    returns (content: Bytes)
    requires Run(env, states, events) && ValidEnv(env) && NoCollisions(env) && j <= |events|
    requires forall r | 0 <= r < j :: ReadsWhole(env, states, events, r)
    requires Present(states[j], f, v)
    ensures Authored(states, events, content, j) && MadeFrom(env, v, content) && v.fileId == f
    decreases j
  {
    if j == 0 {
      NothingPresent(states[0], f, v);
    } else if Present(states[j - 1], f, v) {
      content := EveryVersionAuthored(env, states, events, j - 1, f, v);
    } else {
      var n, r, p;
      n, r, content, p := PublishedFrom(env, states, events, j - 1, f, v);
      if p.None? {
        UserAuthored(states, events, n, f, content, r, j);
      } else {
        var q := p.value;
        GroundPresent(states, events, n, q.k, f, q.m, q.ground, q.under, q.from);
        var origin := EveryVersionAuthored(env, states, events, q.ground, f, q.m);
        MadeFromOne(env, q.m, origin, content);
      }
    }
  }

  /** What a new version was made from, and whose content that was when it was read. */
  lemma PublishedFrom(env: Env, states: seq<Cluster>, events: seq<Event>, t: nat, f: string, v: FileMeta)
    returns (n: string, r: nat, content: Bytes, p: Option<Patch>)
    requires Run(env, states, events) && t < |events| && Present(states[t + 1], f, v) && !Present(states[t], f, v)
    requires forall u | 0 <= u <= t :: ReadsWhole(env, states, events, u)
    ensures r < t && MadeFrom(env, v, content) && v.fileId == f
    ensures p.None? ==> ByUser(states, events, n, f, content, r)
    ensures p.Some? ==> ByPull(env, states, events, n, f, content, r, p.value) && content == p.value.whole
  {
    NewIsPublished(env, states, events, t, f, v);
    n := events[t].name;
    var g := events[t].action.k;
    var w := states[t].nodes[n].ingests[g];
    content := w.content;
    var compared, stamped;
    r, compared, stamped := FindStory(env, states, events, n, g, f, content, w.ts, t);
    assert ReadsWhole(env, states, events, r);
    p := None;
    if !ByUser(states, events, n, f, content, r) {
      var q :| ByPull(env, states, events, n, f, content, r, q) && content == q.whole;
      p := Some(q);
    }
  }
}
