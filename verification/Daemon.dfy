/** internal/daemon/daemon.go with internal/chunker/chunker.go: what a node does on a file change, on an
    announcement and on a catalogue answer, as the program runs it. Each is proved to do to the node's fields
    what the protocol's actions do; the pulls it starts run elsewhere. */
module Daemon {
  import opened Base
  import opened Merkle
  import opened Conflict
  import opened Store
  import opened Quiet
  import Clock
  import P = Protocol

  datatype Chunk = Chunk(hash: Hash, sequence: nat, data: Bytes)

  /** What reading a file gives: the parts cut by the content-defined chunker, with the number of the part
      at which reading fails, if it does. */
  datatype Reading = CannotOpen | Parts(parts: seq<Bytes>, failAt: Option<nat>)

  predicate Readable(r: Reading) {
    r.Parts? && (r.failAt.None? || r.failAt.value >= |r.parts|)
  }

  method ChunkFile(sha: HashFn, r: Reading) returns (chunks: Option<seq<Chunk>>)
    ensures chunks.Some? <==> Readable(r)
    ensures chunks.None? <==> r.CannotOpen? || exists i | 0 <= i < |r.parts| :: r.failAt == Some(i)
    ensures chunks.Some? ==> |chunks.value| == |r.parts|
    ensures chunks.Some? ==> forall i | 0 <= i < |r.parts| :: chunks.value[i] == Chunk(sha(r.parts[i]), i, r.parts[i])
  {
    if r.CannotOpen? {
      return None;
    }
    var cut := [];
    for i := 0 to |r.parts|
      invariant r.failAt.Some? ==> r.failAt.value >= i
      invariant |cut| == i && forall j | 0 <= j < i :: cut[j] == Chunk(sha(r.parts[j]), j, r.parts[j])
    {
      if r.failAt == Some(i) {
        return None;
      }
      cut := cut + [Chunk(sha(r.parts[i]), i, r.parts[i])];
    }
    chunks := Some(cut);
  }

  /** Storing the blobs still to come ends at the goal. */
  ghost predicate Leads(sha: HashFn, objects: map<Hash, Bytes>, rest: seq<Bytes>, goal: map<Hash, Bytes>) {
    PutAll(sha, objects, rest) == goal
  }

  lemma LeadsNext(sha: HashFn, objects: map<Hash, Bytes>, parts: seq<Bytes>, i: nat, goal: map<Hash, Bytes>)
    requires i < |parts|
    ensures Leads(sha, objects, parts[i..], goal) ==>
      Leads(sha, PutBlob(sha, objects, sha(parts[i]), parts[i]), parts[i + 1..], goal)
  {
    assert parts[i..][1..] == parts[i + 1..];
  }

  /** The database suffix of a path is that of the file id. */
  lemma SameSuffix(base: string, file: string)
    ensures P.HasDbExt(base + "/" + file) <==> P.HasDbExt(file)
  {
    var path := base + "/" + file;
    if |file| >= 3 {
      assert path[|path| - 3..] == file[|file| - 3..];
    } else if |path| >= 3 {
      var ext := path[|path| - 3..];
      assert ext[2 - |file|] == '/';
      assert ".db"[0] != '/' && ".db"[1] != '/' && ".db"[2] != '/';
    }
  }

  /** The suffix of the last element of a path, from its last dot on: what `filepath.Ext` gives. */
  function Ext(path: string): string {
    if path == "" || path[|path| - 1] == '/' then ""
    else if path[|path| - 1] == '.' then "."
    else
      var ext := Ext(path[..|path| - 1]);
      if ext == "" then "" else ext + [path[|path| - 1]]
  }

  /** The files left out are those whose suffix is ".db": those that end in it. */
  lemma DbExtIff(path: string)
    ensures P.HasDbExt(path) <==> Ext(path) == ".db"
    ensures P.HasDbExt(path) <==> exists stem :: path == stem + ".db"
  {
    var n := |path|;
    if P.HasDbExt(path) {
      var stem := path[..n - 3];
      assert path == stem + path[n - 3..];
      assert path[n - 3] == '.' && path[n - 2] == 'd' && path[n - 1] == 'b';
      assert path[..n - 1][..n - 2] == path[..n - 2];
      assert Ext(path[..n - 2]) == "." && Ext(path[..n - 1]) == ".d";
    } else {
      ExtIsSuffix(path);
      forall stem ensures path != stem + ".db" {
        assert (stem + ".db")[|stem|..] == ".db";
      }
    }
  }

  lemma {:induction false} ExtIsSuffix(path: string)
    ensures |Ext(path)| <= |path| && path[|path| - |Ext(path)|..] == Ext(path)
  {
    if path != "" {
      var front := path[..|path| - 1];
      ExtIsSuffix(front);
      assert path == front + [path[|path| - 1]];
    }
  }

  /** The lock-free clock, its completed operations taken one at a time, is the protocol's clock: an observe is the
      protocol's, and an issue is what stamping does. */
  lemma ClockIsProtocols(env: P.Env, node: P.Node, log: seq<Clock.Event>, ts: nat, k: nat)
    requires node.clock == Clock.Replay(log)
    ensures P.Observe(node, ts).clock == Clock.Replay(log + [Clock.Observed(ts)])
    ensures k in node.ingests ==>
      P.StampIngest(env, node, k).clock == Clock.Replay(log + [Clock.Issued(Clock.Replay(log) + 1)])
  {
    assert (log + [Clock.Observed(ts)])[..|log|] == log;
    assert (log + [Clock.Issued(Clock.Replay(log) + 1)])[..|log|] == log;
  }

  /** A file change as the protocol takes it: read, compare, and if the root is new, store and stamp, then publish. */
  ghost function Ingested(env: P.Env, node: P.Node, k: nat, file: string): P.Node
    requires file in node.disk
  {
    var compared := P.CompareIngest(env, P.BeginIngest(node, k, file), k);
    if k !in compared.ingests then compared else P.PublishIngest(env, P.StampIngest(env, compared, k), k)
  }

  /** These are the protocol's actions. */
  lemma IngestedByActions(env: P.Env, name: string, node: P.Node, k: nat, file: string)
    requires P.Enabled(env, name, node, P.IngestBegin(k, file))
    ensures var read := P.After(env, name, node, P.IngestBegin(k, file));
      && P.Enabled(env, name, read, P.IngestCompare(k))
      && var compared := P.After(env, name, read, P.IngestCompare(k));
         if k !in compared.ingests then Ingested(env, node, k, file) == compared else
         && P.Enabled(env, name, compared, P.IngestStamp(k))
         && var stamped := P.After(env, name, compared, P.IngestStamp(k));
            && P.Enabled(env, name, stamped, P.IngestPublish(k))
            && Ingested(env, node, k, file) == P.After(env, name, stamped, P.IngestPublish(k))
  {
    var read := P.BeginIngest(node, k, file);
    var compared := P.CompareIngest(env, read, k);
    BeginIs(env, name, node, k, file);
    CompareIs(env, name, read, k);
    if k in compared.ingests {
      StampIs(env, name, compared, k);
      PublishIs(env, name, P.StampIngest(env, compared, k), k);
    }
  }

  lemma BeginIs(env: P.Env, name: string, node: P.Node, k: nat, file: string)
    requires P.Enabled(env, name, node, P.IngestBegin(k, file))
    ensures P.After(env, name, node, P.IngestBegin(k, file)) == P.BeginIngest(node, k, file)
  {
  }

  lemma CompareIs(env: P.Env, name: string, node: P.Node, k: nat)
    requires k in node.ingests && node.ingests[k].Read?
    ensures P.Enabled(env, name, node, P.IngestCompare(k))
    ensures P.After(env, name, node, P.IngestCompare(k)) == P.CompareIngest(env, node, k)
  {
  }

  lemma StampIs(env: P.Env, name: string, node: P.Node, k: nat)
    requires k in node.ingests && node.ingests[k].Differs?
    ensures P.Enabled(env, name, node, P.IngestStamp(k))
    ensures P.After(env, name, node, P.IngestStamp(k)) == P.StampIngest(env, node, k)
  {
  }

  lemma PublishIs(env: P.Env, name: string, node: P.Node, k: nat)
    requires k in node.ingests && node.ingests[k].Stamped?
    ensures P.Enabled(env, name, node, P.IngestPublish(k))
    ensures P.After(env, name, node, P.IngestPublish(k)) == P.PublishIngest(env, node, k)
  {
  }

  /** Taken together: nothing if the root is the indexed one, and else the blobs, the next timestamp and the
      version with it. */
  lemma IngestedIs(env: P.Env, node: P.Node, k: nat, file: string)
    requires file in node.disk && k !in node.ingests
    ensures var r, v := Ingested(env, node, k, file), P.Version(env, file, node.disk[file], node.clock + 1);
      && r.syncing == node.syncing
      && if file in node.meta && node.meta[file].merkleRoot == v.merkleRoot then r == node else
         && r.meta == node.meta[file := v] && r.clock == v.lamportTs
         && r.cas == PutAll(env.sha, node.cas, env.split(node.disk[file]))
  {
    var content, compared := node.disk[file], P.CompareIngest(env, P.BeginIngest(node, k, file), k);
    assert P.Version(env, file, content, 0).merkleRoot == P.Version(env, file, content, node.clock + 1).merkleRoot;
    if P.Indexed(env, node, file, content) {
      assert compared.ingests == node.ingests;
    } else {
      assert compared.ingests[k] == P.Differs(file, content);
      assert P.StampIngest(env, compared, k).ingests[k] == P.Stamped(file, content, node.clock + 1);
    }
  }

  /** What a file change leaves in the fields, when nothing fails, is what the protocol's actions leave in the node. */
  lemma ChangeIsIngest(env: P.Env, node: P.Node, k: nat, file: string, parts: seq<Bytes>,
                       meta: map<string, FileMeta>, clock: nat, objects: map<Hash, Bytes>)
    requires file in node.disk && k !in node.ingests && env.split(node.disk[file]) == parts
    requires !(file in node.meta && node.meta[file].merkleRoot == Root(env.sha, Digests(env.sha, parts)))
    requires clock == node.clock + 1 && objects == PutAll(env.sha, node.cas, parts)
    requires var digests := Digests(env.sha, parts);
      meta == node.meta[file := FileMeta(file, Root(env.sha, digests), clock, digests, |Concat(parts)|)]
    ensures var r := Ingested(env, node, k, file);
      r.meta == meta && r.clock == clock && r.cas == objects && r.syncing == node.syncing
  {
    IngestedIs(env, node, k, file);
    assert P.Version(env, file, node.disk[file], clock).merkleRoot == Root(env.sha, Digests(env.sha, parts));
  }

  ghost predicate FreshFrom(node: P.Node, k: nat) {
    forall j | j in node.pulls :: j < k
  }

  /** The node after some entries of a catalogue answer, and the pulls started so far, in order. */
  datatype Progress = Progress(node: P.Node, started: seq<P.Pull>)

  /** One entry, taken as the protocol takes it unless it is a database. */
  ghost function Take(name: string, done: Progress, e: P.Hint, k: nat, peers: seq<string>): Progress {
    if P.HasDbExt(e.file) then done
    else
      var after := P.ReconcileEntry(name, done.node, e, k, peers);
      Progress(after, done.started + if k in after.pulls then [after.pulls[k]] else [])
  }

  /** A catalogue answer, entry by entry; pulls are numbered from k. */
  ghost function Reconciled(name: string, node: P.Node, entries: seq<P.Hint>, k: nat, peers: seq<string>): Progress
    decreases |entries|
  {
    if entries == [] then Progress(node, [])
    else
      var front, last := entries[..|entries| - 1], entries[|entries| - 1];
      Take(name, Reconciled(name, node, front, k, peers), last, k + |front|, peers)
  }

  /** Each entry is a delivery of the protocol. */
  lemma TakeIsDelivery(env: P.Env, name: string, done: Progress, e: P.Hint, k: nat, peers: seq<string>)
    requires e.Listed? && !P.HasDbExt(e.file) && k !in done.node.pulls && name !in peers
    ensures P.Enabled(env, name, done.node, P.Deliver(e, k, peers))
    ensures Take(name, done, e, k, peers).node == P.After(env, name, done.node, P.Deliver(e, k, peers))
  {
  }

  /** An entry that does not win changes nothing. One that does raises the clock to its timestamp and leaves its
      file in `syncing`, with a new pull if it was not there. */
  lemma TakeCases(name: string, done: Progress, e: P.Hint, k: nat, peers: seq<string>)
    requires k !in done.node.pulls
    ensures var n, after := done.node, Take(name, done, e, k, peers);
      if !Wins(name, n, e) then after == done else
      && after.node.meta == n.meta && after.node.cas == n.cas
      && after.node.clock == (if e.ts <= n.clock then n.clock else e.ts) && after.node.syncing == n.syncing + {e.file}
      && after.node.pulls.Keys <= n.pulls.Keys + {k}
      && after.started == done.started + if e.file in n.syncing then [] else [P.Pull(e.file, peers, P.Claimed)]
  {
  }

  lemma ReconcileNext(name: string, node: P.Node, entries: seq<P.Hint>, k: nat, peers: seq<string>, i: nat)
    requires i < |entries|
    ensures Reconciled(name, node, entries[..i + 1], k, peers) ==
            Take(name, Reconciled(name, node, entries[..i], k, peers), entries[i], k + i, peers)
  {
    assert entries[..i + 1][..i] == entries[..i];
  }

  /** Nothing is stored, and numbers from k + |entries| on are still free. */
  lemma {:induction false} ReconcileFrame(name: string, node: P.Node, entries: seq<P.Hint>, k: nat, peers: seq<string>)
    requires FreshFrom(node, k)
    ensures var r := Reconciled(name, node, entries, k, peers).node;
      FreshFrom(r, k + |entries|) && r.meta == node.meta && r.cas == node.cas
    decreases |entries|
  {
    if entries != [] {
      var front, last := entries[..|entries| - 1], entries[|entries| - 1];
      ReconcileFrame(name, node, front, k, peers);
      TakeCases(name, Reconciled(name, node, front, k, peers), last, k + |front|, peers);
    }
  }

  ghost predicate Wins(name: string, node: P.Node, e: P.Hint) {
    !P.HasDbExt(e.file) && StartsSync(P.Local(node, e.file), name, e.root, e.ts, e.source)
  }

  /** Reconciling with a peer puts exactly the files it wins into `syncing`, and the clock ends at the greatest
      timestamp among its own and the winning entries'. */
  lemma {:induction false} ReconcileExact(name: string, node: P.Node, entries: seq<P.Hint>, k: nat, peers: seq<string>)
    requires FreshFrom(node, k)
    ensures var r := Reconciled(name, node, entries, k, peers).node;
      && (forall f :: f in r.syncing <==>
          f in node.syncing || exists e | e in entries :: Wins(name, node, e) && e.file == f)
      && node.clock <= r.clock && (forall e | e in entries && Wins(name, node, e) :: e.ts <= r.clock)
      && (r.clock == node.clock || exists e | e in entries :: Wins(name, node, e) && e.ts == r.clock)
    decreases |entries|
  {
    if entries != [] {
      var front, last := entries[..|entries| - 1], entries[|entries| - 1];
      ReconcileExact(name, node, front, k, peers);
      ReconcileFrame(name, node, front, k, peers);
      TakeCases(name, Reconciled(name, node, front, k, peers), last, k + |front|, peers);
      assert entries == front + [last];
      assert forall e :: e in entries <==> e in front || e == last;
    }
  }

  /** No file was started twice, none that was in `syncing` before, and every file started is there now. */
  ghost predicate Once(node: P.Node, done: Progress) {
    && node.syncing <= done.node.syncing
    && (forall p | p in done.started :: p.file in done.node.syncing && p.file !in node.syncing)
    && (forall i, j | 0 <= i < j < |done.started| :: done.started[i].file != done.started[j].file)
    && (forall f | f in done.node.syncing && f !in node.syncing :: exists p :: p in done.started && p.file == f)
  }

  lemma OnceNext(node: P.Node, done: Progress, after: Progress, pull: P.Pull)
    requires Once(node, done) && pull.file !in done.node.syncing
    requires after.node.syncing == done.node.syncing + {pull.file} && after.started == done.started + [pull]
    ensures Once(node, after)
  {
    assert pull in after.started;
    forall f | f in after.node.syncing && f !in node.syncing ensures exists p :: p in after.started && p.file == f {
      if f != pull.file {
        var p :| p in done.started && p.file == f;
        assert p in after.started;
      }
    }
  }

  /** Every file whose sync is started gets one pull, however often it is listed. */
  lemma {:induction false} ReconcileOnce(name: string, node: P.Node, entries: seq<P.Hint>, k: nat, peers: seq<string>)
    requires FreshFrom(node, k)
    ensures Once(node, Reconciled(name, node, entries, k, peers))
    decreases |entries|
  {
    if entries != [] {
      var front, last := entries[..|entries| - 1], entries[|entries| - 1];
      ReconcileOnce(name, node, front, k, peers);
      ReconcileFrame(name, node, front, k, peers);
      var done, after := Reconciled(name, node, front, k, peers), Reconciled(name, node, entries, k, peers);
      TakeCases(name, done, last, k + |front|, peers);
      if after.started == done.started {
        assert after.node.syncing == done.node.syncing;
      } else {
        OnceNext(node, done, after, P.Pull(last.file, peers, P.Claimed));
      }
    }
  }

  class Daemon {
    const name: string
    const baseDir: string
    const cas: CasBlobStore
    const quiet: QuietSet
    var meta: map<string, FileMeta>
    var clock: nat
    var syncing: set<string>
    var announced: seq<P.Hint>
    var started: seq<P.Pull>             // pulls handed to a goroutine

    constructor (name: string, baseDir: string, cas: CasBlobStore, quiet: QuietSet)
      ensures this.name == name && this.baseDir == baseDir && this.cas == cas && this.quiet == quiet
      ensures meta == map[] && clock == 0 && syncing == {} && announced == [] && started == []
    {
      this.name, this.baseDir, this.cas, this.quiet := name, baseDir, cas, quiet;
      meta, clock, syncing, announced, started := map[], 0, {}, [], [];
    }

    /** The fields are those of the protocol's node. */
    ghost predicate Mirrors(node: P.Node)
      reads this, cas
    {
      meta == node.meta && cas.objects == node.cas && clock == node.clock && syncing == node.syncing
    }

    /** Store the blobs, collect their hashes and add up their sizes. Errors of the store are dropped. */
    method StoreChunks(chunks: seq<Chunk>, putOk: nat -> bool, ghost parts: seq<Bytes>)
      returns (hashes: seq<Hash>, size: nat)
      requires cas.Valid() && |chunks| == |parts|
      requires forall i | 0 <= i < |parts| :: chunks[i] == Chunk(cas.sha(parts[i]), i, parts[i])
      modifies cas
      ensures cas.Valid() && hashes == Digests(cas.sha, parts) && size == |Concat(parts)|
      ensures Extends(old(cas.objects), cas.objects)
      ensures (forall i | 0 <= i < |parts| :: putOk(i)) ==> cas.objects == PutAll(cas.sha, old(cas.objects), parts)
    {
      hashes, size := [], 0;
      ghost var clean, goal := true, PutAll(cas.sha, cas.objects, parts);
      assert parts[0..] == parts;
      for i := 0 to |chunks|
        invariant cas.Valid() && |hashes| == i && forall j | 0 <= j < i :: hashes[j] == cas.sha(parts[j])
        invariant size == |Concat(parts[..i])|
        invariant Extends(old(cas.objects), cas.objects)
        invariant clean ==> Leads(cas.sha, cas.objects, parts[i..], goal)
        invariant (forall j | 0 <= j < i :: putOk(j)) ==> clean
      {
        LeadsNext(cas.sha, cas.objects, parts, i, goal);
        ConcatPrefix(parts, i);
        clean := clean && putOk(i);
        var _ := cas.Put(chunks[i].hash, chunks[i].data, putOk(i));
        hashes := hashes + [chunks[i].hash];
        size := size + |chunks[i].data|;
      }
      assert parts[..|parts|] == parts;
    }

    /** Does this change go past the early returns? */
    ghost predicate Changed(file: string, r: Reading, now: int)
      reads this, quiet
    {
      !P.HasDbExt(file) && !quiet.Within(baseDir + "/" + file, now) && Readable(r) && NewRoot(file, r)
    }

    ghost predicate NewRoot(file: string, r: Reading)
      requires r.Parts?
      reads this
    {
      !(file in meta && meta[file].merkleRoot == Root(cas.sha, Digests(cas.sha, r.parts)))
    }

    /** A file change, as the protocol takes it: unless it is dropped, and when the stores do not fail, it does to
        the node what the protocol's read, compare, stamp and publish do (`node` is the picture of the node before,
        k the number of this change). */
    method HandleFileChange(file: string, r: Reading, now: int, putOk: nat -> bool, saveOk: bool,
                            ghost env: P.Env, ghost node: P.Node, ghost k: nat)
      requires cas.Valid() && quiet.Valid() && now >= quiet.lastNow
      requires Mirrors(node) && env.sha == cas.sha && k !in node.ingests
      requires Readable(r) ==> file in node.disk && env.split(node.disk[file]) == r.parts
      modifies this`meta, this`clock, this`announced, cas, quiet
      ensures cas.Valid() && quiet.Valid() && quiet.marked == old(quiet.marked)
      ensures !old(Changed(file, r, now)) ==> Mirrors(node) && announced == old(announced)
      ensures old(Changed(file, r, now)) && saveOk && (forall i :: putOk(i)) ==> Mirrors(Ingested(env, node, k, file))
      ensures old(Changed(file, r, now)) ==>
        announced == old(announced) +
          [P.Announced(file, P.Version(env, file, node.disk[file], 0).merkleRoot, clock, name)]
    {
      ghost var changed := Changed(file, r, now);
      Change(file, r, now, putOk, saveOk);
      if changed && saveOk && forall i :: putOk(i) {
        ChangeIsIngest(env, node, k, file, r.parts, meta, clock, cas.objects);
      }
    }

    /** Databases, paths the engine has just written, unreadable files and unchanged content are dropped without
        a trace; anything else is chunked, stored, stamped with the next timestamp, indexed and announced once. */
    method Change(file: string, r: Reading, now: int, putOk: nat -> bool, saveOk: bool)
      requires cas.Valid() && quiet.Valid() && now >= quiet.lastNow
      modifies this`meta, this`clock, this`announced, cas, quiet
      ensures cas.Valid() && quiet.Valid() && quiet.marked == old(quiet.marked)
      ensures Extends(old(cas.objects), cas.objects)
      ensures clock == old(clock) <==>
        || Ext(file) == ".db"
        || (baseDir + "/" + file in quiet.marked && now - quiet.marked[baseDir + "/" + file] <= quiet.ttl)
        || r.CannotOpen?
        || (exists i | 0 <= i < |r.parts| :: r.failAt == Some(i))
        || (file in old(meta) && old(meta)[file].merkleRoot == Root(cas.sha, Digests(cas.sha, r.parts)))
      ensures !old(Changed(file, r, now)) ==>
        meta == old(meta) && clock == old(clock) && announced == old(announced) && cas.objects == old(cas.objects)
      ensures old(Changed(file, r, now)) ==>
        && ((forall i | 0 <= i < |r.parts| :: putOk(i)) ==> cas.objects == PutAll(cas.sha, old(cas.objects), r.parts))
        && var digests := Digests(cas.sha, r.parts);
           var v := FileMeta(file, Root(cas.sha, digests), old(clock) + 1, digests, |Concat(r.parts)|);
           && clock == v.lamportTs && announced == old(announced) + [P.Announced(file, v.merkleRoot, clock, name)]
           && meta == if saveOk then old(meta)[file := v] else old(meta)
    {
      DbExtIff(file);
      var ignored := Ignored(file, now);
      if ignored {
        return;
      }
      Rescan(file, r, putOk, saveOk);
    }

    method Ignored(file: string, now: int) returns (ignored: bool)
      requires quiet.Valid() && now >= quiet.lastNow
      modifies quiet
      ensures quiet.Valid() && quiet.marked == old(quiet.marked)
      ensures ignored <==> P.HasDbExt(file) || old(quiet.Within(baseDir + "/" + file, now))
    {
      SameSuffix(baseDir, file);
      if P.HasDbExt(baseDir + "/" + file) {
        return true;
      }
      ignored := quiet.IsQuiet(baseDir + "/" + file, now);
    }

    method Rescan(file: string, r: Reading, putOk: nat -> bool, saveOk: bool)
      requires cas.Valid()
      modifies this`meta, this`clock, this`announced, cas
      ensures cas.Valid() && Extends(old(cas.objects), cas.objects)
      ensures !(Readable(r) && old(NewRoot(file, r))) ==>
        meta == old(meta) && clock == old(clock) && announced == old(announced) && cas.objects == old(cas.objects)
      ensures Readable(r) && old(NewRoot(file, r)) ==>
        && ((forall i | 0 <= i < |r.parts| :: putOk(i)) ==> cas.objects == PutAll(cas.sha, old(cas.objects), r.parts))
        && var digests := Digests(cas.sha, r.parts);
           var v := FileMeta(file, Root(cas.sha, digests), old(clock) + 1, digests, |Concat(r.parts)|);
           && clock == v.lamportTs && announced == old(announced) + [P.Announced(file, v.merkleRoot, clock, name)]
           && meta == if saveOk then old(meta)[file := v] else old(meta)
    {
      var chunks := ChunkFile(cas.sha, r);
      if chunks.None? {
        return;
      }
      var digests := seq(|chunks.value|, i requires 0 <= i < |chunks.value| => chunks.value[i].hash);
      assert digests == Digests(cas.sha, r.parts);
      var root := ComputeRoot(cas.sha, digests);
      if file in meta && meta[file].merkleRoot == root {
        return;
      }
      Index(file, chunks.value, root, putOk, saveOk, r.parts);
    }

    method Index(file: string, chunks: seq<Chunk>, root: Hash, putOk: nat -> bool, saveOk: bool,
                 ghost parts: seq<Bytes>)
      requires cas.Valid() && |chunks| == |parts|
      requires forall i | 0 <= i < |parts| :: chunks[i] == Chunk(cas.sha(parts[i]), i, parts[i])
      modifies this`meta, this`clock, this`announced, cas
      ensures cas.Valid() && Extends(old(cas.objects), cas.objects)
      ensures (forall i | 0 <= i < |parts| :: putOk(i)) ==> cas.objects == PutAll(cas.sha, old(cas.objects), parts)
      ensures var v := FileMeta(file, root, old(clock) + 1, Digests(cas.sha, parts), |Concat(parts)|);
        && clock == v.lamportTs && announced == old(announced) + [P.Announced(file, root, clock, name)]
        && meta == if saveOk then old(meta)[file := v] else old(meta)
    {
      var hashes, size := StoreChunks(chunks, putOk, parts);
      clock := clock + 1;
      if saveOk {
        meta := meta[file := FileMeta(file, root, clock, hashes, size)];
      }
      announced := announced + [P.Announced(file, root, clock, name)];
    }

    /** At most one pull per file. */
    method TriggerSync(file: string, peers: seq<string>, ghost node: P.Node, ghost k: nat)
      requires Mirrors(node) && k !in node.pulls
      modifies this`syncing, this`started
      ensures Mirrors(P.Trigger(node, file, k, peers))
      ensures syncing == old(syncing) + {file}
      ensures started == old(started) + if file in old(syncing) then [] else [P.Pull(file, peers, P.Claimed)]
    {
      if file in syncing {
        return;
      }
      syncing := syncing + {file};
      started := started + [P.Pull(file, peers, P.Claimed)];
    }

    method ObserveTs(remote: nat, ghost node: P.Node)
      requires Mirrors(node)
      modifies this`clock
      ensures Mirrors(P.Observe(node, remote)) && clock == if old(clock) < remote then remote else old(clock)
    {
      if remote > clock {
        clock := remote;
      }
    }

    /** Would a version with this root and timestamp, held by that node, be pulled? */
    predicate Loses(file: string, root: Hash, ts: nat, source: string)
      reads this
    {
      file in meta && (meta[file].merkleRoot == root || !RemoteWins(meta[file].lamportTs, name, ts, source))
    }

    /** The version beats what the node has, in the words of the source: the file is unknown, or has another root and an
        older timestamp, or the same timestamp and the node the smaller name. */
    ghost predicate Beaten(file: string, root: Hash, ts: nat, source: string)
      reads this
    {
      file !in meta ||
      (meta[file].merkleRoot != root &&
       (meta[file].lamportTs < ts || (meta[file].lamportTs == ts && Below(name, source))))
    }

    /** An announcement: one's own is dropped. Of another's the clock always hears, and a pull is started exactly if the
        announced version beats the node's own and no pull of the file is under way; that is the protocol's delivery. */
    method HandleAnnouncement(ann: P.Hint, peers: seq<string>, ghost env: P.Env, ghost node: P.Node, ghost k: nat)
      requires ann.Announced? && Mirrors(node) && k !in node.pulls && name !in peers
      modifies this`clock, this`syncing, this`started
      ensures ann.source == name ==> Mirrors(node) && started == old(started)
      ensures ann.source != name ==>
        var after := P.After(env, name, node, P.Deliver(ann, k, peers));
        Mirrors(after) && started == old(started) + if k in after.pulls then [after.pulls[k]] else []
      ensures ann.source != name ==>
        && clock == (if old(clock) < ann.ts then ann.ts else old(clock))
        && (if old(Beaten(ann.file, ann.root, ann.ts, ann.source)) then
              && syncing == old(syncing) + {ann.file}
              && started == old(started) +
                   if ann.file in old(syncing) then [] else [P.Pull(ann.file, peers, P.Claimed)]
            else syncing == old(syncing) && started == old(started))
    {
      if ann.source == name {
        return;
      }
      ObserveTs(ann.ts, node);
      if Loses(ann.file, ann.root, ann.ts, ann.source) {
        return;
      }
      TriggerSync(ann.file, peers, P.Observe(node, ann.ts), k);
    }

    method ReconcileOne(entry: P.Hint, peers: seq<string>, ghost done: Progress, ghost k: nat,
                        ghost before: seq<P.Pull>)
      requires Mirrors(done.node) && k !in done.node.pulls && started == before + done.started
      modifies this`clock, this`syncing, this`started
      ensures var after := Take(name, done, entry, k, peers); Mirrors(after.node) && started == before + after.started
    {
      if P.HasDbExt(entry.file) {
        return;
      }
      if Loses(entry.file, entry.root, entry.ts, entry.source) {
        return;
      }
      TakeCases(name, done, entry, k, peers);
      ObserveTs(entry.ts, done.node);
      TriggerSync(entry.file, peers, P.Observe(done.node, entry.ts), k);
    }

    /** Anti-entropy with one peer: its catalogue, entry by entry. */
    method ReconcileWithPeer(catalog: Option<seq<P.Hint>>, peers: seq<string>, ghost node: P.Node, ghost k: nat)
      requires Mirrors(node) && FreshFrom(node, k)
      modifies this`clock, this`syncing, this`started
      ensures catalog.None? ==> Mirrors(node) && started == old(started)
      ensures catalog.Some? ==>
        var done := Reconciled(name, node, catalog.value, k, peers);
        Mirrors(done.node) && started == old(started) + done.started
    {
      if catalog.None? {
        return;
      }
      var entries := catalog.value;
      ghost var done, before := Progress(node, []), started;
      for i := 0 to |entries|
        invariant done == Reconciled(name, node, entries[..i], k, peers)
        invariant Mirrors(done.node) && started == before + done.started
      {
        ReconcileFrame(name, node, entries[..i], k, peers);
        ReconcileNext(name, node, entries, k, peers, i);
        ReconcileOne(entries[i], peers, done, k + i, before);
        done := Take(name, done, entries[i], k + i, peers);
      }
      assert entries[..|entries|] == entries;
    }
  }
}
