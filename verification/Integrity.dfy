/** What every step of the protocol keeps: stored metadata is genuine and backed by verified blobs,
    at most one pull per file runs, and a committed file holds its blobs. */
module Integrity {
  import opened Base
  import opened Assembler
  import opened Store
  import opened Protocol

  /** Some content was chunked into exactly this metadata. */
  ghost predicate Genuine(env: Env, m: FileMeta) {
    exists content :: InWorld(env, content) && m == Version(env, m.fileId, content, m.lamportTs)
  }

  ghost predicate Stored(env: Env, cas: map<Hash, Bytes>, file: string, m: FileMeta) {
    m.fileId == file && Genuine(env, m) && Holds(cas, m.chunkHashes)
  }

  ghost predicate BlobsOk(env: Env, cas: map<Hash, Bytes>) {
    HashChecked(env.sha, cas) && forall h | h in cas :: env.world(cas[h])
  }

  ghost predicate MetaOk(env: Env, node: Node) {
    forall f | f in node.meta :: Stored(env, node.cas, f, node.meta[f])
  }

  /** A file is in `syncing` exactly while one pull for it is claimed or running. */
  ghost predicate SingleFlight(node: Node) {
    && (forall k | k in node.pulls :: node.pulls[k].file in node.syncing)
    && (forall f | f in node.syncing :: exists k :: k in node.pulls && node.pulls[k].file == f)
    && (forall k, l | k in node.pulls && l in node.pulls && k != l :: node.pulls[k].file != node.pulls[l].file)
  }

  /** The metadata a pull read at its start. */
  ghost predicate ReadOk(env: Env, file: string, local: Option<FileMeta>) {
    local.Some? ==> local.value.fileId == file && Genuine(env, local.value)
  }

  ghost predicate PullOk(env: Env, node: Node, pull: Pull) {
    match pull.phase
    case Querying(local, _) => ReadOk(env, pull.file, local)
    case Diffed(local, _, _, _) => ReadOk(env, pull.file, local)
    case Planned(remote, _) => remote.fileId == pull.file && Genuine(env, remote)
    case Fetching(remote, missing, workers) =>
      remote.fileId == pull.file && Genuine(env, remote) && |workers| == |missing|
    case Assembling(remote, written, offset, clean) =>
      && remote.fileId == pull.file && Genuine(env, remote)
      && pull.file in node.disk && pull.file !in node.pristine
      && written <= |remote.chunkHashes| && Holds(node.cas, remote.chunkHashes[..written])
      && var blobs := Blobs(node.cas, remote.chunkHashes[..written]);
         offset == |Concat(blobs)| && (clean ==> node.disk[pull.file] == Image(blobs, remote.sizeBytes))
    case Committed(remote) => Stored(env, node.cas, pull.file, remote)
    case _ => true
  }

  ghost predicate PullsOk(env: Env, node: Node) {
    forall k | k in node.pulls :: PullOk(env, node, node.pulls[k])
  }

  ghost predicate IngestOk(env: Env, cas: map<Hash, Bytes>, i: Ingest) {
    InWorld(env, i.content) && (i.Stamped? ==> Holds(cas, Digests(env.sha, env.split(i.content))))
  }

  ghost predicate IngestsOk(env: Env, node: Node) {
    forall k | k in node.ingests :: IngestOk(env, node.cas, node.ingests[k])
  }

  /** The file is what its metadata says, byte for byte. */
  ghost predicate OnDisk(node: Node, f: string) {
    && f in node.meta && f in node.disk && Holds(node.cas, node.meta[f].chunkHashes)
    && node.disk[f] == Image(Blobs(node.cas, node.meta[f].chunkHashes), node.meta[f].sizeBytes)
  }

  ghost predicate PristineOk(node: Node) {
    forall f | f in node.pristine :: OnDisk(node, f)
  }

  ghost predicate NodeInv(env: Env, node: Node) {
    BlobsOk(env, node.cas) && MetaOk(env, node) && SingleFlight(node) && PullsOk(env, node) &&
    IngestsOk(env, node) && PristineOk(node)
  }

  ghost predicate ClusterInv(env: Env, c: Cluster) {
    forall n | n in c.nodes :: NodeInv(env, c.nodes[n])
  }

  // ---- Blobs are only ever added ----

  lemma StillHolds(cas: map<Hash, Bytes>, cas': map<Hash, Bytes>, hs: seq<Hash>)
    requires Extends(cas, cas') && Holds(cas, hs)
    ensures Holds(cas', hs) && Blobs(cas', hs) == Blobs(cas, hs)
  {
  }

  lemma CasGrows(env: Env, node: Node, cas': map<Hash, Bytes>)
    requires NodeInv(env, node) && Extends(node.cas, cas') && BlobsOk(env, cas')
    ensures NodeInv(env, node.(cas := cas'))
  {
    var node' := node.(cas := cas');
    forall f | f in node.meta ensures Stored(env, cas', f, node.meta[f]) {
      assert Stored(env, node.cas, f, node.meta[f]);
      StillHolds(node.cas, cas', node.meta[f].chunkHashes);
    }
    forall k | k in node.pulls ensures PullOk(env, node', node.pulls[k]) {
      assert PullOk(env, node, node.pulls[k]);
      match node.pulls[k].phase
      case Assembling(remote, written, _, _) => StillHolds(node.cas, cas', remote.chunkHashes[..written]);
      case Committed(remote) => StillHolds(node.cas, cas', remote.chunkHashes);
      case _ =>
    }
    forall f | f in node.pristine ensures OnDisk(node', f) {
      assert OnDisk(node, f);
      StillHolds(node.cas, cas', node.meta[f].chunkHashes);
    }
  }

  lemma PutKeepsBlobs(env: Env, cas: map<Hash, Bytes>, h: Hash, data: Bytes)
    requires BlobsOk(env, cas) && (env.sha(data) == h ==> env.world(data))
    ensures BlobsOk(env, PutBlob(env.sha, cas, h, data)) && Extends(cas, PutBlob(env.sha, cas, h, data))
  {
  }

  // ---- Pull steps ----

  lemma SameFlight(node: Node, node': Node)
    requires SingleFlight(node) && node'.syncing == node.syncing && node'.pulls.Keys == node.pulls.Keys
    requires forall l | l in node.pulls :: node'.pulls[l].file == node.pulls[l].file
    ensures SingleFlight(node')
  {
    forall f | f in node'.syncing ensures exists l :: l in node'.pulls && node'.pulls[l].file == f {
      var l :| l in node.pulls && node.pulls[l].file == f;
      assert node'.pulls[l].file == f;
    }
  }

  lemma Moved(env: Env, node: Node, k: nat, phase: Phase)
    requires NodeInv(env, node) && k in node.pulls
    requires PullOk(env, node, node.pulls[k].(phase := phase))
    ensures NodeInv(env, Move(node, k, phase))
  {
    var node' := Move(node, k, phase);
    SameFlight(node, node');
    forall l | l in node'.pulls ensures PullOk(env, node', node'.pulls[l]) {
      assert l != k ==> PullOk(env, node, node.pulls[l]);
    }
    forall f | f in node'.pristine ensures OnDisk(node', f) {
      assert OnDisk(node, f);
    }
  }

  /** Writing one file does not disturb pulls of other files. */
  lemma RewriteKeeps(env: Env, node: Node, k: nat, content: Bytes, phase: Phase)
    requires NodeInv(env, node) && k in node.pulls
    requires PullOk(env, Rewrite(node, k, content, phase), node.pulls[k].(phase := phase))
    ensures NodeInv(env, Rewrite(node, k, content, phase))
  {
    var file := node.pulls[k].file;
    var node' := Rewrite(node, k, content, phase);
    SameFlight(node, node');
    forall l | l in node'.pulls ensures PullOk(env, node', node'.pulls[l]) {
      if l != k {
        assert PullOk(env, node, node.pulls[l]);
        assert node.pulls[l].file != file;
      }
    }
    forall f | f in node'.pristine ensures OnDisk(node', f) {
      assert OnDisk(node, f);
    }
  }

  lemma AssembleKeeps(env: Env, node: Node, k: nat)
    requires NodeInv(env, node) && Fetched(node, k)
    ensures var remote := node.pulls[k].phase.remote;
      NodeInv(env, Rewrite(node, k, Zeros(remote.sizeBytes), Assembling(remote, 0, 0, true)))
  {
    assert PullOk(env, node, node.pulls[k]);
    var remote := node.pulls[k].phase.remote;
    assert remote.chunkHashes[..0] == [];
    assert Blobs(node.cas, []) == [];
    RewriteKeeps(env, node, k, Zeros(remote.sizeBytes), Assembling(remote, 0, 0, true));
  }

  lemma BlobsNext(cas: map<Hash, Bytes>, hs: seq<Hash>, i: nat)
    requires i < |hs| && Holds(cas, hs[..i]) && hs[i] in cas
    ensures Holds(cas, hs[..i + 1]) && Blobs(cas, hs[..i + 1]) == Blobs(cas, hs[..i]) + [cas[hs[i]]]
  {
    assert hs[..i + 1] == hs[..i] + [hs[i]];
  }

  /** Writing the next chunk keeps the image in step with the count of written chunks. */
  lemma WriteNext(env: Env, node: Node, k: nat)
    requires CanWrite(node, k) && PullOk(env, node, node.pulls[k])
    ensures var node' := WriteNextChunk(node, k); PullOk(env, node', node'.pulls[k])
  {
    var p := node.pulls[k].phase;
    BlobsNext(node.cas, p.remote.chunkHashes, p.written);
    ImageNext(Blobs(node.cas, p.remote.chunkHashes[..p.written]),
              node.cas[p.remote.chunkHashes[p.written]], p.remote.sizeBytes);
  }

  lemma WriteKeeps(env: Env, node: Node, k: nat)
    requires NodeInv(env, node) && CanWrite(node, k)
    ensures NodeInv(env, WriteNextChunk(node, k))
  {
    assert PullOk(env, node, node.pulls[k]);
    WriteNext(env, node, k);
    var node' := WriteNextChunk(node, k);
    RewriteKeeps(env, node, k, node'.disk[node.pulls[k].file], node'.pulls[k].phase);
  }

  lemma BrokenKeeps(env: Env, node: Node, k: nat, left: Bytes)
    requires NodeInv(env, node) && k in node.pulls
    ensures NodeInv(env, Rewrite(node, k, left, Returned))
  {
    RewriteKeeps(env, node, k, left, Returned);
  }

  lemma OthersAfterCommit(env: Env, node: Node, k: nat, l: nat)
    requires PullsOk(env, node) && SingleFlight(node) && CanCommit(node, k) && l in node.pulls && l != k
    ensures PullOk(env, Commit(node, k), node.pulls[l])
  {
    assert PullOk(env, node, node.pulls[l]);
    assert node.pulls[l].file != node.pulls[k].file;
  }

  /** The metadata stored is backed by the blobs just written, and so is the file unless somebody edited it. */
  lemma CommitStores(env: Env, node: Node, k: nat)
    requires MetaOk(env, node) && PristineOk(node) && CanCommit(node, k) && PullOk(env, node, node.pulls[k])
    ensures var node', remote := Commit(node, k), node.pulls[k].phase.remote;
      Stored(env, node.cas, node.pulls[k].file, remote) && MetaOk(env, node') && PristineOk(node')
  {
    var p, file, node' := node.pulls[k].phase, node.pulls[k].file, Commit(node, k);
    assert p.remote.chunkHashes[..p.written] == p.remote.chunkHashes;
    forall f | f in node'.pristine ensures OnDisk(node', f) {
      assert f != file ==> OnDisk(node, f);
    }
  }

  lemma CommitKeeps(env: Env, node: Node, k: nat)
    requires NodeInv(env, node) && CanCommit(node, k)
    ensures NodeInv(env, Commit(node, k))
  {
    var node' := Commit(node, k);
    SameFlight(node, node');
    CommitStores(env, node, k);
    forall l | l in node'.pulls ensures PullOk(env, node', node'.pulls[l]) {
      if l != k {
        OthersAfterCommit(env, node, k, l);
      }
    }
  }

  lemma ReleaseKeeps(env: Env, node: Node, k: nat)
    requires NodeInv(env, node) && k in node.pulls
    ensures NodeInv(env, Release(node, k))
  {
    var node' := Release(node, k);
    forall f | f in node'.syncing ensures exists l :: l in node'.pulls && node'.pulls[l].file == f {
      var l :| l in node.pulls && node.pulls[l].file == f;
      assert l in node'.pulls;
    }
    forall l | l in node'.pulls ensures PullOk(env, node', node'.pulls[l]) {
      assert PullOk(env, node, node.pulls[l]);
    }
    forall f | f in node'.pristine ensures OnDisk(node', f) {
      assert OnDisk(node, f);
    }
  }

  lemma WorkerKeeps(env: Env, node: Node, k: nat, w: nat, data: Bytes, ioOk: bool)
    requires NodeInv(env, node) && AtWork(node, k, w)
    requires env.sha(data) == node.pulls[k].phase.missing[w] ==> env.world(data)
    ensures NodeInv(env, StoreFetched(env, node, k, w, data, ioOk))
  {
    var p := node.pulls[k].phase;
    var cas' := if ioOk then PutBlob(env.sha, node.cas, p.missing[w], data) else node.cas;
    var phase := p.(workers := p.workers[w := Finished]);
    assert Extends(node.cas, cas') && BlobsOk(env, cas') by {
      PutKeepsBlobs(env, node.cas, p.missing[w], data);
    }
    CasGrows(env, node, cas');
    assert PullOk(env, node, node.pulls[k]);
    Moved(env, node.(cas := cas'), k, phase);
  }

  // ---- Ingest, triggers, users ----

  lemma TriggerKeeps(env: Env, node: Node, file: string, k: nat, peers: seq<string>)
    requires NodeInv(env, node) && k !in node.pulls
    ensures NodeInv(env, Trigger(node, file, k, peers))
  {
    var node' := Trigger(node, file, k, peers);
    if file !in node.syncing {
      assert node'.pulls[k].file == file;
      forall f | f in node'.syncing ensures exists l :: l in node'.pulls && node'.pulls[l].file == f {
        if f != file {
          var l :| l in node.pulls && node.pulls[l].file == f;
          assert node'.pulls[l].file == f;
        }
      }
      forall l | l in node'.pulls ensures PullOk(env, node', node'.pulls[l]) {
        assert l != k ==> PullOk(env, node, node.pulls[l]);
      }
      forall f | f in node'.pristine ensures OnDisk(node', f) {
        assert OnDisk(node, f);
      }
    }
  }

  lemma ClockKeeps(env: Env, node: Node, clock: nat)
    requires NodeInv(env, node)
    ensures NodeInv(env, node.(clock := clock))
  {
    var node' := node.(clock := clock);
    forall l | l in node'.pulls ensures PullOk(env, node', node'.pulls[l]) {
      assert PullOk(env, node, node.pulls[l]);
    }
    forall f | f in node'.pristine ensures OnDisk(node', f) {
      assert OnDisk(node, f);
    }
  }

  lemma IngestsKeep(env: Env, node: Node, ingests: map<nat, Ingest>, clock: nat)
    requires NodeInv(env, node) && forall k | k in ingests :: IngestOk(env, node.cas, ingests[k])
    ensures NodeInv(env, node.(ingests := ingests, clock := clock))
  {
    var node' := node.(ingests := ingests, clock := clock);
    forall l | l in node'.pulls ensures PullOk(env, node', node'.pulls[l]) {
      assert PullOk(env, node, node.pulls[l]);
    }
    forall f | f in node'.pristine ensures OnDisk(node', f) {
      assert OnDisk(node, f);
    }
  }

  lemma PutAllKeeps(env: Env, cas: map<Hash, Bytes>, content: Bytes)
    requires BlobsOk(env, cas) && InWorld(env, content)
    ensures var cas' := PutAll(env.sha, cas, env.split(content));
      Extends(cas, cas') && BlobsOk(env, cas') && Holds(cas', Digests(env.sha, env.split(content)))
  {
    var parts := env.split(content);
    var cas' := PutAll(env.sha, cas, parts);
    PutAllStores(env.sha, cas, parts);
    forall h | h in Digests(env.sha, parts) ensures h in cas' {
      var j :| 0 <= j < |parts| && Digests(env.sha, parts)[j] == h;
      assert parts[j] in parts;
    }
  }

  lemma StampKeeps(env: Env, node: Node, k: nat)
    requires NodeInv(env, node) && k in node.ingests
    ensures NodeInv(env, StampIngest(env, node, k))
  {
    var i := node.ingests[k];
    assert IngestOk(env, node.cas, i);
    PutAllKeeps(env, node.cas, i.content);
    var grown := node.(cas := PutAll(env.sha, node.cas, env.split(i.content)));
    CasGrows(env, node, grown.cas);
    var ingests := node.ingests[k := Stamped(i.file, i.content, node.clock + 1)];
    forall l | l in ingests ensures IngestOk(env, grown.cas, ingests[l]) {
      assert l != k ==> IngestOk(env, grown.cas, grown.ingests[l]);
    }
    IngestsKeep(env, grown, ingests, node.clock + 1);
  }

  lemma PublishKeeps(env: Env, node: Node, k: nat)
    requires NodeInv(env, node) && k in node.ingests && node.ingests[k].Stamped?
    ensures NodeInv(env, PublishIngest(env, node, k))
  {
    var i := node.ingests[k];
    assert IngestOk(env, node.cas, i);
    var m := Version(env, i.file, i.content, i.ts);
    assert Genuine(env, m);
    var node' := PublishIngest(env, node, k);
    forall l | l in node'.pulls ensures PullOk(env, node', node'.pulls[l]) {
      assert PullOk(env, node, node.pulls[l]);
    }
    forall f | f in node'.pristine ensures OnDisk(node', f) {
      assert OnDisk(node, f);
    }
  }

  /** A pull whose file is edited only loses its claim on the content. */
  lemma SoilOk(env: Env, node: Node, file: string, content: Bytes, pull: Pull)
    requires PullOk(env, node, pull)
    ensures PullOk(env, UserWrites(node, file, content), Soil(pull, file))
  {
  }

  lemma UserKeeps(env: Env, node: Node, file: string, content: Bytes)
    requires NodeInv(env, node)
    ensures NodeInv(env, UserWrites(node, file, content))
  {
    var node' := UserWrites(node, file, content);
    SameFlight(node, node');
    forall l | l in node'.pulls ensures PullOk(env, node', node'.pulls[l]) {
      assert PullOk(env, node, node.pulls[l]);
      SoilOk(env, node, file, content, node.pulls[l]);
    }
    forall f | f in node'.pristine ensures OnDisk(node', f) {
      assert OnDisk(node, f);
    }
  }

  lemma RestartKeeps(env: Env, node: Node)
    requires NodeInv(env, node)
    ensures NodeInv(env, Restarted(node))
  {
    var node' := Restarted(node);
    forall f | f in node'.pristine ensures OnDisk(node', f) {
      assert OnDisk(node, f);
    }
  }

  // ---- Every step ----

  lemma BeginKeeps(env: Env, node: Node, k: nat, file: string)
    requires NodeInv(env, node) && file in node.disk && InWorld(env, node.disk[file])
    ensures NodeInv(env, BeginIngest(node, k, file))
  {
    IngestsKeep(env, node, node.ingests[k := Read(file, node.disk[file])], node.clock);
  }

  lemma CompareKeeps(env: Env, node: Node, k: nat)
    requires NodeInv(env, node) && k in node.ingests
    ensures NodeInv(env, CompareIngest(env, node, k))
  {
    var i := node.ingests[k];
    assert IngestOk(env, node.cas, i);
    IngestsKeep(env, node, node.ingests - {k}, node.clock);
    IngestsKeep(env, node, node.ingests[k := Differs(i.file, i.content)], node.clock);
  }

  /** A delivery starts a pull, moves the clock, both or neither. */
  lemma DeliverIs(env: Env, name: string, node: Node, hint: Hint, k: nat, peers: seq<string>)
    requires Enabled(env, name, node, Deliver(hint, k, peers))
    ensures var heard, after := Observe(node, hint.ts), After(env, name, node, Deliver(hint, k, peers));
      after == Trigger(heard, hint.file, k, peers) || after == heard || after == node
  {
  }

  lemma DeliverKeeps(env: Env, name: string, node: Node, hint: Hint, k: nat, peers: seq<string>)
    requires NodeInv(env, node) && k !in node.pulls
    ensures NodeInv(env, HandleAnnouncement(name, node, hint, k, peers))
    ensures NodeInv(env, ReconcileEntry(name, node, hint, k, peers))
  {
    ClockKeeps(env, node, hint.ts);
    TriggerKeeps(env, Observe(node, hint.ts), hint.file, k, peers);
  }

  /** What the action learned from elsewhere is in order: metadata is of this file and genuine, bytes with the
      right hash are of this world. */
  ghost predicate Sincere(env: Env, node: Node, a: Action) {
    match a
    case IngestBegin(_, file) => file in node.disk ==> InWorld(env, node.disk[file])
    case PullMeta(k, remote) => k in node.pulls ==> remote.fileId == node.pulls[k].file && Genuine(env, remote)
    case WorkerDone(k, w, data, _) =>
      AtWork(node, k, w) && env.sha(data) == node.pulls[k].phase.missing[w] ==> env.world(data)
    case _ => true
  }

  lemma PhaseOk(env: Env, name: string, node: Node, a: Action)
    requires PhaseOnly(a) && Enabled(env, name, node, a) && PullOk(env, node, node.pulls[a.k]) && Sincere(env, node, a)
    requires MetaOk(env, node)
    ensures PullOk(env, node, node.pulls[a.k].(phase := NextPhase(env, name, node, a)))
  {
    var file := node.pulls[a.k].file;
    assert file in node.meta ==> Stored(env, node.cas, file, node.meta[file]);
  }

  lemma PhaseStep(env: Env, name: string, node: Node, a: Action)
    requires NodeInv(env, node) && Enabled(env, name, node, a) && PhaseOnly(a) && Sincere(env, node, a)
    ensures NodeInv(env, After(env, name, node, a))
  {
    assert PullOk(env, node, node.pulls[a.k]);
    PhaseOk(env, name, node, a);
    Moved(env, node, a.k, NextPhase(env, name, node, a));
  }

  /** Every action of one node keeps its invariant. */
  lemma NodeStepKeeps(env: Env, name: string, node: Node, a: Action)
    requires NodeInv(env, node) && Enabled(env, name, node, a) && Sincere(env, node, a)
    ensures NodeInv(env, After(env, name, node, a))
  {
    if PhaseOnly(a) {
      PhaseStep(env, name, node, a);
    } else {
      match a
      case UserWrite(file, content) => UserKeeps(env, node, file, content);
      case IngestBegin(k, file) => BeginKeeps(env, node, k, file);
      case IngestCompare(k) => CompareKeeps(env, node, k);
      case IngestStamp(k) => StampKeeps(env, node, k);
      case IngestPublish(k) => PublishKeeps(env, node, k);
      case Deliver(hint, k, peers) => DeliverKeeps(env, name, node, hint, k, peers);
      case ManualSync(file, k, peers) => TriggerKeeps(env, node, file, k, peers);
      case WorkerDone(k, w, data, ioOk) => WorkerKeeps(env, node, k, w, data, ioOk);
      case PullAssemble(k) => AssembleKeeps(env, node, k);
      case PullWrite(k) => WriteKeeps(env, node, k);
      case PullBroken(k, damage) => BrokenKeeps(env, node, k, Remains(node, k, damage));
      case PullCommit(k) => CommitKeeps(env, node, k);
      case PullRelease(k) => ReleaseKeeps(env, node, k);
      case Restart => RestartKeeps(env, node);
      case _ =>
    }
  }

  /** What a pull learns from a peer is genuine because the peer's own metadata is. */
  lemma AnsweredIsSincere(env: Env, c: Cluster, name: string, a: Action)
    requires ClusterInv(env, c) && Possible(env, c, name, a)
    ensures Sincere(env, c.nodes[name], a)
  {
    if a.PullMeta? {
      var p := c.nodes[name].pulls[a.k];
      var peer := c.nodes[p.peers[p.phase.next]];
      assert NodeInv(env, peer) && Stored(env, peer.cas, p.file, peer.meta[p.file]);
    }
  }

  lemma StepKeepsInv(env: Env, c: Cluster, name: string, a: Action)
    requires ClusterInv(env, c) && Possible(env, c, name, a)
    ensures ClusterInv(env, Step(env, c, name, a))
  {
    AnsweredIsSincere(env, c, name, a);
    assert NodeInv(env, c.nodes[name]);
    NodeStepKeeps(env, name, c.nodes[name], a);
  }

  lemma InitInv(env: Env, c: Cluster)
    requires Init(c)
    ensures ClusterInv(env, c)
  {
    forall n | n in c.nodes ensures NodeInv(env, c.nodes[n]) {
      assert EmptyNode(c.nodes[n]);
    }
  }

  lemma {:induction false} RunInv(env: Env, states: seq<Cluster>, events: seq<Event>, i: nat)
    requires Run(env, states, events) && i < |states|
    ensures ClusterInv(env, states[i])
  {
    if i == 0 {
      InitInv(env, states[0]);
    } else {
      RunInv(env, states, events, i - 1);
      assert Taken(env, states, events, i - 1);
      StepKeepsInv(env, states[i - 1], events[i - 1].name, events[i - 1].action);
    }
  }
}
