/** Safety over whole runs of the protocol. */
module Safety {
  import opened Base
  import opened Merkle
  import opened Assembler
  import opened Protocol
  import opened Integrity

  /** Without hash collisions, the blobs a node holds for genuine metadata are the chunks of the content
      the metadata was made from. */
  lemma GenuineContent(env: Env, cas: map<Hash, Bytes>, m: FileMeta) returns (content: Bytes)
    requires ValidEnv(env) && NoCollisions(env) && BlobsOk(env, cas)
    requires Genuine(env, m) && Holds(cas, m.chunkHashes)
    ensures m == Version(env, m.fileId, content, m.lamportTs)
    ensures Concat(Blobs(cas, m.chunkHashes)) == content && |content| == m.sizeBytes
  {
    content :| InWorld(env, content) && m == Version(env, m.fileId, content, m.lamportTs);
    var parts, blobs := env.split(content), Blobs(cas, m.chunkHashes);
    forall i | 0 <= i < |parts| ensures blobs[i] == parts[i] {
      assert parts[i] in parts;
      assert m.chunkHashes[i] in m.chunkHashes;
      assert env.sha(blobs[i]) == m.chunkHashes[i] == env.sha(parts[i]);
    }
    assert blobs == parts;
  }

  /** Cluster integrity: in every reachable state of every run, all metadata a node has stored names only
      blobs the node holds, every blob hashes to its name, the root is the root of the chunk list, and
      (collisions aside) the size is the length of the blobs together. */
  lemma ClusterIntegrity(env: Env, states: seq<Cluster>, events: seq<Event>, i: nat, n: string, f: string)
    requires Run(env, states, events) && i < |states|
    requires n in states[i].nodes && f in states[i].nodes[n].meta
    ensures var node := states[i].nodes[n];
      var m := node.meta[f];
      && m.fileId == f
      && Holds(node.cas, m.chunkHashes)
      && (forall h | h in node.cas :: env.sha(node.cas[h]) == h)
      && m.merkleRoot == Root(env.sha, m.chunkHashes)
      && (ValidEnv(env) && NoCollisions(env) ==> m.sizeBytes == |Concat(Blobs(node.cas, m.chunkHashes))|)
  {
    RunInv(env, states, events, i);
    var node := states[i].nodes[n];
    assert NodeInv(env, node) && Stored(env, node.cas, f, node.meta[f]);
    if ValidEnv(env) && NoCollisions(env) {
      var _ := GenuineContent(env, node.cas, node.meta[f]);
    }
  }

  /** Single flight: in every reachable state a file is in `syncing` exactly while one pull of it is
      claimed or running. */
  lemma AtMostOnePull(env: Env, states: seq<Cluster>, events: seq<Event>, i: nat, n: string, f: string)
    requires Run(env, states, events) && i < |states| && n in states[i].nodes
    ensures var node := states[i].nodes[n];
      && (f in node.syncing <==> exists k :: k in node.pulls && node.pulls[k].file == f)
      && (forall k, l | k in node.pulls && l in node.pulls && node.pulls[k].file == f == node.pulls[l].file :: k == l)
  {
    RunInv(env, states, events, i);
    assert NodeInv(env, states[i].nodes[n]);
  }

  /** A commit stores the peer's metadata, and, if nobody edited the file while it was assembled, leaves on
      disk exactly the content that metadata was made from. */
  lemma CommitLeavesContent(env: Env, states: seq<Cluster>, events: seq<Event>, i: nat, k: nat) returns (content: Bytes)
    requires Run(env, states, events) && i < |events| && events[i].action == PullCommit(k)
    requires ValidEnv(env) && NoCollisions(env)
    ensures var n := events[i].name;
      && n in states[i].nodes && CanCommit(states[i].nodes[n], k) && n in states[i + 1].nodes
      && var pull, after := states[i].nodes[n].pulls[k], states[i + 1].nodes[n];
        && after.meta == states[i].nodes[n].meta[pull.file := pull.phase.remote]
        && pull.phase.remote == Version(env, pull.file, content, pull.phase.remote.lamportTs)
        && (pull.phase.clean ==>
              pull.file in after.disk && after.disk[pull.file] == content && |content| == pull.phase.remote.sizeBytes)
  {
    RunInv(env, states, events, i);
    var n := events[i].name;
    assert Taken(env, states, events, i);
    assert states[i + 1].nodes[n] == Commit(states[i].nodes[n], k);
    assert NodeInv(env, states[i].nodes[n]);
    content := CommittedContent(env, states[i].nodes[n], k);
  }

  lemma CommittedContent(env: Env, before: Node, k: nat) returns (content: Bytes)
    requires ValidEnv(env) && NoCollisions(env) && NodeInv(env, before) && CanCommit(before, k)
    ensures var pull, after := before.pulls[k], Commit(before, k);
      && pull.phase.remote.fileId == pull.file
      && pull.phase.remote == Version(env, pull.file, content, pull.phase.remote.lamportTs)
      && (pull.phase.clean ==>
            pull.file in after.disk && after.disk[pull.file] == content && |content| == pull.phase.remote.sizeBytes)
  {
    var after, file := Commit(before, k), before.pulls[k].file;
    assert PullOk(env, before, before.pulls[k]);
    CommitKeeps(env, before, k);
    assert Stored(env, after.cas, file, after.meta[file]);
    content := GenuineContent(env, after.cas, after.meta[file]);
    if before.pulls[k].phase.clean {
      assert OnDisk(after, file);
    }
  }

  lemma PristineIndexed(env: Env, node: Node, f: string)
    requires ValidEnv(env) && NoCollisions(env) && NodeInv(env, node) && f in node.pristine
    ensures f in node.disk && Indexed(env, node, f, node.disk[f])
  {
    assert OnDisk(node, f) && Stored(env, node.cas, f, node.meta[f]);
    var content := GenuineContent(env, node.cas, node.meta[f]);
    assert node.disk[f] == content;
  }

  /** In every reachable state a file that is as a pull left it re-chunks to the indexed root. */
  lemma NoEcho(env: Env, states: seq<Cluster>, events: seq<Event>, i: nat, n: string, f: string)
    requires Run(env, states, events) && i < |states| && n in states[i].nodes
    requires ValidEnv(env) && NoCollisions(env) && f in states[i].nodes[n].pristine
    ensures var node := states[i].nodes[n]; f in node.disk && Indexed(env, node, f, node.disk[f])
  {
    RunInv(env, states, events, i);
    assert NodeInv(env, states[i].nodes[n]);
    PristineIndexed(env, states[i].nodes[n], f);
  }

  // ---- Versions ----

  /** The metadata a running pull has captured from a peer and may still store. */
  function Captured(phase: Phase): Option<FileMeta> {
    match phase
    case Planned(remote, _) => Some(remote)
    case Fetching(remote, _, _) => Some(remote)
    case Assembling(remote, _, _, _) => Some(remote)
    case Committed(remote) => Some(remote)
    case _ => None
  }

  ghost predicate NodeHas(node: Node, f: string, v: FileMeta) {
    (f in node.meta && node.meta[f] == v) ||
    exists k :: k in node.pulls && node.pulls[k].file == f && Captured(node.pulls[k].phase) == Some(v)
  }

  /** The version is stored somewhere or captured by a running pull. */
  ghost predicate Present(c: Cluster, f: string, v: FileMeta) {
    exists n :: n in c.nodes && NodeHas(c.nodes[n], f, v)
  }

  /** The action publishes a change of this file. */
  ghost predicate PublishesFile(node: Node, a: Action, f: string) {
    a.IngestPublish? && a.k in node.ingests && node.ingests[a.k].file == f
  }

  lemma NothingPresent(c: Cluster, f: string, v: FileMeta)
    requires Init(c)
    ensures !Present(c, f, v)
  {
    forall n | n in c.nodes ensures !NodeHas(c.nodes[n], f, v) {
      assert EmptyNode(c.nodes[n]);
    }
  }

  /** One node's step brings in no version of the file that was not there, unless it publishes one. */
  lemma StepInventsNothing(env: Env, c: Cluster, name: string, a: Action, f: string, v: FileMeta)
    requires ClusterInv(env, c) && Possible(env, c, name, a) && !PublishesFile(c.nodes[name], a, f)
    requires Present(Step(env, c, name, a), f, v)
    ensures Present(c, f, v)
  {
    var node, node' := c.nodes[name], After(env, name, c.nodes[name], a);
    var n :| n in Step(env, c, name, a).nodes && NodeHas(Step(env, c, name, a).nodes[n], f, v);
    if n != name {
      assert NodeHas(c.nodes[n], f, v);
    } else {
      NodeStepInventsNothing(env, c, name, a, f, v);
    }
  }

  lemma NodeStepInventsNothing(env: Env, c: Cluster, name: string, a: Action, f: string, v: FileMeta)
    requires ClusterInv(env, c) && Possible(env, c, name, a) && !PublishesFile(c.nodes[name], a, f)
    requires NodeHas(After(env, name, c.nodes[name], a), f, v)
    ensures Present(c, f, v)
  {
    var node, node' := c.nodes[name], After(env, name, c.nodes[name], a);
    assert NodeInv(env, node);
    if !NodeHas(node, f, v) {
      if f in node'.meta && node'.meta[f] == v {
        MetaComesFromPull(env, name, node, a, f, v);
      } else {
        var k :| k in node'.pulls && node'.pulls[k].file == f && Captured(node'.pulls[k].phase) == Some(v);
        CaptureComesFromPeer(env, c, name, a, k, v);
        var p := node.pulls[k];
        assert NodeHas(c.nodes[p.peers[p.phase.next]], f, v);
      }
    }
  }

  /** Which actions change which part of the node. */
  ghost predicate Framed(node: Node, a: Action, after: Node) {
    && (a.IngestPublish? || a.PullCommit? || after.meta == node.meta)
    && (a.UserWrite? || Rewrites(a) || after.disk == node.disk)
    && (Changing(a) || a.Restart? || after.ingests == node.ingests)
    && (a.UserWrite? || a.IngestPublish? || a.PullCommit? || Rewrites(a) || after.pristine == node.pristine)
    && (a.IngestStamp? || a.WorkerDone? || after.cas == node.cas)
  }

  /** The pull writes to the file. */
  predicate Rewrites(a: Action) {
    a.PullAssemble? || a.PullWrite? || a.PullBroken?
  }

  /** A step of a file change. */
  predicate Changing(a: Action) {
    a.IngestBegin? || a.IngestCompare? || a.IngestStamp? || a.IngestPublish?
  }

  lemma Frame(env: Env, name: string, node: Node, a: Action)
    requires Enabled(env, name, node, a)
    ensures Framed(node, a, After(env, name, node, a))
  {
    if PhaseOnly(a) {
      assert After(env, name, node, a) == Move(node, a.k, NextPhase(env, name, node, a));
    } else if Changing(a) {
      ChangeFrame(env, name, node, a);
    } else if Rewrites(a) || a.WorkerDone? || a.PullCommit? {
      WorkFrame(env, name, node, a);
    } else if a.Deliver? {
      DeliverFrame(env, name, node, a.hint, a.k, a.peers);
    } else {
      RestFrame(env, name, node, a);
    }
  }

  lemma ChangeFrame(env: Env, name: string, node: Node, a: Action)
    requires Enabled(env, name, node, a) && Changing(a)
    ensures Framed(node, a, After(env, name, node, a))
  {
  }

  lemma WorkFrame(env: Env, name: string, node: Node, a: Action)
    requires Enabled(env, name, node, a) && (Rewrites(a) || a.WorkerDone? || a.PullCommit?)
    ensures Framed(node, a, After(env, name, node, a))
  {
  }

  lemma DeliverFrame(env: Env, name: string, node: Node, hint: Hint, k: nat, peers: seq<string>)
    requires Enabled(env, name, node, Deliver(hint, k, peers))
    ensures Framed(node, Deliver(hint, k, peers), After(env, name, node, Deliver(hint, k, peers)))
  {
    var heard := Observe(node, hint.ts);
    DeliverIs(env, name, node, hint, k, peers);
    OnlyMemory(heard, Trigger(heard, hint.file, k, peers));
    OnlyMemory(node, heard);
  }

  lemma OnlyMemory(node: Node, after: Node)
    requires after == node.(syncing := after.syncing, pulls := after.pulls, clock := after.clock)
    ensures after.meta == node.meta && after.disk == node.disk && after.ingests == node.ingests
    ensures after.pristine == node.pristine && after.cas == node.cas
  {
  }

  lemma RestFrame(env: Env, name: string, node: Node, a: Action)
    requires Enabled(env, name, node, a)
    requires a.UserWrite? || a.ManualSync? || a.ServeEntry? || a.PullRelease? || a.Restart?
    ensures Framed(node, a, After(env, name, node, a))
  {
  }

  /** The action stores a version of the file. */
  ghost predicate StoresFile(node: Node, a: Action, f: string) {
    match a
    case IngestPublish(g) => g in node.ingests && node.ingests[g].Stamped? && node.ingests[g].file == f
    case PullCommit(k) => CanCommit(node, k) && node.pulls[k].file == f
    case _ => false
  }

  /** The version it stores. */
  ghost function NewVersion(env: Env, node: Node, a: Action, f: string): FileMeta
    requires StoresFile(node, a, f)
  {
    match a
    case IngestPublish(g) => Version(env, f, node.ingests[g].content, node.ingests[g].ts)
    case PullCommit(k) => node.pulls[k].phase.remote
  }

  /** Nothing else changes what the node has of the file. */
  lemma StoreFrame(env: Env, name: string, node: Node, a: Action, f: string)
    requires NodeInv(env, node) && Enabled(env, name, node, a)
    ensures Local(After(env, name, node, a), f) ==
      if StoresFile(node, a, f) then Some(NewVersion(env, node, a, f)) else Local(node, f)
  {
    if a.PullCommit? {
      CommitFrame(env, name, node, a.k, f);
    } else if a.IngestPublish? {
      PublishFrame(env, name, node, a.k, f);
    } else {
      Frame(env, name, node, a);
    }
  }

  lemma CommitFrame(env: Env, name: string, node: Node, k: nat, f: string)
    requires PullsOk(env, node) && Enabled(env, name, node, PullCommit(k))
    ensures Local(After(env, name, node, PullCommit(k)), f) ==
      if node.pulls[k].file == f then Some(node.pulls[k].phase.remote) else Local(node, f)
  {
    assert PullOk(env, node, node.pulls[k]);
    assert After(env, name, node, PullCommit(k)) == Commit(node, k);
  }

  lemma PublishFrame(env: Env, name: string, node: Node, g: nat, f: string)
    requires Enabled(env, name, node, IngestPublish(g))
    ensures Local(After(env, name, node, IngestPublish(g)), f) ==
      if node.ingests[g].file == f then Some(Version(env, f, node.ingests[g].content, node.ingests[g].ts))
      else Local(node, f)
  {
    assert After(env, name, node, IngestPublish(g)) == PublishIngest(env, node, g);
  }

  lemma MetaComesFromPull(env: Env, name: string, node: Node, a: Action, f: string, v: FileMeta)
    requires NodeInv(env, node) && Enabled(env, name, node, a) && !PublishesFile(node, a, f)
    requires Local(After(env, name, node, a), f) == Some(v)
    ensures NodeHas(node, f, v)
  {
    StoreFrame(env, name, node, a, f);
    if StoresFile(node, a, f) {
      assert Captured(node.pulls[a.k].phase) == Some(v);
    }
  }

  /** If pull k has captured a version, it had captured it before. */
  ghost predicate CaptureKept(before: map<nat, Pull>, after: map<nat, Pull>, k: nat) {
    k in after && Captured(after[k].phase).Some? ==>
      k in before && before[k].file == after[k].file && Captured(before[k].phase) == Captured(after[k].phase)
  }

  lemma PhaseKept(node: Node, l: nat, phase: Phase, k: nat)
    requires l in node.pulls && (Captured(phase).Some? ==> Captured(node.pulls[l].phase) == Captured(phase))
    ensures CaptureKept(node.pulls, node.pulls[l := node.pulls[l].(phase := phase)], k)
  {
  }

  lemma TriggerKept(node: Node, file: string, l: nat, peers: seq<string>, k: nat)
    requires l !in node.pulls
    ensures CaptureKept(node.pulls, Trigger(node, file, l, peers).pulls, k)
  {
  }

  lemma DeliverKept(env: Env, name: string, node: Node, hint: Hint, l: nat, peers: seq<string>, k: nat)
    requires Enabled(env, name, node, Deliver(hint, l, peers))
    ensures CaptureKept(node.pulls, After(env, name, node, Deliver(hint, l, peers)).pulls, k)
  {
    DeliverIs(env, name, node, hint, l, peers);
    TriggerKept(Observe(node, hint.ts), hint.file, l, peers, k);
  }

  /** Fetching metadata is the only step after which a pull has captured a version it had not. */
  lemma CaptureFrame(env: Env, name: string, node: Node, a: Action, k: nat)
    requires Enabled(env, name, node, a) && !(a.PullMeta? && a.k == k)
    ensures CaptureKept(node.pulls, After(env, name, node, a).pulls, k)
  {
    if PhaseOnly(a) {
      PhaseOnlyKept(env, name, node, a, k);
    } else {
      match a
      case Deliver(hint, l, peers) => DeliverKept(env, name, node, hint, l, peers, k);
      case ManualSync(file, l, peers) => TriggerKept(node, file, l, peers, k);
      case WorkerDone(_, _, _, _) => WorkKept(env, name, node, a, k);
      case PullAssemble(_) => WorkKept(env, name, node, a, k);
      case PullWrite(_) => WorkKept(env, name, node, a, k);
      case PullBroken(_, _) => WorkKept(env, name, node, a, k);
      case PullCommit(_) => WorkKept(env, name, node, a, k);
      case _ =>
    }
  }

  lemma PhaseOnlyKept(env: Env, name: string, node: Node, a: Action, k: nat)
    requires Enabled(env, name, node, a) && PhaseOnly(a) && !(a.PullMeta? && a.k == k)
    ensures CaptureKept(node.pulls, After(env, name, node, a).pulls, k)
  {
    assert After(env, name, node, a) == Move(node, a.k, NextPhase(env, name, node, a));
    if a.k == k && Captured(NextPhase(env, name, node, a)).Some? {
      PhaseCapture(env, name, node, a);
    }
  }

  lemma WorkKept(env: Env, name: string, node: Node, a: Action, k: nat)
    requires Enabled(env, name, node, a)
    requires a.WorkerDone? || a.PullAssemble? || a.PullWrite? || a.PullBroken? || a.PullCommit?
    ensures CaptureKept(node.pulls, After(env, name, node, a).pulls, k)
  {
    var phase := After(env, name, node, a).pulls[a.k].phase;
    PhaseKept(node, a.k, phase, k);
  }

  lemma PhaseCapture(env: Env, name: string, node: Node, a: Action)
    requires PhaseOnly(a) && Enabled(env, name, node, a) && !a.PullMeta?
    requires Captured(NextPhase(env, name, node, a)).Some?
    ensures Captured(node.pulls[a.k].phase) == Captured(NextPhase(env, name, node, a))
  {
  }

  /** A pull captures a version only by fetching it from the peer it is asking. */
  lemma CaptureComesFromPeer(env: Env, c: Cluster, name: string, a: Action, k: nat, v: FileMeta)
    requires Possible(env, c, name, a)
    requires var node' := After(env, name, c.nodes[name], a);
      k in node'.pulls && Captured(node'.pulls[k].phase) == Some(v)
    ensures var node := c.nodes[name];
      && k in node.pulls && node.pulls[k].file == After(env, name, node, a).pulls[k].file
      && (Captured(node.pulls[k].phase) == Some(v) ||
          (var p := node.pulls[k];
           && p.phase.Diffed? && p.phase.next < |p.peers| && p.peers[p.phase.next] in c.nodes
           && p.file in c.nodes[p.peers[p.phase.next]].meta && c.nodes[p.peers[p.phase.next]].meta[p.file] == v))
  {
    if !(a.PullMeta? && a.k == k) {
      CaptureFrame(env, name, c.nodes[name], a, k);
    }
  }

  /** Event t publishes a change of the file. */
  ghost predicate Publishes(states: seq<Cluster>, events: seq<Event>, f: string, t: nat)
    requires |states| == |events| + 1 && t < |events|
  {
    events[t].name in states[t].nodes && PublishesFile(states[t].nodes[events[t].name], events[t].action, f)
  }

  ghost predicate NoPublish(states: seq<Cluster>, events: seq<Event>, f: string, from: nat, upto: nat)
    requires |states| == |events| + 1 && upto <= |events|
  {
    forall t | from <= t < upto :: !Publishes(states, events, f, t)
  }

  lemma RunStepInventsNothing(env: Env, states: seq<Cluster>, events: seq<Event>, i: nat, f: string, v: FileMeta)
    requires Run(env, states, events) && i < |events| && !Publishes(states, events, f, i)
    requires Present(states[i + 1], f, v)
    ensures Present(states[i], f, v)
  {
    RunInv(env, states, events, i);
    assert Taken(env, states, events, i);
    StepInventsNothing(env, states[i], events[i].name, events[i].action, f, v);
  }

  /** Over any stretch of a run without publications of a file, no version of it appears that was not present. */
  lemma {:induction false} NoVersionInvented(env: Env, states: seq<Cluster>, events: seq<Event>, i: nat, j: nat,
                                             f: string, v: FileMeta)
    requires Run(env, states, events) && i <= j < |states| && NoPublish(states, events, f, i, j)
    requires Present(states[j], f, v)
    ensures Present(states[i], f, v)
    decreases j
  {
    if i < j {
      RunStepInventsNothing(env, states, events, j - 1, f, v);
      NoVersionInvented(env, states, events, i, j - 1, f, v);
    }
  }

  /** Agreement is absorbing: once a single version is left, no stale hint, reconciliation or choice of
      peers brings in another, so every node that stores the file afterwards stores that version. */
  lemma AgreementStays(env: Env, states: seq<Cluster>, events: seq<Event>, i: nat, j: nat, f: string, v: FileMeta)
    requires Run(env, states, events) && i <= j < |states| && NoPublish(states, events, f, i, j)
    requires forall w | Present(states[i], f, w) :: w == v
    ensures forall n | n in states[j].nodes && f in states[j].nodes[n].meta :: states[j].nodes[n].meta[f] == v
  {
    forall n | n in states[j].nodes && f in states[j].nodes[n].meta ensures states[j].nodes[n].meta[f] == v {
      var w := states[j].nodes[n].meta[f];
      assert NodeHas(states[j].nodes[n], f, w);
      NoVersionInvented(env, states, events, i, j, f, w);
    }
  }
}
