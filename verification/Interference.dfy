/** A pull among everything else that goes on: other nodes act, the user writes, other pulls and file changes run on
    the same node. As long as its own calls do not fail, its node does not restart, and the peer it asks has one
    version at the diff and at the metadata, the pull is never stuck, takes no more steps than if it were alone, and
    stores that version. */
module Interference {
  import opened Base
  import opened Store
  import opened Protocol
  import opened Integrity
  import opened Safety
  import opened Progress
  import opened History
  import opened Timestamps

  /** What the course says about the pull is what happens: it reads this metadata, passes over the peers before
      number q, and peer q has this version at the diff and at the metadata. */
  ghost predicate Agrees(c: Cluster, node: Node, g: Course, a: Action) {
    match a
    case PullLocal(k) => k in node.pulls ==> Local(node, node.pulls[k].file) == g.local
    case PullSkip(k) => Asking(node, k) ==> node.pulls[k].phase.next < g.q
    case PullDiff(k, _, _) =>
      Asking(node, k) ==>
        var peer := node.pulls[k].peers[node.pulls[k].phase.next];
        && node.pulls[k].phase.next == g.q
        && peer in c.nodes && node.pulls[k].file in c.nodes[peer].meta
        && c.nodes[peer].meta[node.pulls[k].file] == g.remote
    case PullMeta(_, remote) => remote == g.remote
    case _ => true
  }

  // ---- The others ----

  /** Blobs, index entries and files are never taken away. */
  ghost predicate Grown(node: Node, node': Node) {
    Extends(node.cas, node'.cas) && node.meta.Keys <= node'.meta.Keys && node.disk.Keys <= node'.disk.Keys
  }

  lemma NodeGrows(env: Env, name: string, node: Node, a: Action)
    requires Enabled(env, name, node, a) && BlobsOk(env, node.cas)
    ensures Grown(node, After(env, name, node, a))
  {
    Frame(env, name, node, a);
    if a.IngestStamp? {
      PutAllStores(env.sha, node.cas, env.split(node.ingests[a.k].content));
      assert After(env, name, node, a) == StampIngest(env, node, a.k);
    } else if a.UserWrite? || Rewrites(a) {
      WritingGrows(env, name, node, a);
    } else if a.WorkerDone? || a.PullCommit? || a.IngestPublish? {
      StoringGrows(env, name, node, a);
    }
  }

  lemma WritingGrows(env: Env, name: string, node: Node, a: Action)
    requires Enabled(env, name, node, a) && (a.UserWrite? || Rewrites(a))
    ensures Grown(node, After(env, name, node, a))
  {
  }

  lemma StoringGrows(env: Env, name: string, node: Node, a: Action)
    requires Enabled(env, name, node, a) && (a.WorkerDone? || a.PullCommit? || a.IngestPublish?)
    ensures Grown(node, After(env, name, node, a))
  {
  }

  lemma StepGrows(env: Env, c: Cluster, name: string, a: Action, n: string)
    requires ClusterInv(env, c) && Possible(env, c, name, a) && n in c.nodes
    ensures n in Protocol.Step(env, c, name, a).nodes && Grown(c.nodes[n], Protocol.Step(env, c, name, a).nodes[n])
  {
    assert NodeInv(env, c.nodes[name]);
    NodeGrows(env, name, c.nodes[name], a);
  }

  lemma StillBacked(c: Cluster, c': Cluster, g: Course)
    requires g.k in g.base.pulls && g.q < |g.base.pulls[g.k].peers| && Backed(c, g)
    requires var peer := g.base.pulls[g.k].peers[g.q]; peer in c'.nodes && Grown(c.nodes[peer], c'.nodes[peer])
    ensures Backed(c', g)
  {
    var peer := g.base.pulls[g.k].peers[g.q];
    StillHolds(c.nodes[peer].cas, c'.nodes[peer].cas, g.remote.chunkHashes);
  }

  /** A pull is taken away only by its own release or by a restart. */
  lemma PullStays(env: Env, name: string, node: Node, a: Action, k: nat)
    requires Enabled(env, name, node, a) && k in node.pulls && !(a.PullRelease? && a.k == k) && !a.Restart?
    ensures k in After(env, name, node, a).pulls
  {
    var after := After(env, name, node, a);
    if PhaseOnly(a) {
      assert after == Move(node, a.k, NextPhase(env, name, node, a));
    } else if a.WorkerDone? {
      assert after == StoreFetched(env, node, a.k, a.w, a.data, a.ioOk);
    }
  }

  /** With more blobs and files, and perhaps an edit, the pull is where it was. */
  lemma AliveGrows(g: Course, node: Node, node': Node)
    requires Alive(g, node) && Grown(node, node') && g.k in node'.pulls
    requires node'.pulls[g.k] == node.pulls[g.k] || exists f :: node'.pulls[g.k] == Soil(node.pulls[g.k], f)
    ensures Alive(g, node') && Left(g, node'.pulls[g.k].phase) == Left(g, node.pulls[g.k].phase)
    ensures NeedsPeer(node'.pulls[g.k].phase) <==> NeedsPeer(node.pulls[g.k].phase)
  {
    var p := node.pulls[g.k].phase;
    if p.Assembling? {
      StillHolds(node.cas, node'.cas, g.remote.chunkHashes);
    } else if p.Fetching? {
      StillHolds(node.cas, node'.cas, Known(g.local));
      assert WorkersOk(g, p.missing, p.workers, node'.cas);
    } else if p.Querying? || p.Diffed? || p.Planned? {
      StillHolds(node.cas, node'.cas, Known(g.local));
    }
  }

  lemma OthersKeepAlive(env: Env, name: string, node: Node, a: Action, g: Course)
    requires Alive(g, node) && Enabled(env, name, node, a) && BlobsOk(env, node.cas) && !OwnAction(a, g.k)
    requires !a.Restart?
    ensures var after := After(env, name, node, a);
      && Alive(g, after) && Left(g, after.pulls[g.k].phase) == Left(g, node.pulls[g.k].phase)
      && (NeedsPeer(after.pulls[g.k].phase) <==> NeedsPeer(node.pulls[g.k].phase))
  {
    PullStays(env, name, node, a, g.k);
    OthersLeavePull(env, name, node, a, g.k);
    NodeGrows(env, name, node, a);
    AliveGrows(g, node, After(env, name, node, a));
  }

  /** Whatever anybody else does, the pull is where it was. */
  lemma OthersKeepGoing(env: Env, c: Cluster, i: string, g: Course, name: string, a: Action)
    requires Going(c, i, g) && ClusterInv(env, c) && Possible(env, c, name, a)
    requires !(name == i && (OwnAction(a, g.k) || a.Restart?))
    ensures var c' := Protocol.Step(env, c, name, a);
      Going(c', i, g) && Left(g, c'.nodes[i].pulls[g.k].phase) == Left(g, c.nodes[i].pulls[g.k].phase)
  {
    var c' := Protocol.Step(env, c, name, a);
    if name == i {
      assert NodeInv(env, c.nodes[i]);
      OthersKeepAlive(env, i, c.nodes[i], a, g);
    }
    if NeedsPeer(c.nodes[i].pulls[g.k].phase) {
      StepGrows(env, c, name, a, g.base.pulls[g.k].peers[g.q]);
      StillBacked(c, c', g);
    }
  }

  // ---- Its own steps ----

  ghost predicate Advanced(g: Course, node: Node, node': Node) {
    Alive(g, node) && Alive(g, node') && Left(g, node'.pulls[g.k].phase) == Left(g, node.pulls[g.k].phase) - 1
  }

  lemma ReadAdvances(env: Env, g: Course, node: Node)
    requires Alive(g, node) && node.pulls[g.k].phase.Claimed? && MetaOk(env, node) && Local(node, FileOf(g)) == g.local
    ensures Advanced(g, node, Move(node, g.k, Querying(g.local, 0)))
  {
    if g.local.Some? {
      assert Stored(env, node.cas, FileOf(g), node.meta[FileOf(g)]);
    }
  }

  lemma AskAdvances(env: Env, c: Cluster, i: string, g: Course, a: Action)
    requires Going(c, i, g) && Possible(env, c, i, a) && OwnAction(a, g.k) && Agrees(c, c.nodes[i], g, a)
    requires a.PullSkip? || a.PullDiff? || a.PullMeta?
    ensures Advanced(g, c.nodes[i], Move(c.nodes[i], g.k, NextPhase(env, i, c.nodes[i], a)))
  {
  }

  lemma BeginsFetching(g: Course, node: Node, order: seq<Hash>)
    requires Alive(g, node) && node.pulls[g.k].phase.Planned? && multiset(order) == multiset(Wanted(g))
    ensures Advanced(g, node, Move(node, g.k, Fetching(g.remote, order, seq(|order|, _ => Running))))
  {
    FreshWorkers(g, order, node.cas);
  }

  lemma FetchAdvances(env: Env, g: Course, node: Node, w: nat, data: Bytes)
    requires Alive(g, node) && AtWork(node, g.k, w) && env.sha(data) == node.pulls[g.k].phase.missing[w]
    ensures Advanced(g, node, StoreFetched(env, node, g.k, w, data, true))
  {
    var p := node.pulls[g.k].phase;
    var node' := StoreFetched(env, node, g.k, w, data, true);
    RunningUpdate(p.workers, w);
    StillHolds(node.cas, node'.cas, Known(g.local));
    assert WorkersOk(g, p.missing, p.workers[w := Finished], node'.cas);
  }

  lemma BeginsWriting(g: Course, node: Node)
    requires Alive(g, node) && Fetched(node, g.k)
    ensures Advanced(g, node, Rewrite(node, g.k, Zeros(g.remote.sizeBytes), Assembling(g.remote, 0, 0, true)))
  {
    var p := node.pulls[g.k].phase;
    AllHeld(g, p.missing, p.workers, node.cas);
    RunningNone(p.workers);
  }

  lemma WritesOn(g: Course, node: Node)
    requires Alive(g, node) && CanWrite(node, g.k)
    ensures Advanced(g, node, WriteNextChunk(node, g.k))
  {
  }

  lemma CommitsIt(g: Course, node: Node)
    requires Alive(g, node) && CanCommit(node, g.k)
    ensures Advanced(g, node, Commit(node, g.k))
  {
  }

  lemma Announces(g: Course, node: Node)
    requires Alive(g, node) && node.pulls[g.k].phase.Committed?
    ensures Advanced(g, node, Move(node, g.k, Returned))
  {
  }

  lemma PhaseGoesOn(env: Env, c: Cluster, i: string, g: Course, a: Action)
    requires Going(c, i, g) && Faultless(env, c, i, g.k, a) && Agrees(c, c.nodes[i], g, a) && MetaOk(env, c.nodes[i])
    requires a.PullLocal? || a.PullStart? || a.PullAnnounce?
    ensures Advanced(g, c.nodes[i], Move(c.nodes[i], g.k, NextPhase(env, i, c.nodes[i], a)))
  {
    var node := c.nodes[i];
    if a.PullLocal? {
      ReadAdvances(env, g, node);
    } else if a.PullStart? {
      BeginsFetching(g, node, a.order);
    } else {
      Announces(g, node);
    }
  }

  lemma WorkingOn(env: Env, i: string, g: Course, node: Node, a: Action)
    requires Alive(g, node) && Enabled(env, i, node, a) && OwnAction(a, g.k)
    requires a.PullAssemble? || a.PullWrite? || a.PullCommit? ||
             (a.WorkerDone? && a.ioOk && env.sha(a.data) == node.pulls[g.k].phase.missing[a.w])
    ensures Advanced(g, node, After(env, i, node, a))
  {
    match a
    case WorkerDone(_, w, data, _) => FetchAdvances(env, g, node, w, data);
    case PullAssemble(_) => BeginsWriting(g, node);
    case PullWrite(_) => WritesOn(g, node);
    case PullCommit(_) => CommitsIt(g, node);
  }

  lemma OwnAdvances(env: Env, c: Cluster, i: string, g: Course, a: Action)
    requires Going(c, i, g) && MetaOk(env, c.nodes[i]) && Faultless(env, c, i, g.k, a) && Agrees(c, c.nodes[i], g, a)
    requires !a.PullRelease?
    ensures Advanced(g, c.nodes[i], After(env, i, c.nodes[i], a))
  {
    OnlyForward(env, c, i, g, a);
    if a.PullSkip? || a.PullDiff? || a.PullMeta? {
      AskAdvances(env, c, i, g, a);
    } else if a.PullLocal? || a.PullStart? || a.PullAnnounce? {
      PhaseGoesOn(env, c, i, g, a);
    } else {
      WorkingOn(env, i, g, c.nodes[i], a);
    }
  }

  /** Only the diff makes the pull depend on its peer, and at the diff the peer has the version and its chunks. */
  lemma BackedAtDiff(env: Env, c: Cluster, i: string, g: Course, a: Action)
    requires Going(c, i, g) && ClusterInv(env, c) && Faultless(env, c, i, g.k, a) && Agrees(c, c.nodes[i], g, a)
    requires !a.PullRelease? && NeedsPeer(After(env, i, c.nodes[i], a).pulls[g.k].phase)
    ensures Backed(c, g)
  {
    if a.PullDiff? {
      var peer := g.base.pulls[g.k].peers[g.q];
      assert NodeInv(env, c.nodes[peer]) && Stored(env, c.nodes[peer].cas, FileOf(g), c.nodes[peer].meta[FileOf(g)]);
    } else {
      NeedsPeerBefore(env, i, g, c.nodes[i], a);
    }
  }

  lemma NeedsPeerBefore(env: Env, i: string, g: Course, node: Node, a: Action)
    requires Alive(g, node) && Enabled(env, i, node, a) && OwnAction(a, g.k) && !a.PullDiff? && !a.PullRelease?
    requires g.k in After(env, i, node, a).pulls && NeedsPeer(After(env, i, node, a).pulls[g.k].phase)
    ensures NeedsPeer(node.pulls[g.k].phase)
  {
  }

  /** Every own step that is not the last brings the end one step nearer. */
  lemma OwnKeepsGoing(env: Env, c: Cluster, i: string, g: Course, a: Action)
    requires Going(c, i, g) && ClusterInv(env, c) && Faultless(env, c, i, g.k, a) && Agrees(c, c.nodes[i], g, a)
    requires !a.PullRelease?
    ensures var c' := Protocol.Step(env, c, i, a);
      Going(c', i, g) && Left(g, c'.nodes[i].pulls[g.k].phase) == Left(g, c.nodes[i].pulls[g.k].phase) - 1
  {
    assert NodeInv(env, c.nodes[i]);
    OwnAdvances(env, c, i, g, a);
    if NeedsPeer(After(env, i, c.nodes[i], a).pulls[g.k].phase) {
      BackedAtDiff(env, c, i, g, a);
      StepGrows(env, c, i, a, g.base.pulls[g.k].peers[g.q]);
      StillBacked(c, Protocol.Step(env, c, i, a), g);
    }
  }

  // ---- Runs ----

  ghost predicate Own(events: seq<Event>, i: string, k: nat, t: nat)
    requires t < |events|
  {
    events[t].name == i && OwnAction(events[t].action, k)
  }

  /** The number of the pull's own steps. */
  ghost function OwnSteps(events: seq<Event>, i: string, k: nat, from: nat, upto: nat): nat
    requires upto <= |events|
  {
    if upto <= from then 0
    else OwnSteps(events, i, k, from, upto - 1) + if Own(events, i, k, upto - 1) then 1 else 0
  }

  /** Event t does no harm to the pull: if it is its own, no call fails and things are as the course says; and its node
      does not restart. */
  ghost predicate Harmless(env: Env, states: seq<Cluster>, events: seq<Event>, i: string, g: Course, t: nat)
    requires |states| == |events| + 1 && t < |events|
  {
    && events[t] != Event(i, Restart)
    && (Own(events, i, g.k, t) && i in states[t].nodes ==>
          NoFault(env, states[t], states[t].nodes[i], events[t].action) &&
          Agrees(states[t], states[t].nodes[i], g, events[t].action))
  }

  /** The pull is claimed in this state. */
  ghost predicate StartsHere(c: Cluster, i: string, g: Course) {
    && i in c.nodes && c.nodes[i] == g.base && g.k in g.base.pulls && g.base.pulls[g.k].phase == Claimed
    && g.q < |g.base.pulls[g.k].peers|
  }

  /** Some event of the stretch was its commit, and stored the version. */
  ghost predicate CommittedIn(states: seq<Cluster>, events: seq<Event>, i: string, g: Course, a: nat, b: nat)
    requires |states| == |events| + 1 && b <= |events| && g.k in g.base.pulls
  {
    exists t :: a <= t < b && events[t] == Event(i, PullCommit(g.k)) && Holding(states[t + 1], i, FileOf(g), g.remote)
  }

  ghost predicate Holding(c: Cluster, i: string, f: string, v: FileMeta) {
    i in c.nodes && Local(c.nodes[i], f) == Some(v)
  }

  /** Where the pull is at b, and what it has done since a. */
  ghost predicate Along(states: seq<Cluster>, events: seq<Event>, i: string, g: Course, a: nat, b: nat)
    requires |states| == |events| + 1 && b <= |events|
  {
    && Going(states[b], i, g)
    && OwnSteps(events, i, g.k, a, b) + Left(g, states[b].nodes[i].pulls[g.k].phase) == Left(g, Claimed)
    && (Late(states[b].nodes[i].pulls[g.k].phase) && !InSync(g) ==> CommittedIn(states, events, i, g, a, b))
  }

  /** Late is two steps before the end. */
  lemma LateIsLeft(g: Course, node: Node)
    requires Alive(g, node) && !InSync(g)
    ensures Late(node.pulls[g.k].phase) <==> Left(g, node.pulls[g.k].phase) <= 2
  {
  }

  /** One step earlier, only the commit is left to do. */
  lemma ThenCommits(env: Env, c: Cluster, i: string, g: Course, a: Action)
    requires Going(c, i, g) && Faultless(env, c, i, g.k, a) && !InSync(g)
    requires Left(g, c.nodes[i].pulls[g.k].phase) == 3
    ensures a == PullCommit(g.k)
  {
    assert c.nodes[i].pulls[g.k].phase.Assembling?;
  }

  lemma CommitSeen(env: Env, states: seq<Cluster>, events: seq<Event>, i: string, g: Course, a: nat, b: nat)
    requires Run(env, states, events) && a <= b < |events| && Along(states, events, i, g, a, b) && !InSync(g)
    requires Faultless(env, states[b], i, g.k, events[b].action) && events[b].name == i
    requires Left(g, states[b].nodes[i].pulls[g.k].phase) <= 3
    ensures CommittedIn(states, events, i, g, a, b + 1)
  {
    LateIsLeft(g, states[b].nodes[i]);
    if !Late(states[b].nodes[i].pulls[g.k].phase) {
      ThenCommits(env, states[b], i, g, events[b].action);
      StoreStep(env, states, events, i, FileOf(g), b);
      assert Holding(states[b + 1], i, FileOf(g), g.remote);
    } else {
      var t :| a <= t < b && events[t] == Event(i, PullCommit(g.k)) && Holding(states[t + 1], i, FileOf(g), g.remote);
    }
  }

  lemma OthersLater(env: Env, states: seq<Cluster>, events: seq<Event>, i: string, g: Course, a: nat, b: nat)
    requires Run(env, states, events) && a <= b < |events| && Along(states, events, i, g, a, b)
    requires !Own(events, i, g.k, b) && events[b] != Event(i, Restart)
    ensures Along(states, events, i, g, a, b + 1)
  {
    RunInv(env, states, events, b);
    assert Taken(env, states, events, b);
    OthersKeepGoing(env, states[b], i, g, events[b].name, events[b].action);
    if !InSync(g) && Late(states[b + 1].nodes[i].pulls[g.k].phase) {
      LateIsLeft(g, states[b].nodes[i]);
      LateIsLeft(g, states[b + 1].nodes[i]);
      var t :| a <= t < b && events[t] == Event(i, PullCommit(g.k)) && Holding(states[t + 1], i, FileOf(g), g.remote);
    }
  }

  lemma OneStepLater(env: Env, states: seq<Cluster>, events: seq<Event>, i: string, g: Course, a: nat, b: nat)
    requires Run(env, states, events) && a <= b < |events| && Along(states, events, i, g, a, b)
    requires Own(events, i, g.k, b) && Harmless(env, states, events, i, g, b) && events[b] != Event(i, PullRelease(g.k))
    ensures Along(states, events, i, g, a, b + 1)
  {
    RunInv(env, states, events, b);
    assert Taken(env, states, events, b);
    OwnKeepsGoing(env, states[b], i, g, events[b].action);
    if !InSync(g) && Late(states[b + 1].nodes[i].pulls[g.k].phase) {
      LateIsLeft(g, states[b + 1].nodes[i]);
      CommitSeen(env, states, events, i, g, a, b);
    }
  }

  lemma {:induction false} AllTheWay(env: Env, states: seq<Cluster>, events: seq<Event>, i: string, g: Course,
                                     a: nat, b: nat)
    requires Run(env, states, events) && a <= b < |states| && StartsHere(states[a], i, g)
    requires forall t | a <= t < b :: Harmless(env, states, events, i, g, t) && events[t] != Event(i, PullRelease(g.k))
    ensures Along(states, events, i, g, a, b)
    decreases b
  {
    if a < b {
      AllTheWay(env, states, events, i, g, a, b - 1);
      assert Harmless(env, states, events, i, g, b - 1);
      if Own(events, i, g.k, b - 1) {
        OneStepLater(env, states, events, i, g, a, b - 1);
      } else {
        OthersLater(env, states, events, i, g, a, b - 1);
      }
    }
  }

  /** Total correctness of a pull among others. Take any run, a pull claimed in state a, and a stretch up to state b
      before which it is not released. Let none of its own calls fail, its node not restart, and the peer it takes
      have one version at the diff and at the metadata; whatever else happens. Then its own steps are fewer than
      the peers passed over, the chunks missing and the chunks to write add up to; there is another one it can take
      in state b; and once only its release is left, it has stored that version, unless the roots agreed. */
  lemma EveryPullAmongOthers(env: Env, states: seq<Cluster>, events: seq<Event>, i: string, g: Course, a: nat, b: nat)
    requires Run(env, states, events) && a <= b < |states| && StartsHere(states[a], i, g)
    requires forall t | a <= t < b :: Harmless(env, states, events, i, g, t) && events[t] != Event(i, PullRelease(g.k))
    ensures var steps := if InSync(g) then g.q + 4 else g.q + |Wanted(g)| + |g.remote.chunkHashes| + 8;
      && OwnSteps(events, i, g.k, a, b) < steps
      && HasPull(states[b], i, g.k) && (exists act :: Faultless(env, states[b], i, g.k, act))
      && (OwnSteps(events, i, g.k, a, b) == steps - 1 <==> PhaseAt(states[b], i, g.k).Returned?)
      && (OwnSteps(events, i, g.k, a, b) == steps - 1 && !InSync(g) ==> CommittedIn(states, events, i, g, a, b))
  {
    AllTheWay(env, states, events, i, g, a, b);
    RunInv(env, states, events, b);
    if NeedsPeer(PhaseAt(states[b], i, g.k)) {
      PeerHasBlobs(env, states[b], i, g);
    }
    var act := CanGoOn(env, states[b], i, g);
    LastIsReturned(g, states[b].nodes[i]);
  }

  lemma PeerHasBlobs(env: Env, c: Cluster, i: string, g: Course)
    requires ClusterInv(env, c) && Going(c, i, g) && NeedsPeer(c.nodes[i].pulls[g.k].phase)
    ensures SourceOk(env, c, g)
  {
    assert NodeInv(env, c.nodes[g.base.pulls[g.k].peers[g.q]]);
  }

  lemma LastIsReturned(g: Course, node: Node)
    requires Alive(g, node)
    ensures Left(g, node.pulls[g.k].phase) >= 1
    ensures Left(g, node.pulls[g.k].phase) == 1 <==> node.pulls[g.k].phase.Returned?
  {
  }
}
