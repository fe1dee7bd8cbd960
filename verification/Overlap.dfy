/** Convergence with pulls that overlap. Nothing is taken to be atomic here: pulls, file changes of other files, gossip,
    failures and restarts interleave in any way. What is excluded is that somebody publishes a change of the file, or
    asks for it by hand. */
module Overlap {
  import opened Base
  import opened Conflict
  import opened Protocol
  import opened Integrity
  import opened Safety
  import opened Runs
  import opened Progress
  import opened History
  import opened Timestamps
  import opened Interference
  import Exchange

  ghost predicate AtMost(ts: nat, r: Hash, t: nat, root: Hash) {
    ts <= t && (ts == t ==> r == root)
  }

  /** No version of the file is beyond timestamp t, and those stamped t have one root: of the versions stored or
      captured anywhere, and of those in hints still to be delivered. */
  ghost predicate Topped(c: Cluster, f: string, t: nat, root: Hash) {
    && (forall v | Present(c, f, v) :: AtMost(v.lamportTs, v.merkleRoot, t, root))
    && (forall h | h in c.hints && h.file == f :: AtMost(h.ts, h.root, t, root))
  }

  /** The node has the newest version, and no pull that could still replace it. */
  ghost predicate Settled(node: Node, f: string, t: nat) {
    && f in node.meta && node.meta[f].lamportTs == t
    && forall k | k in node.pulls && node.pulls[k].file == f :: Late(node.pulls[k].phase)
  }

  ghost predicate IsSettled(c: Cluster, n: string, f: string, t: nat) {
    n in c.nodes && Settled(c.nodes[n], f, t)
  }

  /** The action does not publish a change of the file, and does not ask for it. */
  ghost predicate Calm(node: Node, a: Action, f: string) {
    !PublishesFile(node, a, f) && !(a.ManualSync? && a.file == f)
  }

  // ---- One step ----

  lemma SentAtMost(env: Env, c: Cluster, name: string, a: Action, f: string, t: nat, root: Hash, h: Hint)
    requires ClusterInv(env, c) && Possible(env, c, name, a) && Topped(c, f, t, root) && Calm(c.nodes[name], a, f)
    requires h in Sent(env, name, c.nodes[name], a) && h.file == f
    ensures AtMost(h.ts, h.root, t, root)
  {
    var node := c.nodes[name];
    assert NodeInv(env, node);
    if a.PullAnnounce? {
      assert PullOk(env, node, node.pulls[a.k]);
      assert NodeHas(node, f, node.pulls[a.k].phase.remote);
      assert Present(c, f, node.pulls[a.k].phase.remote);
    } else if a.ServeEntry? {
      assert NodeHas(node, f, node.meta[f]);
      assert Present(c, f, node.meta[f]);
    }
  }

  lemma ToppedStep(env: Env, c: Cluster, name: string, a: Action, f: string, t: nat, root: Hash)
    requires ClusterInv(env, c) && Possible(env, c, name, a) && Topped(c, f, t, root) && Calm(c.nodes[name], a, f)
    ensures Topped(Protocol.Step(env, c, name, a), f, t, root)
  {
    var c' := Protocol.Step(env, c, name, a);
    forall v | Present(c', f, v) ensures AtMost(v.lamportTs, v.merkleRoot, t, root) {
      StepInventsNothing(env, c, name, a, f, v);
    }
    forall h | h in c'.hints && h.file == f ensures AtMost(h.ts, h.root, t, root) {
      if h !in c.hints {
        SentAtMost(env, c, name, a, f, t, root, h);
      }
    }
  }

  /** No hint starts a pull on a node that has the newest version. */
  lemma NoStart(c: Cluster, n: string, f: string, t: nat, root: Hash, h: Hint)
    requires Topped(c, f, t, root) && IsSettled(c, n, f, t) && h in c.hints && h.file == f
    ensures !StartsSync(Local(c.nodes[n], f), n, h.root, h.ts, h.source)
  {
    assert NodeHas(c.nodes[n], f, c.nodes[n].meta[f]);
    assert Present(c, f, c.nodes[n].meta[f]);
  }

  /** Every pull of the file there is afterwards was there before. */
  lemma NoNewPull(env: Env, c: Cluster, n: string, a: Action, f: string, t: nat, root: Hash, k: nat)
    requires Possible(env, c, n, a) && Topped(c, f, t, root) && IsSettled(c, n, f, t) && Calm(c.nodes[n], a, f)
    requires var after := After(env, n, c.nodes[n], a); k in after.pulls && after.pulls[k].file == f
    ensures k in c.nodes[n].pulls
  {
    if a.Deliver? {
      if a.hint.file == f {
        NoStart(c, n, f, t, root, a.hint);
        LosingHint(env, n, c.nodes[n], a.hint, a.k, a.peers);
      } else {
        OtherFilesHint(env, n, c.nodes[n], a.hint, a.k, a.peers, f, k);
      }
    } else if OwnAction(a, k) {
      OwnKeepsPull(env, n, c.nodes[n], a, k);
    } else {
      OthersStartNone(env, n, c.nodes[n], a, f, k);
    }
  }

  lemma LosingHint(env: Env, n: string, node: Node, hint: Hint, l: nat, peers: seq<string>)
    requires Enabled(env, n, node, Deliver(hint, l, peers))
    requires !StartsSync(Local(node, hint.file), n, hint.root, hint.ts, hint.source)
    ensures After(env, n, node, Deliver(hint, l, peers)).pulls == node.pulls
  {
  }

  lemma OtherFilesHint(env: Env, n: string, node: Node, hint: Hint, l: nat, peers: seq<string>, f: string, k: nat)
    requires Enabled(env, n, node, Deliver(hint, l, peers)) && hint.file != f
    requires var after := After(env, n, node, Deliver(hint, l, peers)); k in after.pulls && after.pulls[k].file == f
    ensures k in node.pulls
  {
    DeliverIs(env, n, node, hint, l, peers);
  }

  lemma OthersStartNone(env: Env, name: string, node: Node, a: Action, f: string, k: nat)
    requires Enabled(env, name, node, a) && Calm(node, a, f) && !a.Deliver? && !OwnAction(a, k)
    requires k in After(env, name, node, a).pulls && After(env, name, node, a).pulls[k].file == f
    ensures k in node.pulls
  {
    if PhaseOnly(a) {
      assert After(env, name, node, a) == Move(node, a.k, NextPhase(env, name, node, a));
    } else if Rewrites(a) {
      OtherPullWrites(env, name, node, a, k);
    } else if a.WorkerDone? || a.PullCommit? || a.PullRelease? {
      OtherPullWorks(env, name, node, a, k);
    } else if !a.ManualSync? {
      PullsLeft(env, name, node, a, k);
    }
  }

  lemma NothingStoredHere(env: Env, node: Node, a: Action, f: string, t: nat)
    requires Settled(node, f, t) && Calm(node, a, f)
    ensures !StoresFile(node, a, f)
  {
  }

  lemma OwnSettledStep(env: Env, c: Cluster, n: string, a: Action, f: string, t: nat, root: Hash)
    requires ClusterInv(env, c) && Possible(env, c, n, a) && Topped(c, f, t, root) && Calm(c.nodes[n], a, f)
    requires IsSettled(c, n, f, t)
    ensures var after := After(env, n, c.nodes[n], a);
      Settled(after, f, t) && Local(after, f) == Local(c.nodes[n], f)
  {
    var node, after := c.nodes[n], After(env, n, c.nodes[n], a);
    assert NodeInv(env, node);
    NothingStoredHere(env, node, a, f, t);
    StoreFrame(env, n, node, a, f);
    forall k | k in after.pulls && after.pulls[k].file == f ensures Late(after.pulls[k].phase) {
      NoNewPull(env, c, n, a, f, t, root, k);
      PullFollows(env, n, node, a, k);
    }
  }

  /** A settled node stays settled, and keeps its version, whatever anybody does. */
  lemma SettledStep(env: Env, c: Cluster, name: string, a: Action, f: string, t: nat, root: Hash, n: string)
    requires ClusterInv(env, c) && Possible(env, c, name, a) && Topped(c, f, t, root) && Calm(c.nodes[name], a, f)
    requires IsSettled(c, n, f, t)
    ensures var c' := Protocol.Step(env, c, name, a);
      IsSettled(c', n, f, t) && Local(c'.nodes[n], f) == Local(c.nodes[n], f)
  {
    if name == n {
      OwnSettledStep(env, c, n, a, f, t, root);
    }
  }

  // ---- Runs ----

  ghost predicate CalmAt(states: seq<Cluster>, events: seq<Event>, f: string, t: nat)
    requires |states| == |events| + 1 && t < |events|
  {
    events[t].name in states[t].nodes ==> Calm(states[t].nodes[events[t].name], events[t].action, f)
  }

  ghost predicate AllCalm(states: seq<Cluster>, events: seq<Event>, f: string, i: nat, j: nat)
    requires |states| == |events| + 1 && j <= |events|
  {
    forall t | i <= t < j :: CalmAt(states, events, f, t)
  }

  lemma {:induction false} ToppedStays(env: Env, states: seq<Cluster>, events: seq<Event>, f: string, t: nat,
                                       root: Hash, i: nat, j: nat)
    requires Run(env, states, events) && i <= j < |states| && AllCalm(states, events, f, i, j)
    requires Topped(states[i], f, t, root)
    ensures Topped(states[j], f, t, root)
    decreases j
  {
    if i < j {
      ToppedStays(env, states, events, f, t, root, i, j - 1);
      RunInv(env, states, events, j - 1);
      assert Taken(env, states, events, j - 1) && CalmAt(states, events, f, j - 1);
      ToppedStep(env, states[j - 1], events[j - 1].name, events[j - 1].action, f, t, root);
    }
  }

  lemma {:induction false} SettledStays(env: Env, states: seq<Cluster>, events: seq<Event>, f: string, t: nat,
                                        root: Hash, n: string, i: nat, j: nat)
    requires Run(env, states, events) && i <= j < |states| && AllCalm(states, events, f, i, j)
    requires Topped(states[i], f, t, root) && IsSettled(states[i], n, f, t)
    ensures IsSettled(states[j], n, f, t) && Local(states[j].nodes[n], f) == Local(states[i].nodes[n], f)
    decreases j
  {
    if i < j {
      SettledStays(env, states, events, f, t, root, n, i, j - 1);
      ToppedStays(env, states, events, f, t, root, i, j - 1);
      RunInv(env, states, events, j - 1);
      assert Taken(env, states, events, j - 1) && CalmAt(states, events, f, j - 1);
      SettledStep(env, states[j - 1], events[j - 1].name, events[j - 1].action, f, t, root, n);
    }
  }

  // ---- Pulls from a settled peer ----

  /** The pull reads this metadata, and asks for the version of peer number q. */
  ghost predicate Asks(node: Node, g: Course, a: Action) {
    match a
    case PullLocal(k) => k in node.pulls ==> Local(node, node.pulls[k].file) == g.local
    case PullSkip(k) => Asking(node, k) ==> node.pulls[k].phase.next < g.q
    case PullDiff(k, _, _) => Asking(node, k) ==> node.pulls[k].phase.next == g.q
    case _ => true
  }

  /** If event t is the pull's own, no call fails; it is not its release, and its node does not restart. */
  ghost predicate Smooth(env: Env, states: seq<Cluster>, events: seq<Event>, i: string, g: Course, t: nat)
    requires |states| == |events| + 1 && t < |events|
  {
    && events[t] != Event(i, Restart) && events[t] != Event(i, PullRelease(g.k))
    && (Own(events, i, g.k, t) && i in states[t].nodes ==>
          NoFault(env, states[t], states[t].nodes[i], events[t].action) &&
          Asks(states[t].nodes[i], g, events[t].action))
  }

  ghost predicate PeerSettled(c: Cluster, g: Course, f: string, t: nat) {
    && g.k in g.base.pulls && FileOf(g) == f && g.q < |g.base.pulls[g.k].peers|
    && IsSettled(c, g.base.pulls[g.k].peers[g.q], f, t)
    && c.nodes[g.base.pulls[g.k].peers[g.q]].meta[f] == g.remote
  }

  /** The settled peer answers with one version, at the diff and at the metadata. */
  lemma AgreesWithSettled(env: Env, c: Cluster, i: string, g: Course, f: string, t: nat, a: Action)
    requires Going(c, i, g) && PeerSettled(c, g, f, t) && Possible(env, c, i, a) && OwnAction(a, g.k)
    requires Asks(c.nodes[i], g, a)
    ensures Agrees(c, c.nodes[i], g, a)
  {
  }

  lemma PeerStays(env: Env, states: seq<Cluster>, events: seq<Event>, g: Course, f: string, t: nat, root: Hash, a: nat,
                  b: nat)
    requires Run(env, states, events) && a <= b < |states| && AllCalm(states, events, f, a, b)
    requires Topped(states[a], f, t, root) && PeerSettled(states[a], g, f, t)
    ensures PeerSettled(states[b], g, f, t)
  {
    SettledStays(env, states, events, f, t, root, g.base.pulls[g.k].peers[g.q], a, b);
  }

  /** Claimed in state a from a settled peer, nothing fails until state b. */
  ghost predicate SmoothPull(env: Env, states: seq<Cluster>, events: seq<Event>, i: string, g: Course, f: string,
                             t: nat, a: nat, b: nat)
    requires |states| == |events| + 1 && a <= b <= |events|
  {
    && StartsHere(states[a], i, g) && PeerSettled(states[a], g, f, t)
    && forall u | a <= u < b :: Smooth(env, states, events, i, g, u)
  }

  lemma HarmlessAt(env: Env, states: seq<Cluster>, events: seq<Event>, i: string, g: Course, f: string, t: nat, u: nat)
    requires Run(env, states, events) && u < |events| && Going(states[u], i, g) && PeerSettled(states[u], g, f, t)
    requires Smooth(env, states, events, i, g, u)
    ensures Harmless(env, states, events, i, g, u)
  {
    assert Taken(env, states, events, u);
    if Own(events, i, g.k, u) {
      AgreesWithSettled(env, states[u], i, g, f, t, events[u].action);
    }
  }

  lemma {:induction false} AllHarmless(env: Env, states: seq<Cluster>, events: seq<Event>, i: string, g: Course,
                                       f: string, t: nat, root: Hash, a: nat, b: nat)
    requires Run(env, states, events) && a <= b < |states| && AllCalm(states, events, f, a, b)
    requires Topped(states[a], f, t, root) && SmoothPull(env, states, events, i, g, f, t, a, b)
    ensures forall u | a <= u < b :: Harmless(env, states, events, i, g, u) && events[u] != Event(i, PullRelease(g.k))
    decreases b
  {
    if a < b {
      AllHarmless(env, states, events, i, g, f, t, root, a, b - 1);
      AllTheWay(env, states, events, i, g, a, b - 1);
      PeerStays(env, states, events, g, f, t, root, a, b - 1);
      assert Smooth(env, states, events, i, g, b - 1);
      HarmlessAt(env, states, events, i, g, f, t, b - 1);
    }
  }

  /** A commit of the newest version settles the node: no other pull of the file runs beside it. */
  lemma CommitSettles(env: Env, c: Cluster, i: string, k: nat, f: string, t: nat)
    requires ClusterInv(env, c) && Possible(env, c, i, PullCommit(k)) && CanCommit(c.nodes[i], k)
    requires c.nodes[i].pulls[k].file == f && c.nodes[i].pulls[k].phase.remote.lamportTs == t
    ensures IsSettled(Protocol.Step(env, c, i, PullCommit(k)), i, f, t)
  {
    var node := c.nodes[i];
    assert NodeInv(env, node);
    StoreFrame(env, i, node, PullCommit(k), f);
    var committed := node.pulls[k].(phase := Committed(node.pulls[k].phase.remote));
    assert After(env, i, node, PullCommit(k)).pulls == node.pulls[k := committed];
  }

  lemma CommitEvent(env: Env, states: seq<Cluster>, events: seq<Event>, i: string, g: Course, f: string, t: nat, u: nat)
    requires Run(env, states, events) && u < |events| && Going(states[u], i, g) && FileOf(g) == f
    requires events[u] == Event(i, PullCommit(g.k)) && g.remote.lamportTs == t
    ensures IsSettled(states[u + 1], i, f, t)
  {
    RunInv(env, states, events, u);
    assert Taken(env, states, events, u);
    CommitSettles(env, states[u], i, g.k, f, t);
  }

  lemma SettledByCommit(env: Env, states: seq<Cluster>, events: seq<Event>, i: string, g: Course, f: string, t: nat,
                        root: Hash, a: nat, u: nat)
    requires Run(env, states, events) && a <= u < |events| && AllCalm(states, events, f, a, u)
    requires Topped(states[a], f, t, root) && SmoothPull(env, states, events, i, g, f, t, a, u)
    requires events[u] == Event(i, PullCommit(g.k))
    ensures IsSettled(states[u + 1], i, f, t)
  {
    AllHarmless(env, states, events, i, g, f, t, root, a, u);
    AllTheWay(env, states, events, i, g, a, u);
    CommitEvent(env, states, events, i, g, f, t, u);
  }

  lemma CommittedSettles(env: Env, states: seq<Cluster>, events: seq<Event>, i: string, g: Course, f: string, t: nat,
                         root: Hash, a: nat, b: nat)
    requires Run(env, states, events) && a <= b < |states| && AllCalm(states, events, f, a, b)
    requires Topped(states[a], f, t, root) && SmoothPull(env, states, events, i, g, f, t, a, b)
    requires CommittedIn(states, events, i, g, a, b)
    ensures IsSettled(states[b], i, f, t)
  {
    var u :| a <= u < b && events[u] == Event(i, PullCommit(g.k)) && Holding(states[u + 1], i, FileOf(g), g.remote);
    SettledByCommit(env, states, events, i, g, f, t, root, a, u);
    ToppedStays(env, states, events, f, t, root, a, u + 1);
    SettledStays(env, states, events, f, t, root, i, u + 1, b);
  }

  /** A pull that finds the roots equal stores nothing, and nobody else stores the file meanwhile. */
  lemma NothingMeanwhile(env: Env, states: seq<Cluster>, events: seq<Event>, i: string, g: Course, f: string, u: nat)
    requires Run(env, states, events) && u < |events| && Going(states[u], i, g) && FileOf(g) == f
    requires InSync(g) && CalmAt(states, events, f, u)
    ensures !Stores(states, events, i, f, u)
  {
    RunInv(env, states, events, u);
    assert NodeInv(env, states[u].nodes[i]);
  }

  lemma {:induction false} InSyncKeeps(env: Env, states: seq<Cluster>, events: seq<Event>, i: string, g: Course,
                                       f: string, a: nat, b: nat)
    requires Run(env, states, events) && a <= b < |states| && AllCalm(states, events, f, a, b)
    requires StartsHere(states[a], i, g) && FileOf(g) == f && InSync(g)
    requires forall u | a <= u < b :: Harmless(env, states, events, i, g, u) && events[u] != Event(i, PullRelease(g.k))
    ensures Going(states[b], i, g)
    ensures !states[b].nodes[i].pulls[g.k].phase.Claimed? ==> Local(states[b].nodes[i], f) == g.local
    decreases b
  {
    AllTheWay(env, states, events, i, g, a, b);
    if a < b {
      InSyncKeeps(env, states, events, i, g, f, a, b - 1);
      assert CalmAt(states, events, f, b - 1) && Harmless(env, states, events, i, g, b - 1);
      NothingMeanwhile(env, states, events, i, g, f, b - 1);
      StoreStep(env, states, events, i, f, b - 1);
      if states[b - 1].nodes[i].pulls[g.k].phase.Claimed? && !states[b].nodes[i].pulls[g.k].phase.Claimed? {
        LeavesClaim(env, states, events, i, g, f, b - 1);
      }
    }
  }

  lemma LeavesClaim(env: Env, states: seq<Cluster>, events: seq<Event>, i: string, g: Course, f: string, u: nat)
    requires Run(env, states, events) && u < |events| && Going(states[u], i, g) && FileOf(g) == f
    requires Going(states[u + 1], i, g) && Harmless(env, states, events, i, g, u)
    requires states[u].nodes[i].pulls[g.k].phase.Claimed? && !states[u + 1].nodes[i].pulls[g.k].phase.Claimed?
    ensures Local(states[u].nodes[i], f) == g.local
  {
    RunInv(env, states, events, u);
    assert Taken(env, states, events, u);
    assert NodeInv(env, states[u].nodes[i]);
    if events[u].name == i {
      PullFollows(env, i, states[u].nodes[i], events[u].action, g.k);
    }
  }

  /** The pull is done: only its release is left. */
  ghost predicate Done(c: Cluster, i: string, k: nat) {
    HasPull(c, i, k) && PhaseAt(c, i, k).Returned?
  }

  /** A pull from a settled peer, among everything else. Its own steps are bounded, and there is always one it can take.
      When it is done the node is settled too, unless the roots were equal, and then the node has kept what it read. */
  lemma PullFromSettled(env: Env, states: seq<Cluster>, events: seq<Event>, i: string, g: Course, f: string, t: nat,
                        root: Hash, a: nat, b: nat)
    requires Run(env, states, events) && a <= b < |states| && AllCalm(states, events, f, a, b)
    requires Topped(states[a], f, t, root) && SmoothPull(env, states, events, i, g, f, t, a, b)
    ensures var steps := if InSync(g) then g.q + 4 else g.q + |Wanted(g)| + |g.remote.chunkHashes| + 8;
      && OwnSteps(events, i, g.k, a, b) < steps
      && HasPull(states[b], i, g.k) && (exists act :: Faultless(env, states[b], i, g.k, act))
      && (OwnSteps(events, i, g.k, a, b) == steps - 1 <==> Done(states[b], i, g.k))
      && (Done(states[b], i, g.k) ==>
            if InSync(g) then Local(states[b].nodes[i], f) == g.local else IsSettled(states[b], i, f, t))
  {
    AllHarmless(env, states, events, i, g, f, t, root, a, b);
    EveryPullAmongOthers(env, states, events, i, g, a, b);
    if InSync(g) {
      InSyncKeeps(env, states, events, i, g, f, a, b);
    } else if PhaseAt(states[b], i, g.k).Returned? {
      CommittedSettles(env, states, events, i, g, f, t, root, a, b);
    }
  }

  // ---- Agreement stays ----

  /** The node has the root, and no pull that could still commit another. */
  ghost predicate Inclined(node: Node, f: string, root: Hash) {
    && f in node.meta && node.meta[f].merkleRoot == root
    && forall k | k in node.pulls && node.pulls[k].file == f && !Late(node.pulls[k].phase) ::
         Captured(node.pulls[k].phase).Some? ==> Captured(node.pulls[k].phase).value.merkleRoot == root
  }

  ghost predicate Unanimous(c: Cluster, f: string, root: Hash) {
    forall n | n in c.nodes :: Inclined(c.nodes[n], f, root)
  }

  lemma CapturesRoot(env: Env, c: Cluster, name: string, a: Action, f: string, root: Hash, k: nat)
    requires ClusterInv(env, c) && Possible(env, c, name, a) && Unanimous(c, f, root)
    requires var after := After(env, name, c.nodes[name], a);
      && k in after.pulls && after.pulls[k].file == f && !Late(after.pulls[k].phase)
      && Captured(after.pulls[k].phase).Some?
    ensures Captured(After(env, name, c.nodes[name], a).pulls[k].phase).value.merkleRoot == root
  {
    CaptureComesFromPeer(env, c, name, a, k, Captured(After(env, name, c.nodes[name], a).pulls[k].phase).value);
    PullFollows(env, name, c.nodes[name], a, k);
    assert Inclined(c.nodes[name], f, root);
  }

  lemma StoresRoot(env: Env, name: string, node: Node, a: Action, f: string, root: Hash)
    requires NodeInv(env, node) && Enabled(env, name, node, a) && Inclined(node, f, root) && !PublishesFile(node, a, f)
    ensures Exchange.RootOf(Local(After(env, name, node, a), f)) == Some(root)
  {
    StoreFrame(env, name, node, a, f);
  }

  lemma InclinedStep(env: Env, c: Cluster, name: string, a: Action, f: string, root: Hash)
    requires ClusterInv(env, c) && Possible(env, c, name, a) && Unanimous(c, f, root)
    requires !PublishesFile(c.nodes[name], a, f)
    ensures Inclined(After(env, name, c.nodes[name], a), f, root)
  {
    var after := After(env, name, c.nodes[name], a);
    assert NodeInv(env, c.nodes[name]);
    StoresRoot(env, name, c.nodes[name], a, f, root);
    forall k | k in after.pulls && after.pulls[k].file == f && !Late(after.pulls[k].phase)
      ensures Captured(after.pulls[k].phase).Some? ==> Captured(after.pulls[k].phase).value.merkleRoot == root
    {
      if Captured(after.pulls[k].phase).Some? {
        CapturesRoot(env, c, name, a, f, root, k);
      }
    }
  }

  lemma UnanimousStep(env: Env, c: Cluster, name: string, a: Action, f: string, root: Hash)
    requires ClusterInv(env, c) && Possible(env, c, name, a) && Unanimous(c, f, root)
    requires !PublishesFile(c.nodes[name], a, f)
    ensures Unanimous(Protocol.Step(env, c, name, a), f, root)
  {
    InclinedStep(env, c, name, a, f, root);
  }

  /** Until somebody publishes a change, the roots stay equal: through stale hints, manual syncs, failures and
      restarts. */
  lemma {:induction false} UnanimousStays(env: Env, states: seq<Cluster>, events: seq<Event>, f: string, root: Hash,
                                          i: nat, j: nat)
    requires Run(env, states, events) && i <= j < |states| && NoPublish(states, events, f, i, j)
    requires Unanimous(states[i], f, root)
    ensures Unanimous(states[j], f, root)
    decreases j
  {
    if i < j {
      UnanimousStays(env, states, events, f, root, i, j - 1);
      RunInv(env, states, events, j - 1);
      assert Taken(env, states, events, j - 1) && !Publishes(states, events, f, j - 1);
      UnanimousStep(env, states[j - 1], events[j - 1].name, events[j - 1].action, f, root);
    }
  }

  lemma UnanimousAgree(c: Cluster, f: string, root: Hash)
    requires Unanimous(c, f, root)
    ensures Exchange.Agree(View(c, f))
  {
    var s := View(c, f);
    forall n | n in s ensures Exchange.RootOf(s[n]) == Some(root) {
      assert Inclined(c.nodes[n], f, root);
    }
  }

  // ---- Agreement ----

  lemma SettledInclined(c: Cluster, f: string, t: nat, root: Hash, n: string)
    requires Topped(c, f, t, root) && IsSettled(c, n, f, t)
    ensures Inclined(c.nodes[n], f, root)
  {
    assert NodeHas(c.nodes[n], f, c.nodes[n].meta[f]);
    assert Present(c, f, c.nodes[n].meta[f]);
  }

  ghost predicate SettledSome(states: seq<Cluster>, n: string, f: string, t: nat, i: nat, j: nat)
    requires j < |states|
  {
    exists u :: i <= u <= j && IsSettled(states[u], n, f, t)
  }

  /** Every node is settled at some time of the stretch: then all roots are equal at its end, and stay so until somebody
      publishes a change, however everything interleaves. */
  lemma SettledSpreads(env: Env, states: seq<Cluster>, events: seq<Event>, f: string, t: nat, root: Hash, i: nat,
                       j: nat, later: nat)
    requires Run(env, states, events) && i <= j <= later < |states| && AllCalm(states, events, f, i, j)
    requires Topped(states[i], f, t, root) && NoPublish(states, events, f, j, later)
    requires forall n | n in states[j].nodes :: SettledSome(states, n, f, t, i, j)
    ensures Exchange.Agree(View(states[later], f))
  {
    ToppedStays(env, states, events, f, t, root, i, j);
    forall n | n in states[j].nodes ensures Inclined(states[j].nodes[n], f, root) {
      assert SettledSome(states, n, f, t, i, j);
      var u :| i <= u <= j && IsSettled(states[u], n, f, t);
      ToppedStays(env, states, events, f, t, root, i, u);
      SettledStays(env, states, events, f, t, root, n, u, j);
      SettledInclined(states[j], f, t, root, n);
    }
    UnanimousStays(env, states, events, f, root, j, later);
    UnanimousAgree(states[later], f, root);
  }

  lemma OnlyThatPull(env: Env, node: Node, k: nat, f: string, root: Hash)
    requires NodeInv(env, node) && k in node.pulls && node.pulls[k].file == f && node.pulls[k].phase.Returned?
    requires f in node.meta && node.meta[f].merkleRoot == root
    ensures Inclined(node, f, root)
  {
  }

  lemma DoneHasRoot(env: Env, states: seq<Cluster>, events: seq<Event>, i: string, g: Course, f: string, t: nat,
                    root: Hash, a: nat, b: nat)
    requires Run(env, states, events) && a <= b < |states| && AllCalm(states, events, f, a, b)
    requires Topped(states[a], f, t, root) && SmoothPull(env, states, events, i, g, f, t, a, b)
    requires Done(states[b], i, g.k) && root != []
    ensures Exchange.RootOf(Local(states[b].nodes[i], f)) == Some(root)
  {
    PullFromSettled(env, states, events, i, g, f, t, root, a, b);
    RemoteRoot(states[a], g, f, t, root);
    if !InSync(g) {
      ToppedStays(env, states, events, f, t, root, a, b);
      SettledInclined(states[b], f, t, root, i);
    }
  }

  lemma DoneInclined(env: Env, states: seq<Cluster>, events: seq<Event>, i: string, g: Course, f: string, t: nat,
                     root: Hash, a: nat, b: nat)
    requires Run(env, states, events) && a <= b < |states| && AllCalm(states, events, f, a, b)
    requires Topped(states[a], f, t, root) && SmoothPull(env, states, events, i, g, f, t, a, b)
    requires Done(states[b], i, g.k) && root != []
    ensures Inclined(states[b].nodes[i], f, root)
  {
    DoneHasRoot(env, states, events, i, g, f, t, root, a, b);
    AllHarmless(env, states, events, i, g, f, t, root, a, b);
    AllTheWay(env, states, events, i, g, a, b);
    RunInv(env, states, events, b);
    assert NodeInv(env, states[b].nodes[i]);
    OnlyThatPull(env, states[b].nodes[i], g.k, f, root);
  }

  lemma RemoteRoot(c: Cluster, g: Course, f: string, t: nat, root: Hash)
    requires Topped(c, f, t, root) && PeerSettled(c, g, f, t)
    ensures g.remote.merkleRoot == root
  {
    SettledInclined(c, f, t, root, g.base.pulls[g.k].peers[g.q]);
  }

  /** Two nodes: one is settled, and the other pulls from it without a failure. Then they agree when the pull is done,
      and until somebody publishes a change, whatever else went on meanwhile or goes on afterwards. */
  lemma TwoNodesAgree(env: Env, states: seq<Cluster>, events: seq<Event>, m: string, o: string, g: Course, f: string,
                      t: nat, root: Hash, a: nat, b: nat, later: nat)
    requires Run(env, states, events) && a <= b <= later < |states| && AllCalm(states, events, f, a, b)
    requires forall n | n in states[b].nodes :: n == m || n == o
    requires Topped(states[a], f, t, root) && IsSettled(states[a], m, f, t) && root != []
    requires SmoothPull(env, states, events, o, g, f, t, a, b) && Done(states[b], o, g.k)
    requires NoPublish(states, events, f, b, later)
    ensures Exchange.Agree(View(states[later], f))
  {
    ToppedStays(env, states, events, f, t, root, a, b);
    SettledStays(env, states, events, f, t, root, m, a, b);
    SettledInclined(states[b], f, t, root, m);
    DoneInclined(env, states, events, o, g, f, t, root, a, b);
    UnanimousStays(env, states, events, f, root, b, later);
    UnanimousAgree(states[later], f, root);
  }
}
