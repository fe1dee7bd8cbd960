/** The convergence results as statements about runs of the protocol from its initial states. */
module Outcome {
  import opened Base
  import opened Protocol
  import opened Integrity
  import opened Runs
  import opened Rounds
  import opened Writes
  import Content
  import Exchange
  import FirstPeer

  /** Some run ends here. */
  ghost predicate Reached(env: Env, c: Cluster) {
    exists states, events :: Run(env, states, events) && states[|events|] == c
  }

  lemma ReachedInv(env: Env, c: Cluster)
    requires Reached(env, c)
    ensures ClusterInv(env, c)
  {
    var states, events :| Run(env, states, events) && states[|events|] == c;
    RunInv(env, states, events, |events|);
  }

  lemma LeadsReached(env: Env, nodes: set<string>, events: seq<Event>, c: Cluster)
    requires Leads(env, Blank(nodes), events, c)
    ensures Reached(env, c)
  {
    var states := LeadsIsSteps(env, Blank(nodes), events, c);
    assert Run(env, states, events);
  }

  /** When the first-listed peers form one ring, n * n + 1 complete rounds from any idle cluster in order, their
      exchanges in any order and their pulls gone through in any faultless way, end with one root everywhere. */
  lemma RingRunAgrees(env: Env, c: Cluster, peers: Exchange.Peers, f: string, rounds: seq<seq<(string, string)>>,
                      talks: seq<Talk>, c': Cluster)
    requires ClusterInv(env, c) && Idle(c, f) && !HasDbExt(f)
    requires FirstPeer.FullLists(c.nodes.Keys, peers) && FirstPeer.OneRing(c.nodes.Keys, peers)
    requires Exchange.AllComplete(c.nodes.Keys, rounds) && |rounds| >= |c.nodes.Keys| * |c.nodes.Keys| + 1
    requires RoundRun(env, peers, f, Exchange.Flatten(rounds), talks, c, c')
    ensures ClusterInv(env, c') && Exchange.Agree(View(c', f))
  {
    var _ := EveryRounds(env, c, peers, f, rounds, talks, c');
    FirstPeer.OneRingConverges(c.nodes.Keys, peers, View(c, f), rounds);
  }

  /** And, where roots tell chunk lists apart, with one content everywhere. */
  lemma RingRunContent(env: Env, c: Cluster, peers: Exchange.Peers, f: string, rounds: seq<seq<(string, string)>>,
                       talks: seq<Talk>, c': Cluster, n: nat) returns (content: Bytes)
    requires ClusterInv(env, c) && Idle(c, f) && !HasDbExt(f)
    requires FirstPeer.FullLists(c.nodes.Keys, peers) && FirstPeer.OneRing(c.nodes.Keys, peers)
    requires Exchange.AllComplete(c.nodes.Keys, rounds) && |rounds| >= |c.nodes.Keys| * |c.nodes.Keys| + 1
    requires RoundRun(env, peers, f, Exchange.Flatten(rounds), talks, c, c')
    requires ValidEnv(env) && NoCollisions(env) && Content.RootsTell(env, n) && Content.AllShort(c', f, n)
    ensures Content.AllHave(env, c', f, content)
  {
    RingRunAgrees(env, c, peers, f, rounds, talks, c');
    content := Content.AgreementIsContent(env, c', f, n);
  }

  // ---- With lists as they come ----

  /** Whatever lists the nodes have at each exchange, and in whatever faultless way their pulls are gone through: if the
      greatest timestamp has one root, and every node has the newest version at some time or once starts a sync
      while its first listed holder has it, all roots end up equal. */
  lemma NewestSpreadsInRuns(env: Env, c: Cluster, f: string, ms: seq<Exchange.Meeting>, talks: seq<Talk>, c': Cluster,
                            t: nat, root: Hash)
    requires ClusterInv(env, c) && Idle(c, f) && !HasDbExt(f) && AllListed(ms) && Exchange.Among(View(c, f), ms)
    requires Exchange.OneNewest(View(c, f), t, root)
    requires forall n | n in c.nodes :: Exchange.GetsIt(View(c, f), ms, n, t, root)
    requires MeetRun(env, f, ms, talks, c, c')
    ensures ClusterInv(env, c') && Exchange.Agree(View(c', f))
  {
    var _ := EveryMeeting(env, c, f, ms, talks, c');
    Exchange.NewestSpreads(View(c, f), ms, t, root);
  }

  // ---- Without one ring ----

  /** Two contents the nodes can write one after the other. */
  ghost predicate TwoContents(env: Env, f: string, x: Bytes, y: Bytes) {
    InWorld(env, x) && InWorld(env, y) && Version(env, f, x, 0).merkleRoot != Version(env, f, y, 0).merkleRoot
  }

  /** A divided cluster is within reach: all nodes write the first content, then those outside the group the second. */
  lemma DividedCluster(env: Env, nodes: set<string>, group: set<string>, f: string, x: Bytes, y: Bytes)
    returns (c: Cluster)
    requires group <= nodes && !HasDbExt(f) && TwoContents(env, f, x, y)
    ensures Reached(env, c) && Idle(c, f) && c.nodes.Keys == nodes
    ensures View(c, f) == FirstPeer.Split(nodes, group, Version(env, f, x, 1), Version(env, f, y, 2))
  {
    var events;
    events, c := WriteTwice(env, nodes, nodes - group, f, x, y);
    forall n | n in nodes && n !in group ensures RestsAt(c.nodes[n], f, Some(Version(env, f, y, 2)), 2) {
      assert n in nodes - group;
    }
    LeadsReached(env, nodes, events, c);
    SplitView(c, nodes, group, f, Version(env, f, x, 1), Version(env, f, y, 2));
  }

  /** All nodes write the first content, then some of them the second. */
  lemma WriteTwice(env: Env, nodes: set<string>, some: set<string>, f: string, x: Bytes, y: Bytes)
    returns (events: seq<Event>, c: Cluster)
    requires some <= nodes && !HasDbExt(f) && TwoContents(env, f, x, y)
    ensures Leads(env, Blank(nodes), events, c) && c.nodes.Keys == nodes
    ensures forall n | n in some :: RestsAt(c.nodes[n], f, Some(Version(env, f, y, 2)), 2)
    ensures forall n | n in nodes && n !in some :: RestsAt(c.nodes[n], f, Some(Version(env, f, x, 1)), 1)
  {
    var first, c1 := AllWrite(env, Blank(nodes), nodes, f, x, None, 0);
    var v := Some(Version(env, f, x, 1));
    assert v.value.merkleRoot == Version(env, f, x, 0).merkleRoot;
    var second;
    second, c := AllWrite(env, c1, some, f, y, v, 1);
    LeadsJoin(env, Blank(nodes), first, c1, second, c);
    events := first + second;
    forall n | n in nodes && n !in some ensures RestsAt(c.nodes[n], f, v, 1) {
      assert c.nodes[n] == c1.nodes[n];
    }
  }

  lemma SplitView(c: Cluster, nodes: set<string>, group: set<string>, f: string, v: FileMeta, w: FileMeta)
    requires c.nodes.Keys == nodes && group <= nodes
    requires forall n | n in group :: RestsAt(c.nodes[n], f, Some(v), 1)
    requires forall n | n in nodes && n !in group :: RestsAt(c.nodes[n], f, Some(w), 2)
    ensures Idle(c, f) && View(c, f) == FirstPeer.Split(nodes, group, v, w)
  {
    forall n | n in nodes
      ensures f !in c.nodes[n].syncing && Local(c.nodes[n], f) == Some(if n in group then v else w) {
    }
  }

  /** If the first-listed peers do not form one ring, there is a run after which the cluster is divided and stays
      divided, through any complete rounds, in whatever faultless way they are gone through. */
  lemma NoRingDiverges(env: Env, nodes: set<string>, peers: Exchange.Peers, f: string, x: Bytes, y: Bytes)
    returns (c: Cluster)
    requires FirstPeer.FullLists(nodes, peers) && !FirstPeer.OneRing(nodes, peers) && !HasDbExt(f)
    requires TwoContents(env, f, x, y)
    ensures Reached(env, c) && Idle(c, f) && c.nodes.Keys == nodes
    ensures forall rounds, talks, c' |
      Exchange.AllComplete(nodes, rounds) && RoundRun(env, peers, f, Exchange.Flatten(rounds), talks, c, c') ::
      !Exchange.Agree(View(c', f))
  {
    var group: set<string> :| group <= nodes && group != {} && FirstPeer.Closed(peers, group) && group != nodes;
    var v, w := Version(env, f, x, 1), Version(env, f, y, 2);
    c := DividedCluster(env, nodes, group, f, x, y);
    ReachedInv(env, c);
    assert FirstPeer.Behind(v, w);
    FirstPeer.SplitIsBehind(nodes, group, v, w);
    forall rounds, talks, c' |
      Exchange.AllComplete(nodes, rounds) && RoundRun(env, peers, f, Exchange.Flatten(rounds), talks, c, c')
      ensures !Exchange.Agree(View(c', f))
    {
      var _ := EveryRounds(env, c, peers, f, rounds, talks, c');
      FirstPeer.GroupStaysBehind(View(c, f), peers, group, v, w.lamportTs, rounds);
    }
  }

  /** Three nodes, two of which list each other first, are enough. */
  lemma ThreeNodesDiverge(env: Env, f: string, x: Bytes, y: Bytes) returns (c: Cluster)
    requires !HasDbExt(f) && TwoContents(env, f, x, y)
    ensures Reached(env, c) && Idle(c, f) && c.nodes.Keys == {"a", "b", "c"}
    ensures var peers := map["a" := ["b", "c"], "b" := ["a", "c"], "c" := ["a", "b"]];
      forall rounds, talks, c' |
        Exchange.AllComplete({"a", "b", "c"}, rounds) &&
        RoundRun(env, peers, f, Exchange.Flatten(rounds), talks, c, c') ::
        !Exchange.Agree(View(c', f))
  {
    var nodes, group := {"a", "b", "c"}, {"a", "b"};
    var peers := map["a" := ["b", "c"], "b" := ["a", "c"], "c" := ["a", "b"]];
    assert |nodes| == 3;
    assert FirstPeer.FullLists(nodes, peers);
    assert FirstPeer.First(peers, "a") == "b" && FirstPeer.First(peers, "b") == "a";
    assert FirstPeer.Closed(peers, group) && group <= nodes && "c" !in group;
    c := NoRingDiverges(env, nodes, peers, f, x, y);
  }

  /** From every reachable idle cluster of these nodes, in whatever faultless way so many rounds are gone through,
      all roots end up equal. */
  ghost predicate RunsConverge(env: Env, nodes: set<string>, peers: Exchange.Peers, f: string, bound: nat) {
    forall c, rounds, talks, c' |
      && Reached(env, c) && c.nodes.Keys == nodes && Idle(c, f)
      && Exchange.AllComplete(nodes, rounds) && |rounds| >= bound
      && RoundRun(env, peers, f, Exchange.Flatten(rounds), talks, c, c') ::
      Exchange.Agree(View(c', f))
  }

  lemma NoBound(env: Env, nodes: set<string>, peers: Exchange.Peers, f: string, x: Bytes, y: Bytes, bound: nat)
    requires FirstPeer.FullLists(nodes, peers) && !FirstPeer.OneRing(nodes, peers) && !HasDbExt(f)
    requires TwoContents(env, f, x, y)
    ensures !RunsConverge(env, nodes, peers, f, bound)
  {
    var c := NoRingDiverges(env, nodes, peers, f, x, y);
    ReachedInv(env, c);
    var rounds := FirstPeer.ManyRounds(nodes, bound);
    Exchange.RoundsFlatten(Exchange.FromList(peers), View(c, f), rounds);
    var talks, c' := SomeRound(env, c, peers, f, Exchange.Flatten(rounds));
    assert !Exchange.Agree(View(c', f));
  }

  /** Main result, both directions, on runs from the initial states: with fixed peer lists the cluster converges,
      within n * n + 1 rounds or within any bound at all, exactly when the first-listed peers form one ring. */
  lemma RunsConvergeIffOneRing(env: Env, nodes: set<string>, peers: Exchange.Peers, f: string, x: Bytes, y: Bytes)
    requires FirstPeer.FullLists(nodes, peers) && !HasDbExt(f) && TwoContents(env, f, x, y)
    ensures FirstPeer.OneRing(nodes, peers) <==> RunsConverge(env, nodes, peers, f, |nodes| * |nodes| + 1)
    ensures FirstPeer.OneRing(nodes, peers) <==> exists bound :: RunsConverge(env, nodes, peers, f, bound)
  {
    if FirstPeer.OneRing(nodes, peers) {
      forall c, rounds, talks, c' |
        && Reached(env, c) && c.nodes.Keys == nodes && Idle(c, f)
        && Exchange.AllComplete(nodes, rounds) && |rounds| >= |nodes| * |nodes| + 1
        && RoundRun(env, peers, f, Exchange.Flatten(rounds), talks, c, c')
        ensures Exchange.Agree(View(c', f))
      {
        ReachedInv(env, c);
        RingRunAgrees(env, c, peers, f, rounds, talks, c');
      }
    } else {
      forall bound: nat ensures !RunsConverge(env, nodes, peers, f, bound) {
        NoBound(env, nodes, peers, f, x, y, bound);
      }
    }
  }
}
