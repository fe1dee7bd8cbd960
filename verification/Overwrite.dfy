/** Runs in which a pull overwrites something newer: an older version from the first listed holder, and a local write
    that happened while the pull was running. */
module Overwrite {
  import opened Base
  import opened Control
  import opened Protocol
  import opened Integrity
  import opened Safety
  import opened Runs
  import opened Progress
  import opened Rounds
  import opened Writes
  import opened Outcome
  import Exchange

  // ---- An older version from the first listed holder ----

  /** Told of a newer version by a third node, a node ends up with the older version of another, its first listed
      peer, in whatever faultless way the exchange goes. */
  lemma TimestampFalls(env: Env, nodes: set<string>, me: string, other: string, third: string, peers: Exchange.Peers,
                       f: string, x: Bytes, y: Bytes)
    returns (c: Cluster, done: Talk, after: Cluster)
    requires me in nodes && other in nodes && third in nodes && me != other && other != third && third != me
    requires me in peers && peers[me] == [other, third]
    requires !HasDbExt(f) && TwoContents(env, f, x, y)
    ensures Reached(env, c) && Idle(c, f) && c.nodes.Keys == nodes
    ensures me in c.nodes && Local(c.nodes[me], f) == Some(Version(env, f, y, 2))
    ensures AlwaysTakes(env, peers, f, me, third, c, Version(env, f, x, 1))
    ensures ExchangeRun(env, peers, f, me, third, done, c, after)
  {
    c := ThreeVersions(env, nodes, me, other, third, f, x, y);
    ReachedInv(env, c);
    OlderAlways(env, me, other, third, peers, c, f, x, y);
    done, after := SomeExchange(env, c, peers, me, third, f);
  }

  ghost predicate Three(env: Env, me: string, other: string, third: string, c: Cluster, f: string, x: Bytes, y: Bytes) {
    && me in c.nodes && other in c.nodes && third in c.nodes
    && Local(c.nodes[me], f) == Some(Version(env, f, y, 2)) && Local(c.nodes[other], f) == Some(Version(env, f, x, 1))
    && Local(c.nodes[third], f) == Some(Version(env, f, x, 3))
  }

  lemma Lists(me: string, other: string, third: string, peers: Exchange.Peers)
    requires me != other && third != me && me in peers && peers[me] == [other, third]
    ensures Listing(peers, me, third)
  {
    assert peers[me][1] == third;
  }

  lemma OlderAlways(env: Env, me: string, other: string, third: string, peers: Exchange.Peers, c: Cluster, f: string,
                    x: Bytes, y: Bytes)
    requires ClusterInv(env, c) && Idle(c, f) && !HasDbExt(f) && TwoContents(env, f, x, y)
    requires me != other && other != third && third != me && Three(env, me, other, third, c, f, x, y)
    requires me in peers && peers[me] == [other, third]
    ensures Listing(peers, me, third) && AlwaysTakes(env, peers, f, me, third, c, Version(env, f, x, 1))
  {
    OlderTaken(env, me, other, third, peers, c, f, x, y);
    Lists(me, other, third, peers);
    EveryWayTakes(env, c, peers, me, third, f, Version(env, f, x, 1));
  }

  /** In whatever faultless way node i exchanges with node j here, it ends up with this version. */
  ghost predicate AlwaysTakes(env: Env, peers: Exchange.Peers, f: string, i: string, j: string, c: Cluster,
                              v: FileMeta) {
    forall talk, c' | ExchangeRun(env, peers, f, i, j, talk, c, c') :: i in c'.nodes && Local(c'.nodes[i], f) == Some(v)
  }

  lemma EveryWayTakes(env: Env, c: Cluster, peers: Exchange.Peers, i: string, j: string, f: string, v: FileMeta)
    requires ClusterInv(env, c) && Idle(c, f) && !HasDbExt(f) && Listing(peers, i, j) && i in c.nodes && j in c.nodes
    requires Exchange.Step(Exchange.FromList(peers), View(c, f), i, j)[i] == Some(v)
    ensures AlwaysTakes(env, peers, f, i, j, c, v)
  {
    forall talk, c' | ExchangeRun(env, peers, f, i, j, talk, c, c')
      ensures i in c'.nodes && Local(c'.nodes[i], f) == Some(v)
    {
      var _ := EveryExchange(env, c, peers, i, j, f, talk, c');
      assert View(c', f)[i] == Local(c'.nodes[i], f);
    }
  }

  lemma OlderTaken(env: Env, me: string, other: string, third: string, peers: Exchange.Peers, c: Cluster, f: string,
                   x: Bytes, y: Bytes)
    requires me != other && other != third && third != me && TwoContents(env, f, x, y)
    requires me in peers && peers[me] == [other, third] && Three(env, me, other, third, c, f, x, y)
    ensures Exchange.Step(Exchange.FromList(peers), View(c, f), me, third)[me] == Some(Version(env, f, x, 1))
  {
    var s := View(c, f);
    assert s[me] == Local(c.nodes[me], f) && s[other] == Local(c.nodes[other], f) &&
           s[third] == Local(c.nodes[third], f);
    assert Version(env, f, x, 1).merkleRoot == Version(env, f, x, 0).merkleRoot == Version(env, f, x, 3).merkleRoot;
    assert Version(env, f, y, 2).merkleRoot == Version(env, f, y, 0).merkleRoot;
    assert Exchange.Starts(s, me, third);
    assert Exchange.FirstHolder([other, third], s) == Some(other);
  }

  /** The other node has written once, this one twice, the third three times. */
  lemma ThreeVersions(env: Env, nodes: set<string>, me: string, other: string, third: string, f: string, x: Bytes,
                      y: Bytes)
    returns (c: Cluster)
    requires me in nodes && other in nodes && third in nodes && me != other && other != third && third != me
    requires !HasDbExt(f) && TwoContents(env, f, x, y)
    ensures Reached(env, c) && Idle(c, f) && c.nodes.Keys == nodes && Three(env, me, other, third, c, f, x, y)
  {
    var v, w := Version(env, f, x, 1), Version(env, f, y, 2);
    var e2, c2 := WriteTwice(env, nodes, {me, third}, f, x, y);
    forall n | n in c2.nodes ensures f !in c2.nodes[n].syncing {
      assert n in {me, third} || RestsAt(c2.nodes[n], f, Some(v), 1);
    }
    assert RestsAt(c2.nodes[me], f, Some(w), 2) && RestsAt(c2.nodes[third], f, Some(w), 2);
    assert RestsAt(c2.nodes[other], f, Some(v), 1);
    var e3;
    e3, c := OnceMore(env, c2, third, f, x, w);
    LeadsJoin(env, Blank(nodes), e2, c2, e3, c);
    LeadsReached(env, nodes, e2 + e3, c);
  }

  lemma OnceMore(env: Env, c: Cluster, i: string, f: string, x: Bytes, w: FileMeta)
    returns (events: seq<Event>, c': Cluster)
    requires i in c.nodes && RestsAt(c.nodes[i], f, Some(w), 2) && !HasDbExt(f) && InWorld(env, x) && Idle(c, f)
    requires w.merkleRoot != Version(env, f, x, 0).merkleRoot
    ensures Leads(env, c, events, c') && c'.nodes.Keys == c.nodes.Keys && Idle(c', f)
    ensures Local(c'.nodes[i], f) == Some(Version(env, f, x, 3))
    ensures forall n | n in c.nodes && n != i :: c'.nodes[n] == c.nodes[n]
  {
    events, c' := AllWrite(env, c, {i}, f, x, Some(w), 2);
    assert RestsAt(c'.nodes[i], f, Some(Version(env, f, x, 3)), 3);
  }

  // ---- A lost local write ----

  ghost function First(env: Env, f: string, x: Bytes): FileMeta {
    Version(env, f, x, 1)
  }

  /** On all further nodes nothing has happened. */
  ghost predicate OthersBlank(c: Cluster, me: string, other: string) {
    me in c.nodes && other in c.nodes && forall n | n in c.nodes && n != me && n != other :: c.nodes[n] == BlankNode()
  }

  /** One node is about to fetch the other's version; it has none of its own. */
  ghost predicate AboutToFetch(env: Env, me: string, other: string, c: Cluster, f: string, x: Bytes) {
    && OthersBlank(c, me, other) && ClusterInv(env, c)
    && RestsAt(c.nodes[other], f, Some(First(env, f, x)), 1)
    && var a, v := c.nodes[me], First(env, f, x);
       && a.pulls == map[0 := Pull(f, [other], Planned(v, Missing(v.chunkHashes, [])))]
       && f !in a.meta && a.clock == 1 && a.ingests == map[]
  }

  /** Only the other node has written. */
  ghost predicate OneWrote(env: Env, me: string, other: string, c: Cluster, f: string, x: Bytes) {
    && OthersBlank(c, me, other) && ClusterInv(env, c) && c.nodes[me] == BlankNode()
    && RestsAt(c.nodes[other], f, Some(First(env, f, x)), 1)
  }

  lemma FirstWritten(env: Env, nodes: set<string>, me: string, other: string, f: string, x: Bytes)
    returns (events: seq<Event>, c: Cluster)
    requires me in nodes && other in nodes && me != other
    requires !HasDbExt(f) && InWorld(env, x)
    ensures Leads(env, Blank(nodes), events, c) && OneWrote(env, me, other, c, f, x) && WriteOnly(x, events)
  {
    events, c := OneWrites(env, nodes, other, f, x);
    LeadsReached(env, nodes, events, c);
    ReachedInv(env, c);
  }

  lemma OneWrites(env: Env, nodes: set<string>, other: string, f: string, x: Bytes)
    returns (events: seq<Event>, c: Cluster)
    requires other in nodes && !HasDbExt(f) && InWorld(env, x)
    ensures Leads(env, Blank(nodes), events, c) && c.nodes.Keys == nodes && NoRestart(events) && WriteOnly(x, events)
    ensures RestsAt(c.nodes[other], f, Some(First(env, f, x)), 1)
    ensures forall n | n in nodes && n != other :: c.nodes[n] == BlankNode()
  {
    var start := Blank(nodes);
    assert RestsAt(start.nodes[other], f, None, 0);
    events, c := AllWrite(env, start, {other}, f, x, None, 0);
    forall n | n in nodes && n != other ensures c.nodes[n] == BlankNode() {
      assert c.nodes[n] == start.nodes[n];
    }
  }

  ghost function Claiming(f: string, other: string): Node {
    BlankNode().(clock := 1, syncing := {f}, pulls := map[0 := Pull(f, [other], Claimed)])
  }

  /** The first node hears of it. */
  lemma HearsOfIt(env: Env, me: string, other: string, c: Cluster, f: string, x: Bytes)
    returns (events: seq<Event>, hints: set<Hint>)
    requires me != other
    requires OneWrote(env, me, other, c, f, x) && !HasDbExt(f)
    ensures Leads(env, c, events, With(c, me, Claiming(f, other), hints))
    ensures (forall e | e in events :: !e.action.UserWrite?)
    ensures ReadyToPull(env, With(c, me, Claiming(f, other), hints), map[me := [other]], me, f, 0, 0)
  {
    var m := c.nodes[other].meta[f];
    assert m == First(env, f, x);
    var hint := Listed(f, m.merkleRoot, m.lamportTs, other);
    hints := c.hints + {hint};
    assert ReconcileEntry(me, BlankNode(), hint, 0, [other]) == Claiming(f, other);
    assert Heard(c, me, other, f, 0, [other]) == With(c, me, Claiming(f, other), hints);
    events := HeardLeads(env, c, me, other, f, 0, [other]);
    assert Idle(c, f);
    var q := HeardReady(env, c, map[me := [other]], me, other, f, 0);
  }

  lemma PlannedPhase(g: Course, node: Node)
    requires OnTrack(g, node) && !InSync(g) && Left(g, node.pulls[g.k].phase) == Rest(g)
    ensures node == Move(g.base, g.k, Planned(g.remote, Wanted(g)))
  {
    match node.pulls[g.k].phase
    case Fetching(_, order, workers) => FetchingIsLater(g, order, workers, node.cas);
    case _ =>
  }

  lemma FetchingIsLater(g: Course, order: seq<Hash>, workers: seq<Worker>, cas: map<Hash, Bytes>)
    requires WorkersOk(g, order, workers, cas)
    ensures RunningIn(workers) <= |Wanted(g)|
  {
    RunningAtMost(workers);
    assert |multiset(order)| == |multiset(Wanted(g))|;
  }

  lemma {:induction false} RunningAtMost(workers: seq<Worker>)
    ensures RunningIn(workers) <= |workers|
  {
    if workers != [] {
      RunningAtMost(workers[1..]);
    }
  }

  /** A claimed pull that will not find itself in sync can go on until it has the holder's metadata. */
  lemma ToPlanned(env: Env, c: Cluster, i: string, k: nat, q: nat) returns (acts: seq<Action>, hints: set<Hint>)
    requires ClusterInv(env, c) && i in c.nodes && k in c.nodes[i].pulls
    requires c.nodes[i].pulls[k].phase == Claimed && i !in c.nodes[i].pulls[k].peers
    requires FirstWith(c, c.nodes[i].pulls[k].peers, c.nodes[i].pulls[k].file, q) && !InSync(CourseOf(c, i, k, q))
    ensures var g := CourseOf(c, i, k, q);
      Leads(env, c, EventsOf(i, acts), With(c, i, Move(g.base, k, Planned(g.remote, Wanted(g))), hints))
    ensures OnlyPulls(EventsOf(i, acts))
  {
    ClaimedOnTrack(env, c, i, k, q);
    var g := CourseOf(c, i, k, q);
    assert With(c, i, g.base, c.hints) == c by { assert c.nodes[i := g.base] == c.nodes; }
    var c';
    acts, c' := SomeWay(env, c, i, g, g.base, c.hints, Rest(g));
    var node;
    node, hints := EveryWay(env, c, i, g, g.base, c.hints, acts, c');
    PlannedPhase(g, node);
    FaultlessLeads(env, i, k, c, acts, c');
    PullsOnly(env, i, k, c, acts, c');
  }

  /** No restart and no edit. */
  ghost predicate OnlyPulls(events: seq<Event>) {
    forall e | e in events :: !e.action.Restart? && !e.action.UserWrite?
  }

  lemma {:induction false} PullsOnly(env: Env, i: string, k: nat, c: Cluster, acts: seq<Action>, c': Cluster)
    requires Reach(FaultlessOf(env, i, k), c, acts, c')
    ensures OnlyPulls(EventsOf(i, acts))
    decreases |acts|
  {
    if acts != [] {
      PullsOnly(env, i, k, Protocol.Step(env, c, i, acts[0]), acts[1..], c');
    }
  }

  ghost function AboutTo(env: Env, me: string, other: string, f: string, x: Bytes): Node {
    var v := First(env, f, x);
    Claiming(f, other).(pulls := map[0 := Pull(f, [other], Planned(v, Missing(v.chunkHashes, [])))])
  }

  lemma PlansFetch(env: Env, me: string, other: string, c: Cluster, f: string, x: Bytes)
    returns (acts: seq<Action>, hints: set<Hint>)
    requires me != other
    requires ReadyToPull(env, c, map[me := [other]], me, f, 0, 0) && c.nodes[me] == Claiming(f, other)
    requires other in c.nodes && Local(c.nodes[other], f) == Some(First(env, f, x))
    ensures Leads(env, c, EventsOf(me, acts), With(c, me, AboutTo(env, me, other, f, x), hints))
    ensures OnlyPulls(EventsOf(me, acts))
  {
    acts, hints := ToPlanned(env, c, me, 0, 0);
    PlannedNode(env, me, other, c, f, x);
  }

  lemma PlannedNode(env: Env, me: string, other: string, c: Cluster, f: string, x: Bytes)
    requires me in c.nodes && c.nodes[me] == Claiming(f, other)
    requires other in c.nodes && Local(c.nodes[other], f) == Some(First(env, f, x))
    requires FirstWith(c, [other], f, 0)
    ensures var g := CourseOf(c, me, 0, 0);
      Move(g.base, 0, Planned(g.remote, Wanted(g))) == AboutTo(env, me, other, f, x)
  {
  }

  lemma ReachesFetch(env: Env, nodes: set<string>, me: string, other: string, f: string, x: Bytes)
    returns (events: seq<Event>, c: Cluster)
    requires me in nodes && other in nodes && me != other
    requires !HasDbExt(f) && InWorld(env, x)
    ensures Leads(env, Blank(nodes), events, c) && AboutToFetch(env, me, other, c, f, x) && WriteOnly(x, events)
  {
    var claimed, c2 := ReachesClaim(env, nodes, me, other, f, x);
    var acts, hints := PlansFetch(env, me, other, c2, f, x);
    c := With(c2, me, AboutTo(env, me, other, f, x), hints);
    LeadsJoin(env, Blank(nodes), claimed, c2, EventsOf(me, acts), c);
    events := claimed + EventsOf(me, acts);
    LeadsKeepsInv(env, c2, EventsOf(me, acts), c);
  }

  lemma ReachesClaim(env: Env, nodes: set<string>, me: string, other: string, f: string, x: Bytes)
    returns (events: seq<Event>, c: Cluster)
    requires me in nodes && other in nodes && me != other && !HasDbExt(f) && InWorld(env, x)
    ensures Leads(env, Blank(nodes), events, c) && OthersBlank(c, me, other) && c.nodes[me] == Claiming(f, other)
    ensures WriteOnly(x, events)
    ensures RestsAt(c.nodes[other], f, Some(First(env, f, x)), 1)
    ensures ReadyToPull(env, c, map[me := [other]], me, f, 0, 0)
  {
    var wrote, c1 := FirstWritten(env, nodes, me, other, f, x);
    var heard, hints := HearsOfIt(env, me, other, c1, f, x);
    c := With(c1, me, Claiming(f, other), hints);
    LeadsJoin(env, Blank(nodes), wrote, c1, heard, c);
    events := wrote + heard;
  }

  /** It publishes the second content while its pull is about to fetch the first. */
  ghost function WroteMeanwhile(env: Env, me: string, c: Cluster, f: string, y: Bytes, hints: set<Hint>): Cluster
    requires me in c.nodes
  {
    With(c, me, Wrote(env, c.nodes[me], f, y), hints)
  }

  /** The pull goes on as if nothing had happened. */
  lemma FinishesAnyway(env: Env, me: string, other: string, c: Cluster, f: string, x: Bytes, y: Bytes, hints: set<Hint>)
    returns (acts: seq<Action>, c': Cluster)
    requires me != other
    requires AboutToFetch(env, me, other, c, f, x)
    ensures Leads(env, WroteMeanwhile(env, me, c, f, y, hints), EventsOf(me, acts), c')
    ensures OthersBlank(c', me, other) && c'.nodes[other] == c.nodes[other]
    ensures Local(c'.nodes[me], f) == Some(First(env, f, x)) && c'.nodes[me].pulls == map[]
    ensures f in c'.nodes[me].pristine
  {
    var g := Course(Wrote(env, c.nodes[me], f, y), 0, None, 0, First(env, f, x));
    StillOnTrack(env, me, other, c, f, x, y, hints);
    var node, hints';
    acts, node, hints' := FinishFrom(env, WroteMeanwhile(env, me, c, f, y, hints), me, g);
    c' := With(WroteMeanwhile(env, me, c, f, y, hints), me, node, hints');
    assert c'.nodes[me] == node;
    EndsWithFirst(g, node);
  }

  lemma EndsWithFirst(g: Course, node: Node)
    requires g.k in g.base.pulls && Ends(g, node) && !InSync(g) && g.base.pulls.Keys == {g.k}
    ensures Local(node, FileOf(g)) == Some(g.remote) && node.pulls == map[] && FileOf(g) in node.pristine
  {
    assert g.base.pulls - {g.k} == map[];
  }

  /** From a point on the way, with the node as it is there, to the end of the pull. */
  lemma FinishFrom(env: Env, d: Cluster, i: string, g: Course) returns (acts: seq<Action>, node: Node, hints: set<Hint>)
    requires i in d.nodes && d.nodes[i] == g.base && OnTrack(g, g.base) && Holder(env, d, i, g)
    ensures Leads(env, d, EventsOf(i, acts), With(d, i, node, hints)) && Ends(g, node)
  {
    assert With(d, i, g.base, d.hints) == d by { assert d.nodes[i := g.base] == d.nodes; }
    var c';
    acts, c' := SomeWay(env, d, i, g, g.base, d.hints, 0);
    node, hints := EveryWay(env, d, i, g, g.base, d.hints, acts, c');
    FaultlessLeads(env, i, g.k, d, acts, c');
  }

  lemma StillOnTrack(env: Env, me: string, other: string, c: Cluster, f: string, x: Bytes, y: Bytes, hints: set<Hint>)
    requires me != other
    requires AboutToFetch(env, me, other, c, f, x)
    ensures var g := Course(Wrote(env, c.nodes[me], f, y), 0, None, 0, First(env, f, x));
      OnTrack(g, g.base) && !InSync(g) && Holder(env, WroteMeanwhile(env, me, c, f, y, hints), me, g)
  {
    var g := Course(Wrote(env, c.nodes[me], f, y), 0, None, 0, First(env, f, x));
    assert NodeInv(env, c.nodes[other]) && Stored(env, c.nodes[other].cas, f, c.nodes[other].meta[f]);
    assert g.base.pulls[0 := g.base.pulls[0]] == g.base.pulls;
  }

  lemma NotPresent(env: Env, me: string, other: string, c: Cluster, f: string, x: Bytes, y: Bytes)
    requires me != other
    requires OthersBlank(c, me, other) && TwoContents(env, f, x, y)
    requires c.nodes[me].pulls == map[] && Local(c.nodes[me], f) == Some(First(env, f, x))
    requires c.nodes[other].pulls == map[] && Local(c.nodes[other], f) == Some(First(env, f, x))
    ensures !Present(c, f, Version(env, f, y, 2))
  {
    forall n | n in c.nodes ensures !NodeHas(c.nodes[n], f, Version(env, f, y, 2)) {
      assert First(env, f, x).lamportTs == 1;
    }
  }

  /** A local write is lost: in any cluster of two or more nodes there is a run in which a node publishes and announces
      its own change at timestamp 2 while a pull is running, and in whose last state it has the other content at
      timestamp 1, in the index and on disk, and no node holds the published version any more. By
      `Safety.NoVersionInvented` none ever will again until somebody publishes a change of the file. */
  lemma LostLocalWrite(env: Env, nodes: set<string>, me: string, other: string, f: string, x: Bytes, y: Bytes)
    returns (states: seq<Cluster>, events: seq<Event>, t: nat)
    requires me in nodes && other in nodes && me != other
    requires !HasDbExt(f) && TwoContents(env, f, x, y)
    ensures Run(env, states, events) && t <= |events|
    ensures me in states[t].nodes && Local(states[t].nodes[me], f) == Some(Version(env, f, y, 2))
    ensures Announced(f, Version(env, f, y, 2).merkleRoot, 2, me) in states[t].hints
    ensures var end := states[|events|];
      && me in end.nodes && Local(end.nodes[me], f) == Some(Version(env, f, x, 1)) && OnDisk(end.nodes[me], f)
      && !Present(end, f, Version(env, f, y, 2))
  {
    var first, d, rest, c' := WritesMeanwhile(env, nodes, me, other, f, x, y);
    states := LeadsVia(env, Blank(nodes), first, d, rest, c');
    events, t := first + rest, |first|;
    RunInv(env, states, events, |events|);
    assert NodeInv(env, c'.nodes[me]);
  }

  lemma WritesNow(env: Env, me: string, other: string, c: Cluster, f: string, x: Bytes, y: Bytes)
    returns (events: seq<Event>, hints: set<Hint>)
    requires me != other && !HasDbExt(f) && InWorld(env, y) && AboutToFetch(env, me, other, c, f, x)
    ensures var d := WroteMeanwhile(env, me, c, f, y, hints);
      && Leads(env, c, events, d) && me in d.nodes && Local(d.nodes[me], f) == Some(Version(env, f, y, 2))
      && Announced(f, Version(env, f, y, 2).merkleRoot, 2, me) in d.hints
  {
    events, hints := WriteLeads(env, c, me, f, y);
  }

  lemma WritesMeanwhile(env: Env, nodes: set<string>, me: string, other: string, f: string, x: Bytes, y: Bytes)
    returns (first: seq<Event>, d: Cluster, rest: seq<Event>, c': Cluster)
    requires me in nodes && other in nodes && me != other
    requires !HasDbExt(f) && TwoContents(env, f, x, y)
    ensures Leads(env, Blank(nodes), first, d) && Leads(env, d, rest, c')
    ensures me in d.nodes && Local(d.nodes[me], f) == Some(Version(env, f, y, 2))
    ensures Announced(f, Version(env, f, y, 2).merkleRoot, 2, me) in d.hints
    ensures me in c'.nodes && Local(c'.nodes[me], f) == Some(Version(env, f, x, 1)) && f in c'.nodes[me].pristine
    ensures !Present(c', f, Version(env, f, y, 2))
  {
    var before, c := ReachesFetch(env, nodes, me, other, f, x);
    var wrote, hints := WritesNow(env, me, other, c, f, x, y);
    d := WroteMeanwhile(env, me, c, f, y, hints);
    LeadsJoin(env, Blank(nodes), before, c, wrote, d);
    first := before + wrote;
    var acts;
    acts, c' := FinishesAnyway(env, me, other, c, f, x, y, hints);
    rest := EventsOf(me, acts);
    assert RestsAt(c'.nodes[other], f, Some(First(env, f, x)), 1);
    NotPresent(env, me, other, c', f, x, y);
  }

  /** Two stretches, one after the other, as one sequence of states. */
  lemma LeadsVia(env: Env, c: Cluster, a: seq<Event>, d: Cluster, b: seq<Event>, e: Cluster)
    returns (states: seq<Cluster>)
    requires Leads(env, c, a, d) && Leads(env, d, b, e)
    ensures Steps(env, states, a + b) && states[0] == c && states[|a|] == d && states[|a + b|] == e
  {
    var s := LeadsIsSteps(env, c, a, d);
    var r := LeadsIsSteps(env, d, b, e);
    states := StepsJoin(env, s, a, r, b);
  }

  lemma StepsJoin(env: Env, s: seq<Cluster>, a: seq<Event>, r: seq<Cluster>, b: seq<Event>)
    returns (states: seq<Cluster>)
    requires Steps(env, s, a) && Steps(env, r, b) && s[|a|] == r[0]
    ensures Steps(env, states, a + b)
    ensures (forall i | 0 <= i <= |a| :: states[i] == s[i]) && (forall i | 0 <= i <= |b| :: states[|a| + i] == r[i])
  {
    states := s + r[1..];
    forall i | 0 <= i < |a + b|
      ensures Taken(env, states, a + b, i)
    {
      if i < |a| {
        assert Taken(env, s, a, i);
        assert (a + b)[i] == a[i] && states[i] == s[i] && states[i + 1] == s[i + 1];
      } else {
        assert Taken(env, r, b, i - |a|);
        assert (a + b)[i] == b[i - |a|] && states[i] == r[i - |a|] && states[i + 1] == r[i + 1 - |a|];
      }
    }
  }
}
