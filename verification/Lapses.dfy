/** Runs in which a user's newest write is lost: the change is stamped too low, after a restart, out of order or after a
    pull the clock did not hear of; or something is taken in as a change that is none, an old content or one nobody
    wrote. */
module Lapses {
  import opened Base
  import opened Assembler
  import opened Protocol
  import opened Integrity
  import opened Runs
  import opened Progress
  import opened Rounds
  import opened Writes
  import opened Outcome
  import opened Overwrite
  import opened History
  import opened Changes
  import Exchange

  /** Where events lead from a reachable cluster is reachable. */
  lemma ReachedOn(env: Env, c: Cluster, events: seq<Event>, c': Cluster)
    requires Reached(env, c) && Leads(env, c, events, c')
    ensures Reached(env, c')
  {
    var s, e :| Run(env, s, e) && s[|e|] == c;
    var r := LeadsIsSteps(env, c, events, c');
    var states := StepsJoin(env, s, e, r, events);
    assert Run(env, states, e + events);
  }

  // ---- After a restart ----

  lemma RestartStep(env: Env, c: Cluster, i: string)
    requires i in c.nodes
    ensures Leads(env, c, [Event(i, Restart)], With(c, i, Restarted(c.nodes[i]), c.hints))
  {
    LeadsOne(env, c, i, Restart);
    assert c.hints + {} == c.hints;
  }

  /** The user writes again after the restart, and the clock starts over. */
  lemma WritesAfterRestart(env: Env, c: Cluster, me: string, f: string, x: Bytes, w: FileMeta)
    returns (events: seq<Event>, c': Cluster)
    requires me in c.nodes && RestsAt(c.nodes[me], f, Some(w), 2) && !HasDbExt(f) && InWorld(env, x)
    requires w.merkleRoot != Version(env, f, x, 0).merkleRoot
    ensures Leads(env, c, [Event(me, Restart)] + events, c') && OnlyWrites(me, events)
    ensures me in c'.nodes && c'.nodes == c.nodes[me := c'.nodes[me]]
    ensures c'.nodes[me].syncing == {} && Local(c'.nodes[me], f) == Some(Version(env, f, x, 1))
  {
    var c1 := With(c, me, Restarted(c.nodes[me]), c.hints);
    RestartStep(env, c, me);
    var hints;
    events, hints := WriteLeads(env, c1, me, f, x);
    c' := With(c1, me, Wrote(env, c1.nodes[me], f, x), hints);
    LeadsJoin(env, c, [Event(me, Restart)], c1, events, c');
  }

  /** A node that has an older version than all others takes theirs, whomever it asks. */
  lemma TakesTheirs(me: string, other: string, peers: Exchange.Peers, s: Exchange.Replicas, v: FileMeta, w: FileMeta)
    requires me in s && other in s && me != other && Listing(peers, me, other)
    requires s[me] == Some(v) && (forall n | n in s && n != me :: s[n] == Some(w))
    requires v.merkleRoot != w.merkleRoot && v.lamportTs < w.lamportTs
    ensures Exchange.Step(Exchange.FromList(peers), s, me, other)[me] == Some(w)
  {
    assert Exchange.Starts(s, me, other);
    assert other in peers[me] && s[other].Some?;
  }

  /** After a restart the newest write loses: in any cluster of two or more nodes there is a run in which a node that
      has a version of timestamp 2 restarts and its user writes once more, without any pull. The edit is stored at
      timestamp 1, below the version it was made on; and whomever the node then exchanges with, it ends up with
      that older version again. */
  lemma RestartLosesEdit(env: Env, nodes: set<string>, me: string, other: string, peers: Exchange.Peers, f: string,
                         x: Bytes, y: Bytes)
    returns (states: seq<Cluster>, events: seq<Event>, t: nat, done: Talk, after: Cluster)
    requires me in nodes && other in nodes && me != other && Listing(peers, me, other)
    requires !HasDbExt(f) && TwoContents(env, f, x, y)
    ensures Run(env, states, events) && t < |events| && events[t] == Event(me, Restart)
    ensures OnlyWrites(me, events[t + 1..])
    ensures me in states[t].nodes && Local(states[t].nodes[me], f) == Some(Version(env, f, y, 2))
    ensures var end := states[|events|];
      && me in end.nodes && Local(end.nodes[me], f) == Some(Version(env, f, x, 1))
      && AlwaysTakes(env, peers, f, me, other, end, Version(env, f, y, 2))
      && ExchangeRun(env, peers, f, me, other, done, end, after)
  {
    var first, c, rest, end := RestartsAndWrites(env, nodes, me, other, peers, f, x, y);
    states := LeadsVia(env, Blank(nodes), first, c, [Event(me, Restart)] + rest, end);
    events, t := first + ([Event(me, Restart)] + rest), |first|;
    assert events[t + 1..] == rest;
    done, after := ExchangeExists(env, end, me, other, peers, f);
  }

  lemma RestartsAndWrites(env: Env, nodes: set<string>, me: string, other: string, peers: Exchange.Peers, f: string,
                          x: Bytes, y: Bytes)
    returns (first: seq<Event>, c: Cluster, rest: seq<Event>, end: Cluster)
    requires me in nodes && other in nodes && me != other && Listing(peers, me, other)
    requires !HasDbExt(f) && TwoContents(env, f, x, y)
    ensures Leads(env, Blank(nodes), first, c) && Leads(env, c, [Event(me, Restart)] + rest, end)
    ensures OnlyWrites(me, rest)
    ensures me in c.nodes && Local(c.nodes[me], f) == Some(Version(env, f, y, 2)) && Reached(env, end) && Idle(end, f)
    ensures me in end.nodes && other in end.nodes && Local(end.nodes[me], f) == Some(Version(env, f, x, 1))
    ensures AlwaysTakes(env, peers, f, me, other, end, Version(env, f, y, 2))
  {
    var v, w := Version(env, f, x, 1), Version(env, f, y, 2);
    first, c := WriteTwice(env, nodes, nodes, f, x, y);
    assert RestsAt(c.nodes[me], f, Some(w), 2);
    assert w.merkleRoot == Version(env, f, y, 0).merkleRoot && v.merkleRoot == Version(env, f, x, 0).merkleRoot;
    rest, end := WritesAfterRestart(env, c, me, f, x, w);
    LeadsReached(env, nodes, first, c);
    ReachedOn(env, c, [Event(me, Restart)] + rest, end);
    EndsBehind(env, nodes, c, end, me, other, peers, f, v, w);
  }

  lemma EndsBehind(env: Env, nodes: set<string>, c: Cluster, end: Cluster, me: string, other: string,
                   peers: Exchange.Peers, f: string, v: FileMeta, w: FileMeta)
    requires c.nodes.Keys == nodes && me in nodes && other in nodes && me != other && Listing(peers, me, other)
    requires forall n | n in nodes :: RestsAt(c.nodes[n], f, Some(w), 2)
    requires me in end.nodes && end.nodes == c.nodes[me := end.nodes[me]]
    requires end.nodes[me].syncing == {} && Local(end.nodes[me], f) == Some(v)
    requires v.merkleRoot != w.merkleRoot && v.lamportTs < w.lamportTs && Reached(env, end) && !HasDbExt(f)
    ensures Idle(end, f) && AlwaysTakes(env, peers, f, me, other, end, w)
  {
    forall n | n in end.nodes ensures f !in end.nodes[n].syncing && (n != me ==> Local(end.nodes[n], f) == Some(w)) {
      assert n != me ==> RestsAt(c.nodes[n], f, Some(w), 2);
    }
    TakesTheirs(me, other, peers, View(end, f), v, w);
    ReachedInv(env, end);
    EveryWayTakes(env, end, peers, me, other, f, w);
  }

  // ---- Out of order ----

  /** From the edit to the stamp. */
  lemma StampLeads(env: Env, c: Cluster, i: string, f: string, content: Bytes, g: nat) returns (events: seq<Event>)
    requires i in c.nodes && !HasDbExt(f) && InWorld(env, content) && NotAssembling(c.nodes[i], f)
    requires g !in c.nodes[i].ingests && !Indexed(env, c.nodes[i], f, content)
    ensures Leads(env, c, events, With(c, i, ToPublish(env, c.nodes[i], f, content, g), c.hints))
    ensures OnlyWrites(i, events)
  {
    var node := c.nodes[i];
    var read := ReadLeads(env, c, i, f, content, g);
    var node1 := Edited(node, f, content, node.ingests[g := Read(f, content)]);
    var node2, node3 := CompareIngest(env, node1, g), ToPublish(env, node, f, content, g);
    var compared := read + [Event(i, IngestCompare(g))];
    CompareStep(env, With(c, i, node1, c.hints), i, g);
    LeadsWith(env, c, i, read, node1, c.hints, [Event(i, IngestCompare(g))], node2, c.hints);
    StampStep(env, With(c, i, node2, c.hints), i, g);
    LeadsWith(env, c, i, compared, node2, c.hints, [Event(i, IngestStamp(g))], node3, c.hints);
    events := compared + [Event(i, IngestStamp(g))];
  }

  ghost function ToPublish(env: Env, node: Node, f: string, content: Bytes, g: nat): Node {
    var read := Edited(node, f, content, node.ingests[g := Read(f, content)]);
    StampIngest(env, read.(ingests := read.ingests[g := Differs(f, content)]), g)
  }

  /** Two changes of one file, taken in at the same time, are published in the wrong order: without restart or pull
      the index ends at the first write, at timestamp 1, while the second is what is on disk. */
  lemma PublishedOutOfOrder(env: Env, nodes: set<string>, me: string, f: string, x: Bytes, y: Bytes)
    returns (states: seq<Cluster>, events: seq<Event>, t: nat)
    requires me in nodes && !HasDbExt(f) && TwoContents(env, f, x, y)
    ensures Run(env, states, events) && |events| == t + 1 && OnlyWrites(me, events)
    ensures me in states[t].nodes && Local(states[t].nodes[me], f) == Some(Version(env, f, y, 2))
    ensures var end := states[t + 1];
      && me in end.nodes && Local(end.nodes[me], f) == Some(Version(env, f, x, 1))
      && f in end.nodes[me].disk && end.nodes[me].disk[f] == y
  {
    var c := Blank(nodes);
    var first := StampLeads(env, c, me, f, x, 0);
    var node1 := ToPublish(env, BlankNode(), f, x, 0);
    var c1 := With(c, me, node1, c.hints);
    var second, c2, c3 := SecondFirst(env, c1, me, f, x, y);
    LeadsJoin(env, c, first, c1, second, c2);
    states := LeadsVia(env, c, first + second, c2, [Event(me, IngestPublish(0))], c3);
    events, t := first + second + [Event(me, IngestPublish(0))], |first + second|;
  }

  lemma SecondFirst(env: Env, c: Cluster, me: string, f: string, x: Bytes, y: Bytes)
    returns (events: seq<Event>, c1: Cluster, c2: Cluster)
    requires me in c.nodes && c.nodes[me] == ToPublish(env, BlankNode(), f, x, 0)
    requires !HasDbExt(f) && InWorld(env, y)
    ensures Leads(env, c, events, c1) && OnlyWrites(me, events) && Leads(env, c1, [Event(me, IngestPublish(0))], c2)
    ensures me in c1.nodes && Local(c1.nodes[me], f) == Some(Version(env, f, y, 2))
    ensures me in c2.nodes && Local(c2.nodes[me], f) == Some(Version(env, f, x, 1))
    ensures f in c2.nodes[me].disk && c2.nodes[me].disk[f] == y
  {
    var node := c.nodes[me];
    assert node.ingests[0] == Stamped(f, x, 1) && node.clock == 1 && node.meta == map[] && node.pulls == map[];
    var hints;
    events, hints := WriteLeads(env, c, me, f, y);
    c1 := With(c, me, Wrote(env, node, f, y), hints);
    var hints' := PublishStep(env, c1, me, 0);
    c2 := With(c1, me, PublishIngest(env, c1.nodes[me], 0), hints');
  }

  // ---- A pull the clock did not hear of ----

  /** A pull that is ready runs to its end. */
  lemma RunsThrough(env: Env, c: Cluster, peers: Exchange.Peers, i: string, f: string, k: nat, q: nat)
    returns (events: seq<Event>, c': Cluster)
    requires ReadyToPull(env, c, peers, i, f, k, q)
    ensures Leads(env, c, events, c') && NoRestart(events) && ClusterInv(env, c')
    ensures i in c'.nodes && c'.nodes == c.nodes[i := c'.nodes[i]] && Ends(CourseOf(c, i, k, q), c'.nodes[i])
  {
    var acts;
    acts, c' := SomeWholePull(env, c, peers, i, f, k, q);
    EveryFaultlessPull(env, c, i, k, q, acts, c');
    FaultlessLeads(env, i, k, c, acts, c');
    PullsOnly(env, i, k, c, acts, c');
    events := EventsOf(i, acts);
  }

  /** The other node has written twice, all further ones never. */
  lemma OneWritesTwice(env: Env, nodes: set<string>, other: string, f: string, x: Bytes, y: Bytes)
    returns (events: seq<Event>, c: Cluster)
    requires other in nodes && !HasDbExt(f) && TwoContents(env, f, x, y)
    ensures Leads(env, Blank(nodes), events, c) && c.nodes.Keys == nodes && Reached(env, c) && NoRestart(events)
    ensures RestsAt(c.nodes[other], f, Some(Version(env, f, y, 2)), 2)
    ensures forall n | n in nodes && n != other :: c.nodes[n] == BlankNode()
  {
    var first, c1 := OneWrites(env, nodes, other, f, x);
    var second;
    second, c := AllWrite(env, c1, {other}, f, y, Some(Version(env, f, x, 1)), 1);
    LeadsJoin(env, Blank(nodes), first, c1, second, c);
    events := first + second;
    LeadsReached(env, nodes, events, c);
  }

  /** The node with a pull claimed, of the other node's version. */
  ghost function Claims(node: Node, f: string, other: string): Node {
    node.(syncing := {f}, pulls := map[0 := Pull(f, [other], Claimed)])
  }

  /** A user asks for the file: the pull is claimed, and the clock hears of nothing. */
  lemma AsksFor(env: Env, c: Cluster, me: string, other: string, f: string)
    requires me in c.nodes && other in c.nodes && me != other && c.nodes[me] == BlankNode() && f != ""
    ensures Leads(env, c, [Event(me, ManualSync(f, 0, [other]))], With(c, me, Claims(BlankNode(), f, other), c.hints))
  {
    LeadsOne(env, c, me, ManualSync(f, 0, [other]));
    assert Trigger(BlankNode(), f, 0, [other]) == Claims(BlankNode(), f, other);
    assert c.hints + {} == c.hints;
  }

  lemma ReadyWhenClaimed(env: Env, c: Cluster, node: Node, me: string, other: string, f: string)
    requires me in c.nodes && other in c.nodes && me != other && c.nodes[me] == Claims(node, f, other)
    requires ClusterInv(env, c) && f in c.nodes[other].meta
    ensures ReadyToPull(env, c, map[me := [other]], me, f, 0, 0)
  {
    OnlyHolder(c, other, f);
  }

  lemma OnlyHolder(c: Cluster, other: string, f: string)
    requires other in c.nodes && f in c.nodes[other].meta
    ensures FirstWith(c, [other], f, 0) && Exchange.FirstHolder([other], View(c, f)) == Some(other)
  {
    assert View(c, f)[other].Some?;
  }

  /** A claimed pull of a version with another root runs through, and nothing but the file, its entry and the blobs
      has changed. */
  lemma Pulls(env: Env, c: Cluster, node: Node, me: string, other: string, f: string, w: FileMeta)
    returns (events: seq<Event>, c': Cluster)
    requires me in c.nodes && other in c.nodes && me != other && c.nodes[me] == Claims(node, f, other)
    requires Reached(env, c) && Local(c.nodes[other], f) == Some(w) && LocalRoot(Local(node, f)) != w.merkleRoot
    ensures Leads(env, c, events, c') && NoRestart(events) && Reached(env, c')
    ensures me in c'.nodes && c'.nodes == c.nodes[me := c'.nodes[me]] && HasPulled(node, c'.nodes[me], f, w)
  {
    ReachedInv(env, c);
    ReadyWhenClaimed(env, c, node, me, other, f);
    events, c' := RunsThrough(env, c, map[me := [other]], me, f, 0, 0);
    ReachedOn(env, c, events, c');
    PulledNode(c, node, c'.nodes[me], me, other, f, w);
  }

  ghost predicate HasPulled(node: Node, after: Node, f: string, w: FileMeta) {
    && Local(after, f) == Some(w) && f in after.pristine && after.clock == node.clock && after.ingests == node.ingests
    && after.pulls == map[] && after.syncing == {}
  }

  lemma PulledNode(c: Cluster, node: Node, after: Node, me: string, other: string, f: string, w: FileMeta)
    requires me in c.nodes && other in c.nodes && me != other && c.nodes[me] == Claims(node, f, other)
    requires FirstWith(c, [other], f, 0) && Local(c.nodes[other], f) == Some(w) && Ends(CourseOf(c, me, 0, 0), after)
    requires LocalRoot(Local(node, f)) != w.merkleRoot
    ensures HasPulled(node, after, f, w)
  {
    assert map[0 := Pull(f, [other], Claimed)] - {0} == map[];
    assert {f} - {f} == {};
  }

  /** The user pulls the other node's version and then writes. */
  lemma WritesOnPulled(env: Env, c: Cluster, me: string, other: string, f: string, x: Bytes, w: FileMeta)
    returns (pulled: seq<Event>, c1: Cluster, wrote: seq<Event>, c2: Cluster)
    requires me in c.nodes && other in c.nodes && me != other && c.nodes[me] == BlankNode()
    requires Reached(env, c) && f != "" && !HasDbExt(f) && InWorld(env, x) && Local(c.nodes[other], f) == Some(w)
    requires w.merkleRoot != Version(env, f, x, 0).merkleRoot
    ensures Leads(env, c, pulled, c1) && NoRestart(pulled) && Leads(env, c1, wrote, c2) && OnlyWrites(me, wrote)
    ensures me in c1.nodes && Local(c1.nodes[me], f) == Some(w)
    ensures me in c2.nodes && Local(c2.nodes[me], f) == Some(Version(env, f, x, 1))
  {
    AsksFor(env, c, me, other, f);
    var ask, c0 := [Event(me, ManualSync(f, 0, [other]))], With(c, me, Claims(BlankNode(), f, other), c.hints);
    ReachedOn(env, c, ask, c0);
    var rest;
    rest, c1 := Pulls(env, c0, BlankNode(), me, other, f, w);
    LeadsJoin(env, c, ask, c0, rest, c1);
    pulled := ask + rest;
    wrote, c2 := WritesAtZero(env, c1, me, f, x, w);
  }

  lemma WritesAtZero(env: Env, c: Cluster, me: string, f: string, x: Bytes, w: FileMeta)
    returns (events: seq<Event>, c': Cluster)
    requires me in c.nodes && HasPulled(BlankNode(), c.nodes[me], f, w) && !HasDbExt(f) && InWorld(env, x)
    requires w.merkleRoot != Version(env, f, x, 0).merkleRoot
    ensures Leads(env, c, events, c') && OnlyWrites(me, events)
    ensures me in c'.nodes && Local(c'.nodes[me], f) == Some(Version(env, f, x, 1))
  {
    var hints;
    events, hints := WriteLeads(env, c, me, f, x);
    c' := With(c, me, Wrote(env, c.nodes[me], f, x), hints);
  }

  /** A write on a version the clock did not hear of: without restart, a user asks for the file, gets a version of
      timestamp 2, and writes; the write is stored at timestamp 1. */
  lemma WriteBelowPulled(env: Env, nodes: set<string>, me: string, other: string, f: string, x: Bytes, y: Bytes)
    returns (states: seq<Cluster>, events: seq<Event>, t: nat)
    requires me in nodes && other in nodes && me != other && f != ""
    requires !HasDbExt(f) && TwoContents(env, f, x, y)
    ensures Run(env, states, events) && t <= |events| && NoRestart(events) && OnlyWrites(me, events[t..])
    ensures me in states[t].nodes && Local(states[t].nodes[me], f) == Some(Version(env, f, y, 2))
    ensures var end := states[|events|]; me in end.nodes && Local(end.nodes[me], f) == Some(Version(env, f, x, 1))
  {
    var pulled, c1, wrote, c2 := PullsThenWrites(env, nodes, me, other, f, x, y);
    states := LeadsVia(env, Blank(nodes), pulled, c1, wrote, c2);
    events, t := pulled + wrote, |pulled|;
    Tail(pulled, wrote);
  }

  lemma PullsThenWrites(env: Env, nodes: set<string>, me: string, other: string, f: string, x: Bytes, y: Bytes)
    returns (pulled: seq<Event>, c1: Cluster, wrote: seq<Event>, c2: Cluster)
    requires me in nodes && other in nodes && me != other && f != ""
    requires !HasDbExt(f) && TwoContents(env, f, x, y)
    ensures Leads(env, Blank(nodes), pulled, c1) && NoRestart(pulled)
    ensures Leads(env, c1, wrote, c2) && OnlyWrites(me, wrote)
    ensures me in c1.nodes && Local(c1.nodes[me], f) == Some(Version(env, f, y, 2))
    ensures me in c2.nodes && Local(c2.nodes[me], f) == Some(Version(env, f, x, 1))
  {
    var first, c := OneWritesTwice(env, nodes, other, f, x, y);
    var w := Version(env, f, y, 2);
    assert w.merkleRoot == Version(env, f, y, 0).merkleRoot;
    var more;
    more, c1, wrote, c2 := WritesOnPulled(env, c, me, other, f, x, w);
    LeadsJoin(env, Blank(nodes), first, c, more, c1);
    pulled := first + more;
  }

  // ---- A change that is none ----

  /** The node hears of the other's newer version, and claims a pull. */
  lemma Hears(env: Env, c: Cluster, me: string, other: string, f: string, v: FileMeta, w: FileMeta)
    returns (events: seq<Event>, hints: set<Hint>)
    requires me in c.nodes && other in c.nodes && me != other && !HasDbExt(f)
    requires Local(c.nodes[me], f) == Some(v) && Local(c.nodes[other], f) == Some(w)
    requires c.nodes[me].syncing == {} && c.nodes[me].pulls == map[] && c.nodes[me].clock < w.lamportTs
    requires v.merkleRoot != w.merkleRoot && v.lamportTs < w.lamportTs
    ensures var node := c.nodes[me].(clock := w.lamportTs);
      Leads(env, c, events, With(c, me, Claims(node, f, other), hints))
  {
    var node, hint := c.nodes[me], Listed(f, w.merkleRoot, w.lamportTs, other);
    hints := c.hints + {hint};
    events := HeardLeads(env, c, me, other, f, 0, [other]);
    assert ReconcileEntry(me, node, hint, 0, [other]) == Claims(node.(clock := w.lamportTs), f, other);
  }

  /** Reads the file, unchanged as it is. */
  lemma ReadsUnchanged(env: Env, c: Cluster, me: string, f: string, x: Bytes, v: FileMeta)
    returns (events: seq<Event>, c': Cluster)
    requires me in c.nodes && Reached(env, c) && !HasDbExt(f) && InWorld(env, x) && RestsAt(c.nodes[me], f, Some(v), 1)
    ensures Leads(env, c, events, c') && OnlyWrites(me, events) && Reached(env, c')
    ensures me in c'.nodes && c'.nodes == c.nodes[me := c'.nodes[me]]
    ensures var a := c'.nodes[me];
      && Local(a, f) == Some(v) && a.syncing == {} && a.pulls == map[] && a.clock == 1
      && a.ingests == map[0 := Read(f, x)] && f in a.disk && a.disk[f] == x
  {
    events := ReadLeads(env, c, me, f, x, 0);
    var node := c.nodes[me];
    c' := With(c, me, Edited(node, f, x, node.ingests[0 := Read(f, x)]), c.hints);
    ReachedOn(env, c, events, c');
  }

  /** Then a pull brings the other node's version. */
  lemma HearsAndPulls(env: Env, c: Cluster, me: string, other: string, f: string, v: FileMeta, w: FileMeta)
    returns (events: seq<Event>, c': Cluster)
    requires me in c.nodes && other in c.nodes && me != other && Reached(env, c) && !HasDbExt(f)
    requires Local(c.nodes[me], f) == Some(v) && Local(c.nodes[other], f) == Some(w)
    requires c.nodes[me].syncing == {} && c.nodes[me].pulls == map[] && c.nodes[me].clock < w.lamportTs
    requires v.merkleRoot != w.merkleRoot && v.lamportTs < w.lamportTs
    ensures Leads(env, c, events, c') && Reached(env, c') && me in c'.nodes && c'.nodes == c.nodes[me := c'.nodes[me]]
    ensures HasPulled(c.nodes[me].(clock := w.lamportTs), c'.nodes[me], f, w)
  {
    var heard, hints := Hears(env, c, me, other, f, v, w);
    var node := c.nodes[me].(clock := w.lamportTs);
    var c1 := With(c, me, Claims(node, f, other), hints);
    ReachedOn(env, c, heard, c1);
    var rest;
    rest, c' := Pulls(env, c1, node, me, other, f, w);
    LeadsJoin(env, c, heard, c1, rest, c');
    events := heard + rest;
  }

  /** Then it compares, and publishes what it has read as if it were new. */
  lemma PublishesOld(env: Env, c: Cluster, me: string, f: string, x: Bytes, node: Node, w: FileMeta)
    returns (events: seq<Event>, c': Cluster)
    requires me in c.nodes && Reached(env, c) && HasPulled(node, c.nodes[me], f, w)
    requires node.ingests == map[0 := Read(f, x)] && w.merkleRoot != Version(env, f, x, 0).merkleRoot
    ensures Leads(env, c, events, c') && OnlyWrites(me, events) && Reached(env, c')
    ensures me in c'.nodes && c'.nodes == c.nodes[me := c'.nodes[me]] && c'.nodes[me].syncing == {}
    ensures Local(c'.nodes[me], f) == Some(Version(env, f, x, node.clock + 1))
  {
    var hints;
    events, hints := TakeInLeads(env, c, me, 0);
    c' := With(c, me, TakenIn(env, c.nodes[me], 0), hints);
    ReachedOn(env, c, events, c');
  }

  /** An echo after all: a file event reads a file that has not changed, a pull brings a newer version, and only then
      the root is compared. The old content is published as the newest, at timestamp 3, and a node that asks this
      one first gives up its own, newer write for it. */
  lemma OldContentWins(env: Env, nodes: set<string>, me: string, other: string, peers: Exchange.Peers, f: string,
                       x: Bytes, y: Bytes)
    returns (states: seq<Cluster>, events: seq<Event>, t: nat, u: nat, done: Talk, after: Cluster)
    requires me in nodes && other in nodes && me != other && !HasDbExt(f) && TwoContents(env, f, x, y)
    requires Listing(peers, other, me) && peers[other][0] == me
    ensures Run(env, states, events) && t <= u <= |events|
    ensures me in states[t].nodes && Local(states[t].nodes[me], f) == Some(Version(env, f, x, 1))
    ensures HasChange(states[t], me, 0, Read(f, x)) && HasChange(states[u], me, 0, Read(f, x))
    ensures me in states[u].nodes && Local(states[u].nodes[me], f) == Some(Version(env, f, y, 2))
    ensures f in states[u].nodes[me].pristine && OnlyWrites(me, events[u..])
    ensures var end := states[|events|];
      && me in end.nodes && Local(end.nodes[me], f) == Some(Version(env, f, x, 3))
      && other in end.nodes && Local(end.nodes[other], f) == Some(Version(env, f, y, 2))
      && AlwaysTakes(env, peers, f, other, me, end, Version(env, f, x, 3))
      && ExchangeRun(env, peers, f, other, me, done, end, after)
  {
    var first, c := OneIsNewer(env, nodes, me, other, f, x, y);
    var read, c1, pulled, c2, rest, c3 := Echoes(env, nodes, c, me, other, f, x, y, first);
    LeadsJoin(env, Blank(nodes), first, c, read, c1);
    states := LeadsViaTwo(env, Blank(nodes), first + read, c1, pulled, c2, rest, c3);
    events, t, u := first + read + pulled + rest, |first + read|, |first + read + pulled|;
    Tail(first + read + pulled, rest);
    TakesOld(env, c3, other, me, peers, f, Version(env, f, y, 2), Version(env, f, x, 3));
    done, after := ExchangeExists(env, c3, other, me, peers, f);
  }

  lemma ExchangeExists(env: Env, c: Cluster, i: string, j: string, peers: Exchange.Peers, f: string)
    returns (done: Talk, after: Cluster)
    requires Reached(env, c) && Idle(c, f) && !HasDbExt(f) && i in c.nodes && j in c.nodes && Listing(peers, i, j)
    ensures ExchangeRun(env, peers, f, i, j, done, c, after)
  {
    ReachedInv(env, c);
    done, after := SomeExchange(env, c, peers, i, j, f);
  }

  lemma LeadsViaTwo(env: Env, c: Cluster, a: seq<Event>, c1: Cluster, b: seq<Event>, c2: Cluster, d: seq<Event>,
                    c3: Cluster)
    returns (states: seq<Cluster>)
    requires Leads(env, c, a, c1) && Leads(env, c1, b, c2) && Leads(env, c2, d, c3)
    ensures Steps(env, states, a + b + d) && states[0] == c
    ensures states[|a|] == c1 && states[|a + b|] == c2 && states[|a + b + d|] == c3
  {
    var s := LeadsVia(env, c, a, c1, b, c2);
    var r := LeadsIsSteps(env, c2, d, c3);
    states := StepsJoin(env, s, a + b, r, d);
  }

  lemma OneIsNewer(env: Env, nodes: set<string>, me: string, other: string, f: string, x: Bytes, y: Bytes)
    returns (events: seq<Event>, c: Cluster)
    requires me in nodes && other in nodes && me != other && !HasDbExt(f) && TwoContents(env, f, x, y)
    ensures Leads(env, Blank(nodes), events, c) && c.nodes.Keys == nodes && Idle(c, f)
    ensures RestsAt(c.nodes[me], f, Some(Version(env, f, x, 1)), 1)
    ensures RestsAt(c.nodes[other], f, Some(Version(env, f, y, 2)), 2)
  {
    events, c := WriteTwice(env, nodes, {other}, f, x, y);
    forall n | n in c.nodes ensures f !in c.nodes[n].syncing {
      assert n in {other} || RestsAt(c.nodes[n], f, Some(Version(env, f, x, 1)), 1);
    }
  }

  lemma Echoes(env: Env, nodes: set<string>, c: Cluster, me: string, other: string, f: string, x: Bytes, y: Bytes,
               first: seq<Event>)
    returns (read: seq<Event>, c1: Cluster, pulled: seq<Event>, c2: Cluster, rest: seq<Event>, c3: Cluster)
    requires me in nodes && other in nodes && me != other && !HasDbExt(f) && TwoContents(env, f, x, y)
    requires Leads(env, Blank(nodes), first, c) && c.nodes.Keys == nodes
    requires RestsAt(c.nodes[me], f, Some(Version(env, f, x, 1)), 1)
    requires RestsAt(c.nodes[other], f, Some(Version(env, f, y, 2)), 2)
    requires Idle(c, f)
    ensures Leads(env, c, read, c1) && Leads(env, c1, pulled, c2) && Leads(env, c2, rest, c3) && OnlyWrites(me, rest)
    ensures me in c1.nodes && Local(c1.nodes[me], f) == Some(Version(env, f, x, 1)) && HasChange(c1, me, 0, Read(f, x))
    ensures me in c2.nodes && Local(c2.nodes[me], f) == Some(Version(env, f, y, 2)) && HasChange(c2, me, 0, Read(f, x))
    ensures f in c2.nodes[me].pristine && Reached(env, c3) && Idle(c3, f)
    ensures me in c3.nodes && Local(c3.nodes[me], f) == Some(Version(env, f, x, 3))
    ensures other in c3.nodes && Local(c3.nodes[other], f) == Some(Version(env, f, y, 2))
  {
    var v, w := Version(env, f, x, 1), Version(env, f, y, 2);
    LeadsReached(env, nodes, first, c);
    assert v.merkleRoot == Version(env, f, x, 0).merkleRoot && w.merkleRoot == Version(env, f, y, 0).merkleRoot;
    read, c1 := ReadsUnchanged(env, c, me, f, x, v);
    pulled, c2 := HearsAndPulls(env, c1, me, other, f, v, w);
    rest, c3 := PublishesOld(env, c2, me, f, x, c1.nodes[me].(clock := 2), w);
  }

  lemma TakesOld(env: Env, c: Cluster, i: string, j: string, peers: Exchange.Peers, f: string, w: FileMeta, v: FileMeta)
    requires Reached(env, c) && Idle(c, f) && !HasDbExt(f) && i in c.nodes && j in c.nodes && i != j
    requires Listing(peers, i, j) && peers[i][0] == j && Local(c.nodes[i], f) == Some(w)
    requires Local(c.nodes[j], f) == Some(v)
    requires v.merkleRoot != w.merkleRoot && w.lamportTs < v.lamportTs
    ensures AlwaysTakes(env, peers, f, i, j, c, v)
  {
    OldWins(i, j, peers, View(c, f), w, v);
    ReachedInv(env, c);
    EveryWayTakes(env, c, peers, i, j, f, v);
  }

  lemma OldWins(i: string, j: string, peers: Exchange.Peers, s: Exchange.Replicas, w: FileMeta, v: FileMeta)
    requires i in s && j in s && i != j && Listing(peers, i, j) && peers[i][0] == j && s[i] == Some(w)
    requires s[j] == Some(v)
    requires v.merkleRoot != w.merkleRoot && w.lamportTs < v.lamportTs
    ensures Exchange.Step(Exchange.FromList(peers), s, i, j)[i] == Some(v)
  {
    assert Exchange.FirstHolder(peers[i], s) == Some(j);
  }

  // ---- Content nobody wrote ----

  /** A pull is writing the file. */
  ghost predicate IsWriting(c: Cluster, i: string, k: nat, f: string) {
    HasPull(c, i, k) && c.nodes[i].pulls[k].file == f && PhaseAt(c, i, k).Assembling?
  }

  /** What a pull that nobody has disturbed has made of its file so far. */
  ghost predicate HasWritten(c: Cluster, i: string, k: nat, f: string, z: Bytes) {
    && IsWriting(c, i, k, f) && PhaseAt(c, i, k).clean
    && PhaseAt(c, i, k).written <= |PhaseAt(c, i, k).remote.chunkHashes|
    && var node, p := c.nodes[i], PhaseAt(c, i, k);
       && Holds(node.cas, p.remote.chunkHashes[..p.written])
       && z == Image(Blobs(node.cas, p.remote.chunkHashes[..p.written]), p.remote.sizeBytes)
  }

  lemma OnDiskSoFar(env: Env, c: Cluster, i: string, k: nat, f: string, z: Bytes)
    requires Reached(env, c) && HasWritten(c, i, k, f, z)
    ensures f in c.nodes[i].disk && c.nodes[i].disk[f] == z
  {
    ReachedInv(env, c);
    assert NodeInv(env, c.nodes[i]) && PullOk(env, c.nodes[i], c.nodes[i].pulls[k]);
  }

  /** A half-written file gets published: whenever a pull has written the first chunks of a file, no call need fail for
      the node to publish exactly these, zero-filled to the size of the file, as its own change. */
  lemma HalfPublished(env: Env, c: Cluster, i: string, k: nat, f: string, z: Bytes)
    returns (events: seq<Event>, c': Cluster)
    requires Reached(env, c) && HasWritten(c, i, k, f, z)
    requires !HasDbExt(f) && InWorld(env, z) && !Indexed(env, c.nodes[i], f, z)
    ensures Leads(env, c, events, c') && OnlyPulls(events)
    ensures i in c'.nodes && c'.nodes == c.nodes[i := c'.nodes[i]]
    ensures Local(c'.nodes[i], f) == Some(Version(env, f, z, c.nodes[i].clock + 1))
  {
    OnDiskSoFar(env, c, i, k, f, z);
    events, c' := PicksUp(env, c, i, f, z);
  }

  /** The pull breaks off and leaves the file as it is. */
  lemma BreaksOff(env: Env, c: Cluster, i: string, k: nat, f: string)
    requires IsWriting(c, i, k, f) && f in c.nodes[i].disk
    ensures var node := c.nodes[i];
      Leads(env, c, [Event(i, PullBroken(k, Kept))], With(c, i, Rewrite(node, k, node.disk[f], Returned), c.hints))
  {
    LeadsOne(env, c, i, PullBroken(k, Kept));
    assert c.hints + {} == c.hints;
  }

  lemma ReleasesIt(env: Env, c: Cluster, i: string, k: nat)
    requires HasPull(c, i, k) && PhaseAt(c, i, k).Returned?
    ensures Leads(env, c, [Event(i, PullRelease(k))], With(c, i, Release(c.nodes[i], k), c.hints))
  {
    LeadsOne(env, c, i, PullRelease(k));
    assert c.hints + {} == c.hints;
  }

  lemma GivesUp(env: Env, c: Cluster, i: string, k: nat, f: string) returns (events: seq<Event>, c': Cluster)
    requires IsWriting(c, i, k, f) && f in c.nodes[i].disk
    ensures Leads(env, c, events, c') && OnlyPulls(events) && i in c'.nodes && c'.nodes == c.nodes[i := c'.nodes[i]]
    ensures f in c'.nodes[i].disk && c'.nodes[i].disk[f] == c.nodes[i].disk[f] && c'.nodes[i].meta == c.nodes[i].meta
    ensures c'.nodes[i].clock == c.nodes[i].clock && c'.nodes[i].syncing == c.nodes[i].syncing - {f}
  {
    var broken := Rewrite(c.nodes[i], k, c.nodes[i].disk[f], Returned);
    BreaksOff(env, c, i, k, f);
    ReleasesIt(env, With(c, i, broken, c.hints), i, k);
    c' := With(c, i, Release(broken, k), c.hints);
    LeadsWith(env, c, i, [Event(i, PullBroken(k, Kept))], broken, c.hints,
              [Event(i, PullRelease(k))], Release(broken, k), c.hints);
    events := [Event(i, PullBroken(k, Kept))] + [Event(i, PullRelease(k))];
  }

  /** What is on disk is read, compared, stamped and published. */
  lemma PicksUp(env: Env, c: Cluster, i: string, f: string, z: Bytes) returns (events: seq<Event>, c': Cluster)
    requires i in c.nodes && f in c.nodes[i].disk && c.nodes[i].disk[f] == z
    requires !HasDbExt(f) && InWorld(env, z) && !Indexed(env, c.nodes[i], f, z)
    ensures Leads(env, c, events, c') && OnlyPulls(events)
    ensures i in c'.nodes && c'.nodes == c.nodes[i := c'.nodes[i]] && c'.nodes[i].syncing == c.nodes[i].syncing
    ensures Local(c'.nodes[i], f) == Some(Version(env, f, z, c.nodes[i].clock + 1))
  {
    var g := FreshId(c.nodes[i].ingests.Keys);
    var c1 := With(c, i, BeginIngest(c.nodes[i], g, f), c.hints);
    BeginStep(env, c, i, f, g);
    var rest, hints := TakeInLeads(env, c1, i, g);
    c' := With(c1, i, TakenIn(env, c1.nodes[i], g), hints);
    events := [Event(i, IngestBegin(g, f))] + rest;
    LeadsJoin(env, c, [Event(i, IngestBegin(g, f))], c1, rest, c');
  }

  /** A pull that has its metadata can go on until it writes. */
  lemma GoesOnToWrite(env: Env, c: Cluster, me: string, other: string, f: string, x: Bytes)
    returns (events: seq<Event>, c': Cluster)
    requires me != other && AboutToFetch(env, me, other, c, f, x)
    ensures Leads(env, c, events, c') && OnlyPulls(events) && me in c'.nodes && c'.nodes == c.nodes[me := c'.nodes[me]]
    ensures f !in c'.nodes[me].meta && c'.nodes[me].clock == 1 && HasWritten(c', me, 0, f, SizedZeros(env, x))
  {
    var g := Course(c.nodes[me], 0, None, 0, First(env, f, x));
    PlannedOnTrack(env, me, other, c, f, x);
    assert With(c, me, g.base, c.hints) == c by { assert c.nodes[me := g.base] == c.nodes; }
    var acts;
    acts, c' := SomeWay(env, c, me, g, g.base, c.hints, |g.remote.chunkHashes| + 3);
    var node, hints := EveryWay(env, c, me, g, g.base, c.hints, acts, c');
    FaultlessLeads(env, me, 0, c, acts, c');
    PullsOnly(env, me, 0, c, acts, c');
    events := EventsOf(me, acts);
    AtFirstChunk(env, c', me, g, f, x);
  }

  lemma AtFirstChunk(env: Env, c: Cluster, me: string, g: Course, f: string, x: Bytes)
    requires me in c.nodes && OnTrack(g, c.nodes[me]) && !InSync(g) && FileOf(g) == f && g.remote == First(env, f, x)
    requires Left(g, c.nodes[me].pulls[g.k].phase) == |g.remote.chunkHashes| + 3
    ensures c.nodes[me].meta == g.base.meta && c.nodes[me].clock == g.base.clock
    ensures HasWritten(c, me, g.k, f, SizedZeros(env, x))
  {
    WritesFirst(g, c.nodes[me]);
    NothingYet(c, me, g.k, f, g.remote);
  }

  /** The file a pull of this content starts with. */
  ghost function SizedZeros(env: Env, x: Bytes): Bytes {
    Zeros(|Concat(env.split(x))|)
  }

  lemma NothingYet(c: Cluster, i: string, k: nat, f: string, m: FileMeta)
    requires IsWriting(c, i, k, f) && PhaseAt(c, i, k).clean && PhaseAt(c, i, k).written == 0
    requires PhaseAt(c, i, k).remote == m
    ensures HasWritten(c, i, k, f, Zeros(m.sizeBytes))
  {
    assert m.chunkHashes[..0] == [];
    assert Image(Blobs(c.nodes[i].cas, []), m.sizeBytes) == Zeros(m.sizeBytes);
  }

  lemma PlannedOnTrack(env: Env, me: string, other: string, c: Cluster, f: string, x: Bytes)
    requires me != other && AboutToFetch(env, me, other, c, f, x)
    ensures var g := Course(c.nodes[me], 0, None, 0, First(env, f, x));
      OnTrack(g, g.base) && !InSync(g) && Holder(env, c, me, g)
  {
    var g := Course(c.nodes[me], 0, None, 0, First(env, f, x));
    assert NodeInv(env, c.nodes[other]) && Stored(env, c.nodes[other].cas, f, c.nodes[other].meta[f]);
    assert g.base.pulls[0 := g.base.pulls[0]] == g.base.pulls;
  }

  lemma WritesFirst(g: Course, node: Node)
    requires OnTrack(g, node) && !InSync(g) && Left(g, node.pulls[g.k].phase) == |g.remote.chunkHashes| + 3
    ensures node.pulls[g.k].phase.Assembling? && node.pulls[g.k].file == FileOf(g)
    ensures node.pulls[g.k].phase.remote == g.remote && node.pulls[g.k].phase.written == 0
    ensures node.pulls[g.k].phase.clean
    ensures node.meta == g.base.meta && node.clock == g.base.clock && node.syncing == g.base.syncing
  {
  }

  /** Content nobody wrote becomes the newest: in any cluster of two or more nodes there is a run in which users write
      nothing but x, and at whose end a node has published as many zeros as x has bytes, at timestamp 2, because it
      read the file of a pull that broke off before its first chunk; and a node that asks it first gives up the
      user's content for that. */
  lemma NobodyWroteIt(env: Env, nodes: set<string>, me: string, other: string, peers: Exchange.Peers, f: string,
                      x: Bytes)
    returns (states: seq<Cluster>, events: seq<Event>, done: Talk, after: Cluster)
    requires me in nodes && other in nodes && me != other && !HasDbExt(f)
    requires TwoContents(env, f, x, SizedZeros(env, x))
    requires Listing(peers, other, me) && peers[other][0] == me
    ensures Run(env, states, events) && WriteOnly(x, events)
    ensures (forall n | n in states[0].nodes :: states[0].nodes[n].disk == map[])
    ensures var end, z := states[|events|], SizedZeros(env, x);
      && me in end.nodes && Local(end.nodes[me], f) == Some(Version(env, f, z, 2))
      && other in end.nodes && Local(end.nodes[other], f) == Some(Version(env, f, x, 1))
      && AlwaysTakes(env, peers, f, other, me, end, Version(env, f, z, 2))
      && ExchangeRun(env, peers, f, other, me, done, end, after)
  {
    var z := SizedZeros(env, x);
    var first, c, rest, end := ReadsHalf(env, nodes, me, other, f, x, z);
    states := LeadsVia(env, Blank(nodes), first, c, rest, end);
    events := first + rest;
    LeadsReached(env, nodes, first, c);
    ReachedOn(env, c, rest, end);
    TakesOld(env, end, other, me, peers, f, Version(env, f, x, 1), Version(env, f, z, 2));
    done, after := ExchangeExists(env, end, other, me, peers, f);
  }

  lemma ReadsHalf(env: Env, nodes: set<string>, me: string, other: string, f: string, x: Bytes, z: Bytes)
    returns (first: seq<Event>, c: Cluster, rest: seq<Event>, end: Cluster)
    requires me in nodes && other in nodes && me != other && !HasDbExt(f) && TwoContents(env, f, x, z)
    requires z == SizedZeros(env, x)
    ensures Leads(env, Blank(nodes), first, c) && Leads(env, c, rest, end) && WriteOnly(x, first) && OnlyPulls(rest)
    ensures me in end.nodes && Local(end.nodes[me], f) == Some(Version(env, f, z, 2))
    ensures other in end.nodes && Local(end.nodes[other], f) == Some(Version(env, f, x, 1)) && Idle(end, f)
  {
    first, c := ReachesWriting(env, nodes, me, other, f, x);
    LeadsReached(env, nodes, first, c);
    rest, end := PublishesIt(env, c, me, 0, f, z);
    OnlyMeMoved(c, end, me, other, f, First(env, f, x));
  }

  /** The pull breaks off, and what it has written is published. */
  lemma PublishesIt(env: Env, c: Cluster, i: string, k: nat, f: string, z: Bytes)
    returns (events: seq<Event>, c': Cluster)
    requires Reached(env, c) && HasWritten(c, i, k, f, z) && f !in c.nodes[i].meta && !HasDbExt(f) && InWorld(env, z)
    ensures Leads(env, c, events, c') && OnlyPulls(events)
    ensures i in c'.nodes && c'.nodes == c.nodes[i := c'.nodes[i]] && f !in c'.nodes[i].syncing
    ensures Local(c'.nodes[i], f) == Some(Version(env, f, z, c.nodes[i].clock + 1))
  {
    OnDiskSoFar(env, c, i, k, f, z);
    var given, c1 := GivesUp(env, c, i, k, f);
    var rest;
    rest, c' := PicksUp(env, c1, i, f, z);
    LeadsJoin(env, c, given, c1, rest, c');
    events := given + rest;
  }

  /** A run to a state in which a pull is writing its first file. */
  lemma ReachesWriting(env: Env, nodes: set<string>, me: string, other: string, f: string, x: Bytes)
    returns (events: seq<Event>, c: Cluster)
    requires me in nodes && other in nodes && me != other && !HasDbExt(f) && InWorld(env, x)
    ensures Leads(env, Blank(nodes), events, c) && WriteOnly(x, events) && OthersBlank(c, me, other)
    ensures HasWritten(c, me, 0, f, SizedZeros(env, x)) && f !in c.nodes[me].meta && c.nodes[me].clock == 1
    ensures RestsAt(c.nodes[other], f, Some(First(env, f, x)), 1)
  {
    var first, c0 := ReachesFetch(env, nodes, me, other, f, x);
    var more;
    more, c := GoesOnToWrite(env, c0, me, other, f, x);
    LeadsJoin(env, Blank(nodes), first, c0, more, c);
    events := first + more;
  }

  lemma OnlyMeMoved(c: Cluster, c': Cluster, me: string, other: string, f: string, v: FileMeta)
    requires me != other && OthersBlank(c, me, other) && RestsAt(c.nodes[other], f, Some(v), 1)
    requires me in c'.nodes && c'.nodes == c.nodes[me := c'.nodes[me]] && f !in c'.nodes[me].syncing
    ensures Idle(c', f) && other in c'.nodes && Local(c'.nodes[other], f) == Some(v)
  {
  }
}
