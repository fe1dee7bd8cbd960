/** When the stored timestamp of a file falls: for every run and every event that stores a version, the commit of a
    pull or the publication of a local change, an exact condition on earlier events. */
module Timestamps {
  import opened Base
  import opened Protocol
  import opened Integrity
  import opened Safety
  import opened History
  import opened Changes

  // ---- What a node has, in events ----

  /** Event t stores a version of the file on the node. */
  ghost predicate Stores(states: seq<Cluster>, events: seq<Event>, n: string, f: string, t: nat)
    requires |states| == |events| + 1 && t < |events|
  {
    events[t].name == n && n in states[t].nodes && StoresFile(states[t].nodes[n], events[t].action, f)
  }

  lemma StoreStep(env: Env, states: seq<Cluster>, events: seq<Event>, n: string, f: string, t: nat)
    requires Run(env, states, events) && t < |events| && n in states[t].nodes
    ensures n in states[t + 1].nodes
    ensures Local(states[t + 1].nodes[n], f) ==
      if Stores(states, events, n, f, t) then Some(NewVersion(env, states[t].nodes[n], events[t].action, f))
      else Local(states[t].nodes[n], f)
  {
    RunInv(env, states, events, t);
    assert Taken(env, states, events, t);
    assert NodeInv(env, states[t].nodes[n]);
    if events[t].name == n {
      StoreFrame(env, n, states[t].nodes[n], events[t].action, f);
    }
  }

  ghost predicate NothingStored(states: seq<Cluster>, events: seq<Event>, n: string, f: string, from: nat, upto: nat)
    requires |states| == |events| + 1 && upto <= |events|
  {
    forall t | from <= t < upto :: !Stores(states, events, n, f, t)
  }

  /** Event t is the last one before `upto` that stores a version of the file on the node. */
  ghost predicate LastStore(states: seq<Cluster>, events: seq<Event>, n: string, f: string, t: nat, upto: nat)
    requires |states| == |events| + 1 && upto <= |events|
  {
    t < upto && Stores(states, events, n, f, t) && NothingStored(states, events, n, f, t + 1, upto)
  }

  /** What the node has of the file at i: the version stored last since `from`, or, if none was, what it had then. */
  ghost predicate Latest(env: Env, states: seq<Cluster>, events: seq<Event>, n: string, f: string, from: nat, i: nat,
                         own: Option<FileMeta>)
    requires |states| == |events| + 1 && from <= i <= |events| && n in states[from].nodes
  {
    && (NothingStored(states, events, n, f, from, i) ==> own == Local(states[from].nodes[n], f))
    && (forall t | from <= t && LastStore(states, events, n, f, t, i) ::
          own == Some(NewVersion(env, states[t].nodes[n], events[t].action, f)))
  }

  lemma {:induction false} StillThere(env: Env, states: seq<Cluster>, events: seq<Event>, n: string, f: string,
                                      from: nat, i: nat)
    requires Run(env, states, events) && from <= i < |states| && n in states[from].nodes
    requires NothingStored(states, events, n, f, from, i)
    ensures n in states[i].nodes && Local(states[i].nodes[n], f) == Local(states[from].nodes[n], f)
    decreases i
  {
    if from < i {
      StillThere(env, states, events, n, f, from, i - 1);
      StoreStep(env, states, events, n, f, i - 1);
    }
  }

  lemma {:induction false} NodesStay(env: Env, states: seq<Cluster>, events: seq<Event>, n: string, from: nat, i: nat)
    requires Run(env, states, events) && from <= i < |states| && n in states[from].nodes
    ensures n in states[i].nodes
    decreases i
  {
    if from < i {
      NodesStay(env, states, events, n, from, i - 1);
      assert Taken(env, states, events, i - 1);
    }
  }

  /** In every run, from any event on. */
  lemma LatestHolds(env: Env, states: seq<Cluster>, events: seq<Event>, n: string, f: string, from: nat, i: nat)
    requires Run(env, states, events) && from <= i < |states| && n in states[from].nodes
    ensures n in states[i].nodes && Latest(env, states, events, n, f, from, i, Local(states[i].nodes[n], f))
  {
    NodesStay(env, states, events, n, from, i);
    if NothingStored(states, events, n, f, from, i) {
      StillThere(env, states, events, n, f, from, i);
    }
    forall t | from <= t && LastStore(states, events, n, f, t, i)
      ensures Local(states[i].nodes[n], f) == Some(NewVersion(env, states[t].nodes[n], events[t].action, f))
    {
      StoreStep(env, states, events, n, f, t);
      StillThere(env, states, events, n, f, t + 1, i);
    }
  }

  lemma {:induction false} SomeLast(states: seq<Cluster>, events: seq<Event>, n: string, f: string, from: nat, i: nat)
    returns (t: nat)
    requires |states| == |events| + 1 && from <= i <= |events| && !NothingStored(states, events, n, f, from, i)
    ensures from <= t && LastStore(states, events, n, f, t, i)
    decreases i
  {
    if Stores(states, events, n, f, i - 1) {
      t := i - 1;
    } else {
      t := SomeLast(states, events, n, f, from, i - 1);
    }
  }

  /** The events leave no choice. */
  lemma LatestUnique(env: Env, states: seq<Cluster>, events: seq<Event>, n: string, f: string, from: nat, i: nat,
                     a: Option<FileMeta>, b: Option<FileMeta>)
    requires |states| == |events| + 1 && from <= i <= |events| && n in states[from].nodes
    requires Latest(env, states, events, n, f, from, i, a) && Latest(env, states, events, n, f, from, i, b)
    ensures a == b
  {
    if !NothingStored(states, events, n, f, from, i) {
      var t := SomeLast(states, events, n, f, from, i);
    }
  }

  // ---- Comparisons ----

  ghost predicate HasRoot(env: Env, own: Option<FileMeta>, f: string, content: Bytes) {
    own.Some? && own.value.merkleRoot == Version(env, f, content, 0).merkleRoot
  }

  /** For every run and every comparison in it, of a change that read the file at `read`: the change is dropped if and
      only if what was stored last since the reading, or, if nothing was, what was stored then, has the root of what
      was read. So a change that read the indexed content is dropped if and only if nothing was stored in between, or
      the last version stored has that root again. */
  lemma DroppedIff(env: Env, states: seq<Cluster>, events: seq<Event>, n: string, g: nat, f: string, content: Bytes,
                   read: nat, j: nat)
    returns (own: Option<FileMeta>)
    requires Run(env, states, events) && j < |events| && events[j] == Event(n, IngestCompare(g))
    requires MadeAt(env, states, events, n, g, Read(f, content), read) && Since(states, n, g, Read(f, content), read, j)
    ensures Latest(env, states, events, n, f, read, j, own) && n in states[j + 1].nodes
    ensures g !in states[j + 1].nodes[n].ingests <==> HasRoot(env, own, f, content)
    ensures Indexed(env, states[read].nodes[n], f, content) ==>
      (g !in states[j + 1].nodes[n].ingests <==>
       NothingStored(states, events, n, f, read, j) || StoredAgain(env, states, events, n, f, content, read, j))
  {
    LatestHolds(env, states, events, n, f, read, j);
    own := Local(states[j].nodes[n], f);
    assert HasChange(states[j], n, g, Read(f, content));
    assert Taken(env, states, events, j);
    ComparisonDrops(env, n, states[j].nodes[n], g);
    if !NothingStored(states, events, n, f, read, j) {
      var t := SomeLast(states, events, n, f, read, j);
      OneLastStore(states, events, n, f, t, j);
    }
  }

  /** The last version stored in between has the root of the content. */
  ghost predicate StoredAgain(env: Env, states: seq<Cluster>, events: seq<Event>, n: string, f: string, content: Bytes,
                              from: nat, j: nat)
    requires |states| == |events| + 1 && from <= j <= |events|
  {
    exists t: nat :: from <= t && LastStore(states, events, n, f, t, j) &&
      HasRoot(env, Some(NewVersion(env, states[t].nodes[n], events[t].action, f)), f, content)
  }

  lemma ComparisonDrops(env: Env, name: string, node: Node, g: nat)
    requires Enabled(env, name, node, IngestCompare(g))
    ensures var w := node.ingests[g];
      g !in After(env, name, node, IngestCompare(g)).ingests <==> HasRoot(env, Local(node, w.file), w.file, w.content)
  {
    assert After(env, name, node, IngestCompare(g)) == CompareIngest(env, node, g);
  }

  lemma OneLastStore(states: seq<Cluster>, events: seq<Event>, n: string, f: string, t: nat, j: nat)
    requires |states| == |events| + 1 && j <= |events| && LastStore(states, events, n, f, t, j)
    ensures forall u: nat | LastStore(states, events, n, f, u, j) :: u == t
  {
  }

  // ---- Commits ----

  ghost predicate Newer(own: Option<FileMeta>, ts: nat) {
    own.Some? && own.value.lamportTs > ts
  }

  /** The event lowers the node's timestamp of the file, or loses the file. */
  ghost predicate Falls(c: Cluster, c': Cluster, n: string, f: string) {
    && n in c.nodes && n in c'.nodes && f in c.nodes[n].meta
    && !(f in c'.nodes[n].meta && c'.nodes[n].meta[f].lamportTs >= c.nodes[n].meta[f].lamportTs)
  }

  /** While a pull of the file is under way, only publications store versions of it. */
  lemma OnlyPublished(env: Env, states: seq<Cluster>, events: seq<Event>, n: string, k: nat, f: string, read: nat,
                      i: nat, t: nat)
    requires Run(env, states, events) && i < |states| && ReadAt(states, events, n, k, f, read, i) && read <= t < i
    requires Stores(states, events, n, f, t)
    ensures events[t].action.IngestPublish?
  {
    assert HasPull(states[t], n, k) && states[t].nodes[n].pulls[k].file == f;
    RunInv(env, states, events, t);
    assert NodeInv(env, states[t].nodes[n]);
    if events[t].action.PullCommit? {
      assert events[t].action.k == k;
      StepFollows(env, states, events, t, n, k);
    }
  }

  /** For every run and every commit in it: the pull read the node's version at one event and captured the peer's at a
      later one. The commit puts the captured version in place of the node's own, without looking at it, and lowers
      the stored timestamp if and only if the own version is newer: the one the node published last since the pull
      read, or, if it published none, the one the pull read. */
  lemma CommitFallsIff(env: Env, states: seq<Cluster>, events: seq<Event>, i: nat, k: nat)
    returns (read: nat, captured: nat, own: Option<FileMeta>)
    requires Run(env, states, events) && i < |events| && events[i].action == PullCommit(k)
    ensures var n := events[i].name;
      && HasPull(states[i], n, k) && PhaseAt(states[i], n, k).Assembling?
      && var f, v := states[i].nodes[n].pulls[k].file, PhaseAt(states[i], n, k).remote;
         && read < captured < i
         && ReadAt(states, events, n, k, f, read, i) && CapturedAt(states, events, n, k, v, captured, i)
         && Latest(env, states, events, n, f, read, i, own)
         && (forall t | read <= t < i && Stores(states, events, n, f, t) :: events[t].action.IngestPublish?)
         && n in states[i + 1].nodes && Local(states[i + 1].nodes[n], f) == Some(v)
         && (Falls(states[i], states[i + 1], n, f) <==> Newer(own, v.lamportTs))
  {
    var n := events[i].name;
    assert Taken(env, states, events, i);
    var f, v := states[i].nodes[n].pulls[k].file, states[i].nodes[n].pulls[k].phase.remote;
    read := FindRead(env, states, events, n, k, i);
    captured := FindCapture(env, states, events, n, k, v, i);
    if captured < read {
      StillCaptured(states, events, n, k, v, captured, i, read);
    }
    LatestHolds(env, states, events, n, f, read, i);
    own := Local(states[i].nodes[n], f);
    forall t | read <= t < i && Stores(states, events, n, f, t) ensures events[t].action.IngestPublish? {
      OnlyPublished(env, states, events, n, k, f, read, i, t);
    }
    StoreStep(env, states, events, n, f, i);
  }

  // ---- Publications ----

  /** For every run and every publication in it: the change was read, compared and stamped at three events, with the
      clock's next value at the last of them. The publication puts its version in place of the node's own, without
      another look, and lowers the stored timestamp if and only if the own version is newer: the one stored last
      since the stamp, by a pull or by another change, or, if none was, the one stored already at the stamp. */
  lemma PublicationFallsIff(env: Env, states: seq<Cluster>, events: seq<Event>, i: nat, g: nat)
    returns (read: nat, compared: nat, stamped: nat, own: Option<FileMeta>)
    requires Run(env, states, events) && i < |events| && events[i].action == IngestPublish(g)
    ensures var n := events[i].name;
      && n in states[i].nodes && g in states[i].nodes[n].ingests && states[i].nodes[n].ingests[g].Stamped?
      && var w := states[i].nodes[n].ingests[g];
         && Story(env, states, events, n, g, w.file, w.content, w.ts, read, compared, stamped, i)
         && w.ts == states[stamped].nodes[n].clock + 1
         && Latest(env, states, events, n, w.file, stamped, i, own)
         && n in states[i + 1].nodes
         && Local(states[i + 1].nodes[n], w.file) == Some(Version(env, w.file, w.content, w.ts))
         && (Falls(states[i], states[i + 1], n, w.file) <==> Newer(own, w.ts))
  {
    var n := events[i].name;
    assert Taken(env, states, events, i);
    var w := states[i].nodes[n].ingests[g];
    read, compared, stamped := FindStory(env, states, events, n, g, w.file, w.content, w.ts, i);
    LatestHolds(env, states, events, n, w.file, stamped, i);
    own := Local(states[i].nodes[n], w.file);
    StoreStep(env, states, events, n, w.file, i);
  }

  // ---- Stretches of a run ----

  /** Event t is the commit of a pull that captured a version older than the node's own. */
  ghost predicate LoweringCommit(env: Env, states: seq<Cluster>, events: seq<Event>, n: string, f: string, t: nat)
    requires |states| == |events| + 1 && t < |events|
  {
    exists k, read, captured, v, own :: CapturedOlder(env, states, events, n, f, t, k, read, captured, v, own)
  }

  ghost predicate CapturedOlder(env: Env, states: seq<Cluster>, events: seq<Event>, n: string, f: string, t: nat,
                                k: nat, read: nat, captured: nat, v: FileMeta, own: Option<FileMeta>)
    requires |states| == |events| + 1 && t < |events|
  {
    && events[t] == Event(n, PullCommit(k)) && ReadAt(states, events, n, k, f, read, t)
    && CapturedAt(states, events, n, k, v, captured, t) && Latest(env, states, events, n, f, read, t, own)
    && Newer(own, v.lamportTs)
  }

  /** Event t is the publication of a change that was stamped no later than the node's own version says. */
  ghost predicate LoweringPublication(env: Env, states: seq<Cluster>, events: seq<Event>, n: string, f: string, t: nat)
    requires |states| == |events| + 1 && t < |events|
  {
    exists g, content, ts, read, compared, stamped, own ::
      StampedTooLow(env, states, events, n, f, t, g, content, ts, read, compared, stamped, own)
  }

  ghost predicate StampedTooLow(env: Env, states: seq<Cluster>, events: seq<Event>, n: string, f: string, t: nat,
                                g: nat,
                                content: Bytes, ts: nat, read: nat, compared: nat, stamped: nat, own: Option<FileMeta>)
    requires |states| == |events| + 1 && t < |events|
  {
    && events[t] == Event(n, IngestPublish(g))
    && Story(env, states, events, n, g, f, content, ts, read, compared, stamped, t)
    && Latest(env, states, events, n, f, stamped, t, own) && Newer(own, ts)
  }

  lemma CommitLowers(env: Env, states: seq<Cluster>, events: seq<Event>, n: string, f: string, t: nat)
    requires Run(env, states, events) && t < |events| && LoweringCommit(env, states, events, n, f, t)
    ensures Falls(states[t], states[t + 1], n, f)
  {
    var k, read, captured, v, own :| CapturedOlder(env, states, events, n, f, t, k, read, captured, v, own);
    assert Taken(env, states, events, t);
    StillCaptured(states, events, n, k, v, captured, t, t);
    assert HasPull(states[t], n, k) && states[t].nodes[n].pulls[k].file == f;
    LatestHolds(env, states, events, n, f, read, t);
    LatestUnique(env, states, events, n, f, read, t, own, Local(states[t].nodes[n], f));
    StoreStep(env, states, events, n, f, t);
  }

  lemma PublicationLowers(env: Env, states: seq<Cluster>, events: seq<Event>, n: string, f: string, t: nat)
    requires Run(env, states, events) && t < |events| && LoweringPublication(env, states, events, n, f, t)
    ensures Falls(states[t], states[t + 1], n, f)
  {
    var g, content, ts, read, compared, stamped, own :|
      StampedTooLow(env, states, events, n, f, t, g, content, ts, read, compared, stamped, own);
    StampedLowers(env, states, events, n, g, f, content, ts, stamped, own, t);
  }

  lemma StampedLowers(env: Env, states: seq<Cluster>, events: seq<Event>, n: string, g: nat, f: string, content: Bytes,
                      ts: nat, stamped: nat, own: Option<FileMeta>, t: nat)
    requires Run(env, states, events) && t < |events| && events[t] == Event(n, IngestPublish(g))
    requires Since(states, n, g, Stamped(f, content, ts), stamped, t) && n in states[stamped].nodes
    requires Latest(env, states, events, n, f, stamped, t, own) && Newer(own, ts)
    ensures Falls(states[t], states[t + 1], n, f)
  {
    assert HasChange(states[t], n, g, Stamped(f, content, ts));
    LatestHolds(env, states, events, n, f, stamped, t);
    LatestUnique(env, states, events, n, f, stamped, t, own, Local(states[t].nodes[n], f));
    StoreStep(env, states, events, n, f, t);
  }

  lemma LoweredBy(env: Env, states: seq<Cluster>, events: seq<Event>, n: string, f: string, t: nat)
    requires Run(env, states, events) && t < |events| && Falls(states[t], states[t + 1], n, f)
    ensures LoweringCommit(env, states, events, n, f, t) || LoweringPublication(env, states, events, n, f, t)
  {
    StoreStep(env, states, events, n, f, t);
    assert Taken(env, states, events, t);
    var a := events[t].action;
    if a.PullCommit? {
      var read, captured, own := CommitFallsIff(env, states, events, t, a.k);
      var v := states[t].nodes[n].pulls[a.k].phase.remote;
      assert CapturedOlder(env, states, events, n, f, t, a.k, read, captured, v, own);
    } else {
      var read, compared, stamped, own := PublicationFallsIff(env, states, events, t, a.k);
      var w := states[t].nodes[n].ingests[a.k];
      assert StampedTooLow(env, states, events, n, f, t, a.k, w.content, w.ts, read, compared, stamped, own);
    }
  }

  /** Event t lowers the node's timestamp of the file. */
  ghost predicate FallsAt(states: seq<Cluster>, n: string, f: string, t: nat)
    requires t + 1 < |states|
  {
    Falls(states[t], states[t + 1], n, f)
  }

  ghost predicate LowersAt(env: Env, states: seq<Cluster>, events: seq<Event>, n: string, f: string, t: nat)
    requires |states| == |events| + 1 && t < |events|
  {
    LoweringCommit(env, states, events, n, f, t) || LoweringPublication(env, states, events, n, f, t)
  }

  lemma FallsIff(env: Env, states: seq<Cluster>, events: seq<Event>, n: string, f: string, t: nat)
    requires Run(env, states, events) && t < |events|
    ensures FallsAt(states, n, f, t) <==> LowersAt(env, states, events, n, f, t)
  {
    if LoweringCommit(env, states, events, n, f, t) {
      CommitLowers(env, states, events, n, f, t);
    } else if LoweringPublication(env, states, events, n, f, t) {
      PublicationLowers(env, states, events, n, f, t);
    } else if FallsAt(states, n, f, t) {
      LoweredBy(env, states, events, n, f, t);
    }
  }

  /** The node's timestamp of the file does not fall between the two states. */
  ghost predicate NeverFalls(states: seq<Cluster>, n: string, f: string, i: nat, j: nat)
    requires j < |states|
  {
    forall t | i <= t < j :: !FallsAt(states, n, f, t)
  }

  /** Timestamps only grow, exactly when they do: over any stretch of any run the node's timestamp of a file never
      falls if and only if no event of the stretch is a lowering commit or a lowering publication. */
  lemma NeverFallsIff(env: Env, states: seq<Cluster>, events: seq<Event>, n: string, f: string, i: nat, j: nat)
    requires Run(env, states, events) && i <= j < |states|
    ensures NeverFalls(states, n, f, i, j) <==> forall t | i <= t < j :: !LowersAt(env, states, events, n, f, t)
  {
    forall t | i <= t < j ensures FallsAt(states, n, f, t) <==> LowersAt(env, states, events, n, f, t) {
      FallsIff(env, states, events, n, f, t);
    }
  }
}
