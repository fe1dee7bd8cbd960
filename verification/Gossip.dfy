/** What is gossiped and what hearing it does: every hint names a version its sender has stored, every version stored
    can be heard of, and hearing of a version that beats one's own claims a pull. */
module Gossip {
  import opened Base
  import opened Conflict
  import opened Protocol
  import opened Integrity
  import opened Safety
  import opened Progress
  import opened History
  import opened Timestamps

  // ---- Hearing ----

  /** A version with this root and timestamp, held by `source`, beats what the node has. */
  ghost predicate Beats(name: string, node: Node, f: string, root: Hash, ts: nat, source: string) {
    f !in node.meta ||
    (node.meta[f].merkleRoot != root &&
     (node.meta[f].lamportTs < ts || (node.meta[f].lamportTs == ts && Below(name, source))))
  }

  /** Another node's announcement: the clock takes the greater timestamp, always; and the file is claimed if and only if
      the announced version beats the node's own. Nothing else changes. */
  lemma AnnouncementExact(env: Env, name: string, node: Node, hint: Hint, k: nat, peers: seq<string>)
    requires Enabled(env, name, node, Deliver(hint, k, peers)) && hint.Announced?
    ensures var heard := node.(clock := if node.clock < hint.ts then hint.ts else node.clock);
      var after, f := After(env, name, node, Deliver(hint, k, peers)), hint.file;
      var beaten := f !in node.meta ||
        (node.meta[f].merkleRoot != hint.root &&
         (node.meta[f].lamportTs < hint.ts || (node.meta[f].lamportTs == hint.ts && Below(name, hint.source))));
      after == if beaten && f !in node.syncing
               then heard.(syncing := node.syncing + {f}, pulls := node.pulls[k := Pull(f, peers, Claimed)])
               else heard
  {
  }

  /** An entry of a catalogue: the same, except that the clock hears only of a version that beats the node's own. */
  lemma ListingExact(env: Env, name: string, node: Node, hint: Hint, k: nat, peers: seq<string>)
    requires Enabled(env, name, node, Deliver(hint, k, peers)) && hint.Listed?
    ensures var heard := node.(clock := if node.clock < hint.ts then hint.ts else node.clock);
      var after, f := After(env, name, node, Deliver(hint, k, peers)), hint.file;
      var beaten := f !in node.meta ||
        (node.meta[f].merkleRoot != hint.root &&
         (node.meta[f].lamportTs < hint.ts || (node.meta[f].lamportTs == hint.ts && Below(name, hint.source))));
      after == if !beaten then node
               else if f in node.syncing then heard
               else heard.(syncing := node.syncing + {f}, pulls := node.pulls[k := Pull(f, peers, Claimed)])
  {
  }

  // ---- What is in the pool ----

  lemma {:induction false} HintsStay(env: Env, states: seq<Cluster>, events: seq<Event>, i: nat, j: nat, h: Hint)
    requires Run(env, states, events) && i <= j < |states| && h in states[i].hints
    ensures h in states[j].hints
    decreases j
  {
    if i < j {
      HintsStay(env, states, events, i, j - 1, h);
      assert Taken(env, states, events, j - 1);
    }
  }

  /** The pull has stored this version and not yet announced it. */
  lemma CommittedStep(env: Env, name: string, node: Node, a: Action, k: nat)
    requires Enabled(env, name, node, a) && k in After(env, name, node, a).pulls
    requires After(env, name, node, a).pulls[k].phase.Committed?
    ensures k in node.pulls && After(env, name, node, a).pulls[k].file == node.pulls[k].file
    ensures node.pulls[k].phase == After(env, name, node, a).pulls[k].phase ||
      (a == PullCommit(k) && CanCommit(node, k) &&
       node.pulls[k].phase.remote == After(env, name, node, a).pulls[k].phase.remote)
  {
    PullFollows(env, name, node, a, k);
    if OwnAction(a, k) {
      OwnCommits(env, name, node, a, k);
    } else {
      OthersLeavePull(env, name, node, a, k);
    }
  }

  lemma OwnCommits(env: Env, name: string, node: Node, a: Action, k: nat)
    requires Enabled(env, name, node, a) && OwnAction(a, k) && k in node.pulls && k in After(env, name, node, a).pulls
    requires After(env, name, node, a).pulls[k].phase.Committed?
    ensures a == PullCommit(k) && node.pulls[k].phase.remote == After(env, name, node, a).pulls[k].phase.remote
  {
    if PhaseOnly(a) {
      assert After(env, name, node, a) == Move(node, k, NextPhase(env, name, node, a));
      NeverCommits(env, name, node, a);
    }
  }

  lemma NeverCommits(env: Env, name: string, node: Node, a: Action)
    requires PhaseOnly(a) && Enabled(env, name, node, a)
    ensures !NextPhase(env, name, node, a).Committed?
  {
  }

  /** Every pull about to announce has committed, and stored the version it announces then. */
  lemma {:induction false} FindCommit(env: Env, states: seq<Cluster>, events: seq<Event>, n: string, k: nat, j: nat)
    returns (c: nat)
    requires Run(env, states, events) && j < |states| && HasPull(states[j], n, k) && PhaseAt(states[j], n, k).Committed?
    ensures c < j && events[c] == Event(n, PullCommit(k)) && n in states[c + 1].nodes
    ensures Local(states[c + 1].nodes[n], states[j].nodes[n].pulls[k].file) == Some(PhaseAt(states[j], n, k).remote)
    decreases j
  {
    NoneAtStart(states[0], n, k);
    c := j - 1;
    assert Taken(env, states, events, c);
    if events[c].name == n {
      CommittedStep(env, n, states[c].nodes[n], events[c].action, k);
    }
    if PhaseAt(states[c], n, k).Committed? {
      c := FindCommit(env, states, events, n, k, c);
    } else {
      StoreStep(env, states, events, n, states[j].nodes[n].pulls[k].file, c);
    }
  }

  /** A hint about what the node has of the file. */
  ghost predicate Tells(c: Cluster, h: Hint) {
    && h.source in c.nodes && h.file in c.nodes[h.source].meta
    && h.root == c.nodes[h.source].meta[h.file].merkleRoot && h.ts == c.nodes[h.source].meta[h.file].lamportTs
  }

  /** A publication announces the version it has just stored. */
  lemma PublicationTold(env: Env, states: seq<Cluster>, events: seq<Event>, t: nat, g: nat) returns (h: Hint)
    requires Run(env, states, events) && t < |events| && events[t].action == IngestPublish(g)
    ensures events[t].name in states[t].nodes && g in states[t].nodes[events[t].name].ingests
    ensures h.Announced? && h.file == states[t].nodes[events[t].name].ingests[g].file && h.source == events[t].name
    ensures states[t + 1].hints == states[t].hints + {h} && Tells(states[t + 1], h)
  {
    assert Taken(env, states, events, t);
    var n := events[t].name;
    var w := states[t].nodes[n].ingests[g];
    h := Announced(w.file, Version(env, w.file, w.content, w.ts).merkleRoot, w.ts, n);
    StoreStep(env, states, events, n, w.file, t);
  }

  /** A pull announces the version its commit stored. */
  lemma PullTold(env: Env, states: seq<Cluster>, events: seq<Event>, t: nat, k: nat) returns (c: nat, h: Hint)
    requires Run(env, states, events) && t < |events| && events[t].action == PullAnnounce(k)
    ensures c < t && events[c] == Event(events[t].name, PullCommit(k)) && HasPull(states[t], events[t].name, k)
    ensures h.Announced? && h.file == states[t].nodes[events[t].name].pulls[k].file && h.source == events[t].name
    ensures states[t + 1].hints == states[t].hints + {h} && Tells(states[c + 1], h)
  {
    assert Taken(env, states, events, t);
    var n := events[t].name;
    RunInv(env, states, events, t);
    assert NodeInv(env, states[t].nodes[n]) && PullOk(env, states[t].nodes[n], states[t].nodes[n].pulls[k]);
    c := FindCommit(env, states, events, n, k, t);
    var m := PhaseAt(states[t], n, k).remote;
    h := Announced(m.fileId, m.merkleRoot, m.lamportTs, n);
  }

  /** Nobody gossips about what they have not got: every hint in the pool names a version that its source had stored. */
  lemma {:induction false} HintsAreTrue(env: Env, states: seq<Cluster>, events: seq<Event>, j: nat, h: Hint)
    returns (t: nat)
    requires Run(env, states, events) && j < |states| && h in states[j].hints
    ensures t <= j && Tells(states[t], h)
    decreases j
  {
    assert j > 0;
    t := j - 1;
    if h in states[t].hints {
      t := HintsAreTrue(env, states, events, t, h);
    } else {
      t := NewHint(env, states, events, t, h);
    }
  }

  lemma NewHint(env: Env, states: seq<Cluster>, events: seq<Event>, t: nat, h: Hint) returns (u: nat)
    requires Run(env, states, events) && t < |events| && h !in states[t].hints && h in states[t + 1].hints
    ensures u <= t + 1 && Tells(states[u], h)
  {
    assert Taken(env, states, events, t);
    if events[t].action.IngestPublish? {
      var _ := PublicationTold(env, states, events, t, events[t].action.k);
      u := t + 1;
    } else if events[t].action.PullAnnounce? {
      var c, _ := PullTold(env, states, events, t, events[t].action.k);
      u := c + 1;
    } else {
      assert events[t].action.ServeEntry?;
      u := t;
    }
  }

  // ---- From a write to the pulls it starts ----

  /** A change that is published reaches everybody: in every later state of every run its announcement can be delivered
      to every other node; the node's clock is then at least its timestamp, and the node has a pull of the file,
      newly claimed if it had none, if the published version beats its own. If not, no pull is started. */
  lemma PublicationReaches(env: Env, states: seq<Cluster>, events: seq<Event>, t: nat, g: nat, j: nat, o: string,
                           k: nat, peers: seq<string>)
    returns (h: Hint)
    requires Run(env, states, events) && t < j < |states| && events[t].action == IngestPublish(g)
    requires o in states[j].nodes && k !in states[j].nodes[o].pulls && o !in peers
    ensures h.Announced? && h.source == events[t].name && Tells(states[t + 1], h)
    ensures events[t].name in states[t].nodes && g in states[t].nodes[events[t].name].ingests
    ensures h.file == states[t].nodes[events[t].name].ingests[g].file
    ensures Possible(env, states[j], o, Deliver(h, k, peers)) <==> o != events[t].name
    ensures o != events[t].name ==>
      var node := states[j].nodes[o];
      var after := Protocol.Step(env, states[j], o, Deliver(h, k, peers)).nodes[o];
      && after.clock == (if node.clock < h.ts then h.ts else node.clock)
      && (h.file in after.syncing <==> h.file in node.syncing || Beats(o, node, h.file, h.root, h.ts, h.source))
      && after.pulls == if h.file in after.syncing && h.file !in node.syncing
                        then node.pulls[k := Pull(h.file, peers, Claimed)] else node.pulls
  {
    h := PublicationTold(env, states, events, t, g);
    HintsStay(env, states, events, t + 1, j, h);
    if o != events[t].name {
      AnnouncementExact(env, o, states[j].nodes[o], h, k, peers);
    }
  }

  // ---- Databases ----

  /** Nobody takes in a change of a database. */
  ghost predicate NoDatabaseRead(node: Node) {
    forall g | g in node.ingests :: !HasDbExt(node.ingests[g].file)
  }

  lemma StepReadsNone(env: Env, name: string, node: Node, a: Action)
    requires Enabled(env, name, node, a) && NoDatabaseRead(node)
    ensures NoDatabaseRead(After(env, name, node, a))
  {
    Frame(env, name, node, a);
  }

  lemma {:induction false} NoneRead(env: Env, states: seq<Cluster>, events: seq<Event>, j: nat, n: string)
    requires Run(env, states, events) && j < |states| && n in states[j].nodes
    ensures NoDatabaseRead(states[j].nodes[n])
  {
    if j == 0 {
      assert EmptyNode(states[0].nodes[n]);
    } else {
      assert Taken(env, states, events, j - 1);
      NoneRead(env, states, events, j - 1, n);
      if events[j - 1].name == n {
        StepReadsNone(env, n, states[j - 1].nodes[n], events[j - 1].action);
      }
    }
  }

  lemma {:induction false} NoDatabasePresent(env: Env, states: seq<Cluster>, events: seq<Event>, j: nat, f: string,
                                             v: FileMeta)
    requires Run(env, states, events) && j < |states| && HasDbExt(f)
    ensures !Present(states[j], f, v)
  {
    if j == 0 {
      NothingPresent(states[0], f, v);
    } else {
      var e := events[j - 1];
      NoDatabasePresent(env, states, events, j - 1, f, v);
      assert Taken(env, states, events, j - 1);
      NoneRead(env, states, events, j - 1, e.name);
      if Present(states[j], f, v) {
        RunStepInventsNothing(env, states, events, j - 1, f, v);
      }
    }
  }

  /** Databases stay at home: in no reachable state has any node a version of one, or captured one, or is there a hint
      about one; not even a sync asked for by hand brings one in. */
  lemma DatabasesStayHome(env: Env, states: seq<Cluster>, events: seq<Event>, j: nat, f: string)
    requires Run(env, states, events) && j < |states| && HasDbExt(f)
    ensures forall v :: !Present(states[j], f, v)
    ensures forall h | h in states[j].hints :: h.file != f
  {
    forall v ensures !Present(states[j], f, v) {
      NoDatabasePresent(env, states, events, j, f, v);
    }
    forall h | h in states[j].hints ensures h.file != f {
      var t := HintsAreTrue(env, states, events, j, h);
      var v := states[t].nodes[h.source].meta[h.file];
      assert NodeHas(states[t].nodes[h.source], h.file, v);
      assert Present(states[t], h.file, v);
      if HasDbExt(h.file) {
        NoDatabasePresent(env, states, events, t, h.file, v);
      }
    }
  }
}
