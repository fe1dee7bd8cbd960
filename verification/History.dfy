/** What a pull did before a state of a run, read off the events: when it read its metadata, when it captured the
    peer's, when it started to write, and whether anybody edited the file since. */
module History {
  import opened Base
  import opened Protocol
  import opened Integrity
  import opened Safety
  import opened Progress

  // ---- One action ----

  lemma TriggerPulls(node: Node, file: string, l: nat, peers: seq<string>, k: nat)
    requires l !in node.pulls
    ensures var after := Trigger(node, file, l, peers).pulls;
      k in after ==> if k in node.pulls then after[k] == node.pulls[k] else after[k].phase == Claimed
  {
  }

  lemma DeliverPulls(env: Env, name: string, node: Node, hint: Hint, l: nat, peers: seq<string>, k: nat)
    requires Enabled(env, name, node, Deliver(hint, l, peers))
    ensures var after := After(env, name, node, Deliver(hint, l, peers)).pulls;
      k in after ==> if k in node.pulls then after[k] == node.pulls[k] else after[k].phase == Claimed
  {
    DeliverIs(env, name, node, hint, l, peers);
    TriggerPulls(Observe(node, hint.ts), hint.file, l, peers, k);
  }

  /** An action that is not pull k's own leaves it as it is, except that an edit soils a file being written. */
  lemma OthersLeavePull(env: Env, name: string, node: Node, a: Action, k: nat)
    requires Enabled(env, name, node, a) && !OwnAction(a, k) && k in After(env, name, node, a).pulls
    ensures var after := After(env, name, node, a).pulls[k];
      if k in node.pulls then after == (if a.UserWrite? then Soil(node.pulls[k], a.file) else node.pulls[k])
      else after.phase == Claimed
  {
    if a.Deliver? {
      DeliverPulls(env, name, node, a.hint, a.k, a.peers, k);
    } else if a.ManualSync? {
      TriggerPulls(node, a.file, a.k, a.peers, k);
    } else if PhaseOnly(a) {
      assert After(env, name, node, a) == Move(node, a.k, NextPhase(env, name, node, a));
    } else if Rewrites(a) {
      OtherPullWrites(env, name, node, a, k);
    } else if a.WorkerDone? || a.PullCommit? || a.PullRelease? {
      OtherPullWorks(env, name, node, a, k);
    } else {
      PullsLeft(env, name, node, a, k);
    }
  }

  lemma PullsLeft(env: Env, name: string, node: Node, a: Action, k: nat)
    requires Enabled(env, name, node, a) && (Changing(a) || a.UserWrite? || a.ServeEntry? || a.Restart?)
    requires k in After(env, name, node, a).pulls
    ensures k in node.pulls
    ensures After(env, name, node, a).pulls[k] == if a.UserWrite? then Soil(node.pulls[k], a.file) else node.pulls[k]
  {
  }

  lemma OtherPullWrites(env: Env, name: string, node: Node, a: Action, k: nat)
    requires Enabled(env, name, node, a) && Rewrites(a) && a.k != k && k in After(env, name, node, a).pulls
    ensures k in node.pulls && After(env, name, node, a).pulls[k] == node.pulls[k]
  {
  }

  lemma OtherPullWorks(env: Env, name: string, node: Node, a: Action, k: nat)
    requires Enabled(env, name, node, a) && (a.WorkerDone? || a.PullCommit? || a.PullRelease?) && a.k != k
    requires k in After(env, name, node, a).pulls
    ensures k in node.pulls && After(env, name, node, a).pulls[k] == node.pulls[k]
  {
  }

  /** Its own action keeps its file and its peers. */
  lemma OwnKeepsPull(env: Env, name: string, node: Node, a: Action, k: nat)
    requires Enabled(env, name, node, a) && OwnAction(a, k) && k in After(env, name, node, a).pulls
    ensures k in node.pulls && var after := After(env, name, node, a).pulls[k];
      after.file == node.pulls[k].file && after.peers == node.pulls[k].peers
  {
    if k !in node.pulls {
      NoPullNoStep(env, name, node, k, a);
    }
  }

  predicate Late(phase: Phase) {
    phase.Committed? || phase.Returned?
  }

  /** A pull leaves its claim only by reading the metadata, a late one stays late, and it starts to write once. */
  predicate OwnMove(p: Phase, a: Action, p': Phase) {
    && !p'.Claimed? && (p.Claimed? ==> a.PullLocal?) && (Late(p) ==> Late(p')) && (a.PullCommit? ==> Late(p'))
    && (p'.Assembling? ==> p.Assembling? || a.PullAssemble?)
    && (p'.Assembling? && p.Assembling? ==> p'.clean == p.clean) && (a.PullAssemble? ==> p'.Assembling? && p'.clean)
  }

  lemma PhaseOnlyMoves(env: Env, name: string, node: Node, a: Action)
    requires Enabled(env, name, node, a) && PhaseOnly(a)
    ensures OwnMove(node.pulls[a.k].phase, a, NextPhase(env, name, node, a))
  {
  }

  lemma OwnPhases(env: Env, name: string, node: Node, a: Action, k: nat)
    requires Enabled(env, name, node, a) && OwnAction(a, k) && k in After(env, name, node, a).pulls && k in node.pulls
    ensures OwnMove(node.pulls[k].phase, a, After(env, name, node, a).pulls[k].phase)
  {
    if PhaseOnly(a) {
      PhaseOnlyMoves(env, name, node, a);
      assert After(env, name, node, a) == Move(node, k, NextPhase(env, name, node, a));
    }
  }

  /** How pull k of a node came to be what it is after an action of that node. */
  ghost predicate Follows(before: Pull, a: Action, k: nat, after: Pull) {
    && after.file == before.file && after.peers == before.peers
    && (before.phase.Claimed? && !after.phase.Claimed? ==> a == PullLocal(k))
    && (Late(before.phase) ==> Late(after.phase)) && (a == PullCommit(k) ==> Late(after.phase))
    && (after.phase.Assembling? && !before.phase.Assembling? ==> a == PullAssemble(k) && after.phase.clean)
    && (after.phase.Assembling? && before.phase.Assembling? ==>
          after.phase.clean == (before.phase.clean && !(a.UserWrite? && a.file == before.file)))
  }

  lemma PullFollows(env: Env, name: string, node: Node, a: Action, k: nat)
    requires Enabled(env, name, node, a) && k in After(env, name, node, a).pulls
    ensures var after := After(env, name, node, a).pulls[k];
      if k in node.pulls then Follows(node.pulls[k], a, k, after) else after.phase == Claimed
  {
    if OwnAction(a, k) {
      OwnKeepsPull(env, name, node, a, k);
      OwnPhases(env, name, node, a, k);
    } else {
      OthersLeavePull(env, name, node, a, k);
    }
  }

  // ---- Runs ----

  ghost predicate HasPull(c: Cluster, n: string, k: nat) {
    n in c.nodes && k in c.nodes[n].pulls
  }

  ghost function PhaseAt(c: Cluster, n: string, k: nat): Phase
    requires HasPull(c, n, k)
  {
    c.nodes[n].pulls[k].phase
  }

  lemma NoneAtStart(c: Cluster, n: string, k: nat)
    requires Init(c)
    ensures !HasPull(c, n, k)
  {
    if n in c.nodes {
      assert EmptyNode(c.nodes[n]);
    }
  }

  lemma StepFollows(env: Env, states: seq<Cluster>, events: seq<Event>, t: nat, n: string, k: nat)
    requires Run(env, states, events) && t < |events| && HasPull(states[t + 1], n, k)
    ensures HasPull(states[t], n, k) || PhaseAt(states[t + 1], n, k) == Claimed
    ensures HasPull(states[t], n, k) ==>
      var p, p' := states[t].nodes[n].pulls[k], states[t + 1].nodes[n].pulls[k];
      if events[t].name == n then Follows(p, events[t].action, k, p') else p' == p
  {
    var e := events[t];
    assert Taken(env, states, events, t);
    if e.name == n {
      PullFollows(env, n, states[t].nodes[n], e.action, k);
    }
  }

  /** All along, the pull is there, past its claim and before its commit. */
  ghost predicate UnderWay(states: seq<Cluster>, n: string, k: nat, file: string, from: nat, upto: nat)
    requires upto < |states|
  {
    forall t | from < t <= upto ::
      HasPull(states[t], n, k) && states[t].nodes[n].pulls[k].file == file
      && !PhaseAt(states[t], n, k).Claimed? && !Late(PhaseAt(states[t], n, k))
  }

  /** The pull read the node's metadata at `read`. */
  ghost predicate ReadAt(states: seq<Cluster>, events: seq<Event>, n: string, k: nat, file: string, read: nat,
                         upto: nat)
    requires |states| == |events| + 1 && upto < |states|
  {
    && read < upto && events[read] == Event(n, PullLocal(k))
    && HasPull(states[read], n, k) && states[read].nodes[n].pulls[k].file == file
    && PhaseAt(states[read], n, k).Claimed?
    && UnderWay(states, n, k, file, read, upto)
  }

  /** Every pull past its claim and before its commit has read the metadata. */
  lemma {:induction false} FindRead(env: Env, states: seq<Cluster>, events: seq<Event>, n: string, k: nat, j: nat)
    returns (read: nat)
    requires Run(env, states, events) && j < |states| && HasPull(states[j], n, k)
    requires !PhaseAt(states[j], n, k).Claimed? && !Late(PhaseAt(states[j], n, k))
    ensures ReadAt(states, events, n, k, states[j].nodes[n].pulls[k].file, read, j)
    decreases j
  {
    NoneAtStart(states[0], n, k);
    StepFollows(env, states, events, j - 1, n, k);
    if PhaseAt(states[j - 1], n, k).Claimed? {
      read := j - 1;
    } else {
      read := FindRead(env, states, events, n, k, j - 1);
    }
  }

  /** A restart forgets every pull: none that is under way read its metadata before its node's last restart. */
  lemma NoRestartUnderWay(env: Env, states: seq<Cluster>, events: seq<Event>, n: string, k: nat, file: string,
                          read: nat, upto: nat)
    requires Run(env, states, events) && upto < |states| && ReadAt(states, events, n, k, file, read, upto)
    ensures forall t | read < t < upto :: events[t] != Event(n, Restart)
  {
    forall t | read < t < upto ensures events[t] != Event(n, Restart) {
      assert Taken(env, states, events, t) && HasPull(states[t + 1], n, k);
    }
  }

  /** The pull captured the peer's metadata at `captured`: it is what that peer had then. */
  ghost predicate CapturedAt(states: seq<Cluster>, events: seq<Event>, n: string, k: nat, v: FileMeta, captured: nat,
                             upto: nat)
    requires |states| == |events| + 1 && upto < |states|
  {
    && captured < upto && events[captured] == Event(n, PullMeta(k, v))
    && HasPull(states[captured], n, k) && PhaseAt(states[captured], n, k).Diffed?
    && (forall t | captured < t <= upto :: HasPull(states[t], n, k) && Captured(PhaseAt(states[t], n, k)) == Some(v))
    && var p := states[captured].nodes[n].pulls[k];
       && p.phase.next < |p.peers| && p.peers[p.phase.next] in states[captured].nodes
       && Local(states[captured].nodes[p.peers[p.phase.next]], p.file) == Some(v)
  }

  lemma StillCaptured(states: seq<Cluster>, events: seq<Event>, n: string, k: nat, v: FileMeta, captured: nat,
                      upto: nat, t: nat)
    requires |states| == |events| + 1 && upto < |states| && CapturedAt(states, events, n, k, v, captured, upto)
    requires captured < t <= upto
    ensures HasPull(states[t], n, k) && Captured(PhaseAt(states[t], n, k)) == Some(v)
  {
  }

  lemma CaptureStep(env: Env, states: seq<Cluster>, events: seq<Event>, t: nat, n: string, k: nat, v: FileMeta)
    requires Run(env, states, events) && t < |events| && HasPull(states[t + 1], n, k)
    requires Captured(PhaseAt(states[t + 1], n, k)) == Some(v)
    ensures HasPull(states[t], n, k)
    ensures Captured(PhaseAt(states[t], n, k)) == Some(v) || CapturedAt(states, events, n, k, v, t, t + 1)
  {
    var e := events[t];
    assert Taken(env, states, events, t);
    if e.name == n && !(e.action.PullMeta? && e.action.k == k) {
      CaptureFrame(env, n, states[t].nodes[n], e.action, k);
    }
  }

  lemma {:induction false} FindCapture(env: Env, states: seq<Cluster>, events: seq<Event>, n: string, k: nat,
                                       v: FileMeta, j: nat)
    returns (captured: nat)
    requires Run(env, states, events) && j < |states| && HasPull(states[j], n, k)
    requires Captured(PhaseAt(states[j], n, k)) == Some(v)
    ensures CapturedAt(states, events, n, k, v, captured, j)
    decreases j
  {
    NoneAtStart(states[0], n, k);
    CaptureStep(env, states, events, j - 1, n, k, v);
    if Captured(PhaseAt(states[j - 1], n, k)) == Some(v) {
      captured := FindCapture(env, states, events, n, k, v, j - 1);
    } else {
      captured := j - 1;
    }
  }

  // ---- Edited or not ----

  /** The pull started to write its file at `start`. */
  ghost predicate WritesFrom(states: seq<Cluster>, events: seq<Event>, n: string, k: nat, f: string, start: nat,
                             upto: nat)
    requires |states| == |events| + 1 && upto < |states|
  {
    && start < upto && events[start] == Event(n, PullAssemble(k))
    && forall t | start < t <= upto ::
         HasPull(states[t], n, k) && PhaseAt(states[t], n, k).Assembling? && states[t].nodes[n].pulls[k].file == f
  }

  ghost predicate Edits(events: seq<Event>, n: string, f: string, t: nat)
    requires t < |events|
  {
    events[t].name == n && events[t].action.UserWrite? && events[t].action.file == f
  }

  /** Every pull that is writing started to, and counts the file as clean exactly if nobody has edited it since. */
  lemma {:induction false} FindStart(env: Env, states: seq<Cluster>, events: seq<Event>, n: string, k: nat, j: nat)
    returns (start: nat)
    requires Run(env, states, events) && j < |states| && HasPull(states[j], n, k)
    requires PhaseAt(states[j], n, k).Assembling?
    ensures WritesFrom(states, events, n, k, states[j].nodes[n].pulls[k].file, start, j)
    ensures PhaseAt(states[j], n, k).clean <==>
      forall t | start < t < j :: !Edits(events, n, states[j].nodes[n].pulls[k].file, t)
    decreases j
  {
    NoneAtStart(states[0], n, k);
    StepFollows(env, states, events, j - 1, n, k);
    if PhaseAt(states[j - 1], n, k).Assembling? {
      start := FindStart(env, states, events, n, k, j - 1);
      var f := states[j].nodes[n].pulls[k].file;
      assert PhaseAt(states[j], n, k).clean <==> PhaseAt(states[j - 1], n, k).clean && !Edits(events, n, f, j - 1);
      assert (forall t | start < t < j :: !Edits(events, n, f, t)) <==>
             (forall t | start < t < j - 1 :: !Edits(events, n, f, t)) && !Edits(events, n, f, j - 1);
    } else {
      start := j - 1;
    }
  }

  /** Something that takes the file out of the state a pull left it in: an edit, a pull that starts to write it, or
      the publication of a change. */
  ghost predicate Disturbs(node: Node, a: Action, f: string) {
    || (a.UserWrite? && a.file == f)
    || (a.PullAssemble? && a.k in node.pulls && node.pulls[a.k].file == f)
    || (a.IngestPublish? && a.k in node.ingests && node.ingests[a.k].file == f)
  }

  /** A pulled file stays as the pull left it until something disturbs it. */
  lemma PristineStep(env: Env, name: string, node: Node, a: Action, f: string)
    requires NodeInv(env, node) && Enabled(env, name, node, a) && f in node.pristine && !Disturbs(node, a, f)
    ensures f in After(env, name, node, a).pristine
  {
    if a.PullWrite? || a.PullBroken? || a.PullCommit? {
      WritersAreOthers(env, name, node, a, f);
    } else if a.UserWrite? || a.PullAssemble? || a.IngestPublish? {
      ChangesOthers(env, name, node, a, f);
    } else {
      Frame(env, name, node, a);
    }
  }

  lemma ChangesOthers(env: Env, name: string, node: Node, a: Action, f: string)
    requires Enabled(env, name, node, a) && f in node.pristine && !Disturbs(node, a, f)
    requires a.UserWrite? || a.PullAssemble? || a.IngestPublish?
    ensures f in After(env, name, node, a).pristine
  {
  }

  /** A pull that is writing is not writing a pristine file. */
  lemma WritersAreOthers(env: Env, name: string, node: Node, a: Action, f: string)
    requires PullsOk(env, node) && Enabled(env, name, node, a) && f in node.pristine
    requires a.PullWrite? || a.PullBroken? || a.PullCommit?
    ensures f in After(env, name, node, a).pristine
  {
    assert PullOk(env, node, node.pulls[a.k]);
    assert node.pulls[a.k].file != f;
  }

  /** Nothing on the node disturbs the file between the two states. */
  ghost predicate Undisturbed(states: seq<Cluster>, events: seq<Event>, n: string, f: string, i: nat, j: nat)
    requires |states| == |events| + 1 && j <= |events|
  {
    forall t {:trigger states[t]} | i <= t < j && events[t].name == n && n in states[t].nodes ::
      !Disturbs(states[t].nodes[n], events[t].action, f)
  }

  lemma {:induction false} StaysPristine(env: Env, states: seq<Cluster>, events: seq<Event>, n: string, f: string,
                                         i: nat, j: nat)
    requires Run(env, states, events) && i <= j < |states| && n in states[i].nodes && f in states[i].nodes[n].pristine
    requires Undisturbed(states, events, n, f, i, j)
    ensures n in states[j].nodes && f in states[j].nodes[n].pristine
    decreases j
  {
    if i < j {
      StaysPristine(env, states, events, n, f, i, j - 1);
      PristineOneOn(env, states, events, n, f, j - 1);
    }
  }

  lemma PristineOneOn(env: Env, states: seq<Cluster>, events: seq<Event>, n: string, f: string, t: nat)
    requires Run(env, states, events) && t < |events| && n in states[t].nodes && f in states[t].nodes[n].pristine
    requires events[t].name == n ==> !Disturbs(states[t].nodes[n], events[t].action, f)
    ensures n in states[t + 1].nodes && f in states[t + 1].nodes[n].pristine
  {
    RunInv(env, states, events, t);
    var e := events[t];
    assert Taken(env, states, events, t);
    assert NodeInv(env, states[t].nodes[n]);
    if e.name == n {
      PristineStep(env, n, states[t].nodes[n], e.action, f);
    }
  }

  lemma CleanCommit(env: Env, states: seq<Cluster>, events: seq<Event>, n: string, k: nat, f: string, start: nat,
                    i: nat)
    requires Run(env, states, events) && i < |events| && events[i] == Event(n, PullCommit(k))
    requires WritesFrom(states, events, n, k, f, start, i) && forall t | start < t < i :: !Edits(events, n, f, t)
    ensures n in states[i + 1].nodes && f in states[i + 1].nodes[n].pristine
  {
    assert Taken(env, states, events, i);
    var found := FindStart(env, states, events, n, k, i);
    OneStart(env, states, events, n, k, f, found, start, i);
  }

  lemma OneStart(env: Env, states: seq<Cluster>, events: seq<Event>, n: string, k: nat, f: string, a: nat, b: nat,
                 i: nat)
    requires Run(env, states, events) && i < |states|
    requires WritesFrom(states, events, n, k, f, a, i) && WritesFrom(states, events, n, k, f, b, i)
    ensures a == b
  {
    if a < b {
      NotStartedAgain(env, states, events, n, k, f, a, b, i);
    } else if b < a {
      NotStartedAgain(env, states, events, n, k, f, b, a, i);
    }
  }

  lemma NotStartedAgain(env: Env, states: seq<Cluster>, events: seq<Event>, n: string, k: nat, f: string, a: nat,
                        t: nat, i: nat)
    requires Run(env, states, events) && i < |states| && WritesFrom(states, events, n, k, f, a, i) && a < t < i
    ensures events[t] != Event(n, PullAssemble(k))
  {
    assert PhaseAt(states[t], n, k).Assembling?;
    assert Taken(env, states, events, t);
  }
}
