/** What a file change did before a state of a run, read off the events: when the file was read, when its root was
    compared, when the version was stamped. */
module Changes {
  import opened Base
  import opened Protocol
  import opened Integrity
  import opened Safety
  import opened History

  /** The action that makes change g of a node what it is. */
  ghost predicate Made(env: Env, node: Node, a: Action, g: nat, w: Ingest) {
    match w
    case Read(f, content) => a == IngestBegin(g, f) && f in node.disk && node.disk[f] == content
    case Differs(f, content) =>
      a == IngestCompare(g) && g in node.ingests && node.ingests[g] == Read(f, content) &&
      !Indexed(env, node, f, content)
    case Stamped(f, content, ts) =>
      a == IngestStamp(g) && g in node.ingests && node.ingests[g] == Differs(f, content) && ts == node.clock + 1
  }

  lemma IngestFollows(env: Env, name: string, node: Node, a: Action, g: nat)
    requires Enabled(env, name, node, a) && g in After(env, name, node, a).ingests
    ensures var w := After(env, name, node, a).ingests[g];
      (g in node.ingests && node.ingests[g] == w) || Made(env, node, a, g, w)
  {
    if Changing(a) {
      ChangeFollows(env, name, node, a, g);
    } else if !a.Restart? {
      Frame(env, name, node, a);
    }
  }

  lemma ChangeFollows(env: Env, name: string, node: Node, a: Action, g: nat)
    requires Changing(a) && Enabled(env, name, node, a) && g in After(env, name, node, a).ingests
    ensures var w := After(env, name, node, a).ingests[g];
      (g in node.ingests && node.ingests[g] == w) || Made(env, node, a, g, w)
  {
  }

  // ---- Runs ----

  ghost predicate HasChange(c: Cluster, n: string, g: nat, w: Ingest) {
    n in c.nodes && g in c.nodes[n].ingests && c.nodes[n].ingests[g] == w
  }

  /** Since event `from` the change has been at this point. */
  ghost predicate Since(states: seq<Cluster>, n: string, g: nat, w: Ingest, from: nat, upto: nat)
    requires upto < |states|
  {
    from < upto && forall t | from < t <= upto :: HasChange(states[t], n, g, w)
  }

  lemma NoChangeAtStart(c: Cluster, n: string, g: nat, w: Ingest)
    requires Init(c)
    ensures !HasChange(c, n, g, w)
  {
    if n in c.nodes {
      assert EmptyNode(c.nodes[n]);
    }
  }

  /** Event t brought the change to this point. */
  ghost predicate MadeAt(env: Env, states: seq<Cluster>, events: seq<Event>, n: string, g: nat, w: Ingest, t: nat)
    requires |states| == |events| + 1
  {
    t < |events| && events[t].name == n && n in states[t].nodes && Made(env, states[t].nodes[n], events[t].action, g, w)
  }

  lemma StepMakes(env: Env, states: seq<Cluster>, events: seq<Event>, t: nat, n: string, g: nat, w: Ingest)
    requires Run(env, states, events) && t < |events| && HasChange(states[t + 1], n, g, w)
    ensures HasChange(states[t], n, g, w) || MadeAt(env, states, events, n, g, w, t)
  {
    assert Taken(env, states, events, t);
    if events[t].name == n {
      IngestFollows(env, n, states[t].nodes[n], events[t].action, g);
    }
  }

  /** Every change came to where it is at one event, and has been there since. */
  lemma {:induction false} FindMade(env: Env, states: seq<Cluster>, events: seq<Event>, n: string, g: nat, w: Ingest,
                                    j: nat)
    returns (t: nat)
    requires Run(env, states, events) && j < |states| && HasChange(states[j], n, g, w)
    ensures MadeAt(env, states, events, n, g, w, t) && Since(states, n, g, w, t, j)
    decreases j
  {
    NoChangeAtStart(states[0], n, g, w);
    StepMakes(env, states, events, j - 1, n, g, w);
    if HasChange(states[j - 1], n, g, w) {
      t := FindMade(env, states, events, n, g, w, j - 1);
    } else {
      t := j - 1;
    }
  }

  /** The change published at i was read at `read`, found to differ from the index at `compared`, and stamped at
      `stamped`; between these it has not moved. */
  ghost predicate Story(env: Env, states: seq<Cluster>, events: seq<Event>, n: string, g: nat, f: string,
                        content: Bytes, ts: nat, read: nat, compared: nat, stamped: nat, i: nat)
    requires |states| == |events| + 1 && i < |states|
  {
    && MadeAt(env, states, events, n, g, Read(f, content), read)
    && MadeAt(env, states, events, n, g, Differs(f, content), compared)
    && MadeAt(env, states, events, n, g, Stamped(f, content, ts), stamped)
    && Since(states, n, g, Stamped(f, content, ts), stamped, i)
    && Since(states, n, g, Differs(f, content), compared, stamped)
    && Since(states, n, g, Read(f, content), read, compared)
  }

  /** Every stamped change has such a story. */
  lemma FindStory(env: Env, states: seq<Cluster>, events: seq<Event>, n: string, g: nat, f: string, content: Bytes,
                  ts: nat, i: nat)
    returns (read: nat, compared: nat, stamped: nat)
    requires Run(env, states, events) && i < |states| && HasChange(states[i], n, g, Stamped(f, content, ts))
    ensures Story(env, states, events, n, g, f, content, ts, read, compared, stamped, i)
  {
    stamped := FindMade(env, states, events, n, g, Stamped(f, content, ts), i);
    assert HasChange(states[stamped], n, g, Differs(f, content));
    compared := FindMade(env, states, events, n, g, Differs(f, content), stamped);
    assert HasChange(states[compared], n, g, Read(f, content));
    read := FindMade(env, states, events, n, g, Read(f, content), compared);
  }

  lemma NoRestartSince(env: Env, states: seq<Cluster>, events: seq<Event>, n: string, g: nat, w: Ingest, from: nat,
                       upto: nat)
    requires Run(env, states, events) && upto < |states| && Since(states, n, g, w, from, upto)
    ensures forall t | from < t < upto :: events[t] != Event(n, Restart)
  {
    forall t | from < t < upto ensures events[t] != Event(n, Restart) {
      assert Taken(env, states, events, t) && HasChange(states[t + 1], n, g, w);
    }
  }

  /** A restart forgets every change under way: none that is published was read before its node's last restart. */
  lemma NoRestartInStory(env: Env, states: seq<Cluster>, events: seq<Event>, n: string, g: nat, f: string,
                         content: Bytes, ts: nat, read: nat, compared: nat, stamped: nat, i: nat)
    requires Run(env, states, events) && i < |states|
    requires Story(env, states, events, n, g, f, content, ts, read, compared, stamped, i)
    ensures forall t | read < t < i :: events[t] != Event(n, Restart)
  {
    NoRestartSince(env, states, events, n, g, Read(f, content), read, compared);
    NoRestartSince(env, states, events, n, g, Differs(f, content), compared, stamped);
    NoRestartSince(env, states, events, n, g, Stamped(f, content, ts), stamped, i);
  }

  // ---- No echo ----

  /** The index entry of a file stays while the file is as a pull left it and nothing disturbs it. */
  lemma IndexStays(env: Env, name: string, node: Node, a: Action, f: string)
    requires NodeInv(env, node) && Enabled(env, name, node, a) && f in node.pristine && !Disturbs(node, a, f)
    ensures Local(After(env, name, node, a), f) == Local(node, f)
  {
    StoreFrame(env, name, node, a, f);
    if StoresFile(node, a, f) {
      StoringDisturbs(env, node, a, f);
    }
  }

  /** Whatever stores a version of a file disturbs it, or is the commit of a pull that is writing it. */
  lemma StoringDisturbs(env: Env, node: Node, a: Action, f: string)
    requires PullsOk(env, node) && StoresFile(node, a, f)
    ensures Disturbs(node, a, f) || f !in node.pristine
  {
    if a.PullCommit? {
      assert PullOk(env, node, node.pulls[a.k]);
    }
  }

  lemma IndexStep(env: Env, states: seq<Cluster>, events: seq<Event>, n: string, f: string, t: nat)
    requires Run(env, states, events) && t < |events| && n in states[t].nodes && f in states[t].nodes[n].pristine
    requires events[t].name == n ==> !Disturbs(states[t].nodes[n], events[t].action, f)
    ensures n in states[t + 1].nodes && Local(states[t + 1].nodes[n], f) == Local(states[t].nodes[n], f)
  {
    RunInv(env, states, events, t);
    assert Taken(env, states, events, t);
    assert NodeInv(env, states[t].nodes[n]);
    if events[t].name == n {
      IndexStays(env, n, states[t].nodes[n], events[t].action, f);
    }
  }

  lemma {:induction false} IndexUndisturbed(env: Env, states: seq<Cluster>, events: seq<Event>, n: string, f: string,
                                            i: nat, j: nat)
    requires Run(env, states, events) && i <= j < |states| && n in states[i].nodes && f in states[i].nodes[n].pristine
    requires Undisturbed(states, events, n, f, i, j)
    ensures n in states[j].nodes && Local(states[j].nodes[n], f) == Local(states[i].nodes[n], f)
    decreases j
  {
    if i < j {
      IndexUndisturbed(env, states, events, n, f, i, j - 1);
      StaysPristine(env, states, events, n, f, i, j - 1);
      IndexStep(env, states, events, n, f, j - 1);
    }
  }

  /** No echo, in terms of events: a pull committed at i, nobody had edited the file since it started to write it, and
      nothing on that node disturbed it between the commit and event j. Then a change that read the file after the
      commit and compares its root at j is dropped, quiet mark or not, and that is all that happens. */
  lemma NoEchoAfterPull(env: Env, states: seq<Cluster>, events: seq<Event>, n: string, k: nat, f: string, start: nat,
                        i: nat, g: nat, content: Bytes, read: nat, j: nat)
    requires Run(env, states, events) && ValidEnv(env) && NoCollisions(env)
    requires start < i < read < j < |events| && events[i] == Event(n, PullCommit(k))
    requires WritesFrom(states, events, n, k, f, start, i) && (forall t | start < t < i :: !Edits(events, n, f, t))
    requires Undisturbed(states, events, n, f, i + 1, j)
    requires MadeAt(env, states, events, n, g, Read(f, content), read) && Since(states, n, g, Read(f, content), read, j)
    requires events[j] == Event(n, IngestCompare(g))
    ensures n in states[j].nodes && states[j + 1].hints == states[j].hints
    ensures var node := states[j].nodes[n];
      states[j + 1].nodes == states[j].nodes[n := node.(ingests := node.ingests - {g})]
  {
    CleanCommit(env, states, events, n, k, f, start, i);
    StaysPristine(env, states, events, n, f, i + 1, read);
    NoEcho(env, states, events, read, n, f);
    IndexUndisturbed(env, states, events, n, f, read, j);
    assert HasChange(states[j], n, g, Read(f, content));
    SameIndex(env, states[read].nodes[n], states[j].nodes[n], f, content);
    assert Taken(env, states, events, j);
    assert After(env, n, states[j].nodes[n], IngestCompare(g)) == CompareIngest(env, states[j].nodes[n], g);
    assert states[j].hints + {} == states[j].hints;
  }

  lemma SameIndex(env: Env, node: Node, node': Node, f: string, content: Bytes)
    requires Local(node, f) == Local(node', f)
    ensures Indexed(env, node, f, content) <==> Indexed(env, node', f, content)
  {
  }
}
