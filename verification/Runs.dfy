/** Stretches of runs: events that lead from one cluster to another. */
module Runs {
  import opened Base
  import opened Protocol
  import opened Integrity
  import Exchange

  /** The acts, one after the other, take s to t. */
  ghost predicate Reach<S(!new), A(!new)>(next: (S, A) -> Option<S>, s: S, acts: seq<A>, t: S)
    decreases |acts|
  {
    if acts == [] then s == t
    else next(s, acts[0]).Some? && Reach(next, next(s, acts[0]).value, acts[1..], t)
  }

  lemma {:induction false} ReachJoin<S(!new), A(!new)>(next: (S, A) -> Option<S>, s: S, a: seq<A>, t: S, b: seq<A>,
                                                       u: S)
    requires Reach(next, s, a, t) && Reach(next, t, b, u)
    ensures Reach(next, s, a + b, u)
    decreases |a|
  {
    if a == [] {
      assert a + b == b;
    } else {
      ReachJoin(next, next(s, a[0]).value, a[1..], t, b, u);
      assert (a + b)[1..] == a[1..] + b;
    }
  }

  ghost function StepOf(env: Env): (Cluster, Event) -> Option<Cluster> {
    (c: Cluster, e: Event) =>
      if Possible(env, c, e.name, e.action) then Some(Protocol.Step(env, c, e.name, e.action)) else None
  }

  /** The events take the cluster from c to c'. */
  ghost predicate Leads(env: Env, c: Cluster, events: seq<Event>, c': Cluster) {
    Reach(StepOf(env), c, events, c')
  }

  lemma LeadsJoin(env: Env, c: Cluster, a: seq<Event>, d: Cluster, b: seq<Event>, e: Cluster)
    requires Leads(env, c, a, d) && Leads(env, d, b, e)
    ensures Leads(env, c, a + b, e)
  {
    ReachJoin(StepOf(env), c, a, d, b, e);
  }

  lemma LeadsOne(env: Env, c: Cluster, name: string, a: Action)
    requires Possible(env, c, name, a)
    ensures Leads(env, c, [Event(name, a)], Protocol.Step(env, c, name, a))
  {
    assert [Event(name, a)][1..] == [];
  }

  lemma {:induction false} LeadsKeepsInv(env: Env, c: Cluster, events: seq<Event>, c': Cluster)
    requires ClusterInv(env, c) && Leads(env, c, events, c')
    ensures ClusterInv(env, c')
    decreases |events|
  {
    if events != [] {
      StepKeepsInv(env, c, events[0].name, events[0].action);
      LeadsKeepsInv(env, Protocol.Step(env, c, events[0].name, events[0].action), events[1..], c');
    }
  }

  /** The states passed on the way. */
  lemma {:induction false} LeadsIsSteps(env: Env, c: Cluster, events: seq<Event>, c': Cluster)
    returns (states: seq<Cluster>)
    requires Leads(env, c, events, c')
    ensures Steps(env, states, events) && states[0] == c && states[|events|] == c'
    decreases |events|
  {
    if events == [] {
      return [c];
    }
    var c1 := Protocol.Step(env, c, events[0].name, events[0].action);
    var rest := LeadsIsSteps(env, c1, events[1..], c');
    states := [c] + rest;
    forall i | 0 <= i < |events|
      ensures Taken(env, states, events, i)
    {
      if i > 0 {
        assert events[i] == events[1..][i - 1];
        assert Taken(env, rest, events[1..], i - 1);
      }
    }
  }

  /** The cluster c, except for node i and the pool of hints. */
  ghost function With(c: Cluster, i: string, node: Node, hints: set<Hint>): Cluster {
    Cluster(c.nodes[i := node], hints)
  }

  /** Two stretches that change only node i and the hints. */
  lemma LeadsWith(env: Env, c: Cluster, i: string, a: seq<Event>, node: Node, hints: set<Hint>, b: seq<Event>,
                  node': Node, hints': set<Hint>)
    requires Leads(env, c, a, With(c, i, node, hints))
    requires Leads(env, With(c, i, node, hints), b, With(With(c, i, node, hints), i, node', hints'))
    ensures Leads(env, c, a + b, With(c, i, node', hints'))
  {
    assert c.nodes[i := node][i := node'] == c.nodes[i := node'];
    LeadsJoin(env, c, a, With(c, i, node, hints), b, With(c, i, node', hints'));
  }

  /** What each node holds of the file. */
  ghost function View(c: Cluster, f: string): (s: Exchange.Replicas)
    ensures s.Keys == c.nodes.Keys
  {
    map n | n in c.nodes :: Local(c.nodes[n], f)
  }

  lemma ViewUpdate(c: Cluster, c': Cluster, i: string, f: string)
    requires i in c.nodes && i in c'.nodes && c'.nodes == c.nodes[i := c'.nodes[i]]
    ensures View(c', f) == View(c, f)[i := Local(c'.nodes[i], f)]
  {
  }

  /** No pull of the file is claimed or running. */
  ghost predicate Idle(c: Cluster, f: string) {
    forall n | n in c.nodes :: f !in c.nodes[n].syncing
  }

  lemma FreshId(used: set<nat>) returns (k: nat)
    ensures k !in used
  {
    if used == {} {
      return 0;
    }
    var b := Biggest(used);
    k := b + 1;
  }

  lemma {:induction false} Biggest(used: set<nat>) returns (b: nat)
    requires used != {}
    ensures forall u | u in used :: u <= b
  {
    var u :| u in used;
    var rest := used - {u};
    if rest == {} {
      assert used == {u};
      return u;
    }
    var r := Biggest(rest);
    b := if r < u then u else r;
    assert forall x | x in used :: x == u || x in rest;
  }
}
