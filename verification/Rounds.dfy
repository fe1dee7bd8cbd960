/** Exchanges and rounds as stretches of runs: one node hears of another's version and, if that starts a pull,
    the pull runs to its end without fault, its steps in any order. What is proved of rounds on versions alone
    holds of every such stretch. */
module Rounds {
  import opened Base
  import opened Protocol
  import opened Integrity
  import opened Runs
  import opened Progress
  import Exchange

  /** How one exchange goes: the number of the pull and its steps. */
  datatype Talk = Talk(k: nat, acts: seq<Action>)

  /** Node j has served its catalogue entry and node i has taken it in. */
  ghost function Heard(c: Cluster, i: string, j: string, f: string, k: nat, peers: seq<string>): Cluster
    requires i in c.nodes && j in c.nodes && f in c.nodes[j].meta
  {
    var m := c.nodes[j].meta[f];
    var hint := Listed(f, m.merkleRoot, m.lamportTs, j);
    Cluster(c.nodes[i := ReconcileEntry(i, c.nodes[i], hint, k, peers)], c.hints + {hint})
  }

  /** A faultless pull from claim to release. */
  ghost predicate WholePull(env: Env, i: string, k: nat, c: Cluster, acts: seq<Action>, c': Cluster) {
    Reach(FaultlessOf(env, i, k), c, acts, c') && i in c'.nodes && k !in c'.nodes[i].pulls
  }

  /** Node i exchanges with node j; nothing happens if j has nothing to tell. */
  ghost predicate ExchangeRun(env: Env, peers: Exchange.Peers, f: string, i: string, j: string, talk: Talk, c: Cluster,
                              c': Cluster) {
    i in c.nodes && j in c.nodes && i in peers &&
    if i == j || f !in c.nodes[j].meta then talk.acts == [] && c' == c
    else
      var c1 := Heard(c, i, j, f, talk.k, peers[i]);
      && talk.k !in c.nodes[i].pulls
      && if talk.k in c1.nodes[i].pulls then WholePull(env, i, talk.k, c1, talk.acts, c')
         else talk.acts == [] && c' == c1
  }

  ghost predicate RoundRun(env: Env, peers: Exchange.Peers, f: string, round: seq<(string, string)>, talks: seq<Talk>,
                           c: Cluster, c': Cluster)
    decreases |round|
  {
    if round == [] then talks == [] && c' == c
    else
      talks != [] && exists c1 ::
        ExchangeRun(env, peers, f, round[0].0, round[0].1, talks[0], c, c1) &&
        RoundRun(env, peers, f, round[1..], talks[1..], c1, c')
  }

  // ---- Hearing ----

  lemma HeardLeads(env: Env, c: Cluster, i: string, j: string, f: string, k: nat, peers: seq<string>)
    returns (events: seq<Event>)
    requires i in c.nodes && j in c.nodes && i != j && f in c.nodes[j].meta && !HasDbExt(f)
    requires k !in c.nodes[i].pulls && i !in peers
    ensures Leads(env, c, events, Heard(c, i, j, f, k, peers)) && (forall e | e in events :: !e.action.UserWrite?)
  {
    var m := c.nodes[j].meta[f];
    var hint := Listed(f, m.merkleRoot, m.lamportTs, j);
    var served := Protocol.Step(env, c, j, ServeEntry(f));
    assert served == Cluster(c.nodes, c.hints + {hint}) by { assert c.nodes[j := c.nodes[j]] == c.nodes; }
    LeadsOne(env, c, j, ServeEntry(f));
    var heard := Protocol.Step(env, served, i, Deliver(hint, k, peers));
    assert heard == Heard(c, i, j, f, k, peers) by { assert served.hints + {} == served.hints; }
    LeadsOne(env, served, i, Deliver(hint, k, peers));
    events := [Event(j, ServeEntry(f))] + [Event(i, Deliver(hint, k, peers))];
    LeadsJoin(env, c, [Event(j, ServeEntry(f))], served, [Event(i, Deliver(hint, k, peers))], heard);
  }

  lemma {:induction false} FirstHolderIndex(c: Cluster, f: string, peers: seq<string>) returns (q: nat)
    requires Exchange.FirstHolder(peers, View(c, f)).Some?
    ensures FirstWith(c, peers, f, q) && Some(peers[q]) == Exchange.FirstHolder(peers, View(c, f))
  {
    if peers[0] in c.nodes && f in c.nodes[peers[0]].meta {
      q := 0;
    } else {
      var r := FirstHolderIndex(c, f, peers[1..]);
      q := r + 1;
      forall p | 0 <= p < q ensures peers[p] in c.nodes ==> f !in c.nodes[peers[p]].meta {
        assert p > 0 ==> peers[p] == peers[1..][p - 1];
      }
    }
  }

  ghost predicate IdleBut(c: Cluster, i: string, f: string) {
    forall n | n in c.nodes && n != i :: f !in c.nodes[n].syncing
  }

  /** Hearing starts a pull exactly when the exchange starts one, and changes nobody's version. */
  lemma HeardStarts(c: Cluster, i: string, j: string, f: string, k: nat, peers: seq<string>)
    requires Idle(c, f) && i in c.nodes && j in c.nodes && i != j && f in c.nodes[j].meta && k !in c.nodes[i].pulls
    ensures var c1 := Heard(c, i, j, f, k, peers);
      && View(c1, f) == View(c, f) && c1.nodes == c.nodes[i := c1.nodes[i]] && IdleBut(c1, i, f)
      && (k in c1.nodes[i].pulls <==> Exchange.Starts(View(c, f), i, j))
      && (k in c1.nodes[i].pulls ==>
            c1.nodes[i].pulls[k] == Pull(f, peers, Claimed) && c1.nodes[i].syncing == c.nodes[i].syncing + {f})
      && (k !in c1.nodes[i].pulls ==> c1.nodes == c.nodes)
  {
    var m := c.nodes[j].meta[f];
    var after := ReconcileEntry(i, c.nodes[i], Listed(f, m.merkleRoot, m.lamportTs, j), k, peers);
    assert Local(after, f) == Local(c.nodes[i], f);
    ViewUpdate(c, Heard(c, i, j, f, k, peers), i, f);
    assert View(c, f)[i := View(c, f)[i]] == View(c, f);
    if k !in after.pulls {
      assert after == c.nodes[i];
      assert c.nodes[i := c.nodes[i]] == c.nodes;
    }
  }

  // ---- After the pull ----

  lemma LocalAfter(g: Course, after: Node)
    requires g.k in g.base.pulls && g.local == Local(g.base, FileOf(g)) && Ends(g, after)
    ensures FileOf(g) !in after.syncing
    ensures Local(after, FileOf(g)) ==
      if Exchange.RootOf(g.local) == Some(g.remote.merkleRoot) then g.local else Some(g.remote)
  {
  }

  lemma IdleAfter(c: Cluster, c': Cluster, i: string, f: string)
    requires i in c.nodes && i in c'.nodes && f !in c'.nodes[i].syncing && c'.nodes == c.nodes[i := c'.nodes[i]]
    requires IdleBut(c, i, f)
    ensures Idle(c', f) && c'.nodes.Keys == c.nodes.Keys
  {
  }

  lemma AdoptedView(c: Cluster, c': Cluster, peers: Exchange.Peers, i: string, j: string, f: string, source: string)
    requires i in c.nodes && j in c.nodes && i in peers && Exchange.Starts(View(c, f), i, j)
    requires i in c'.nodes && c'.nodes == c.nodes[i := c'.nodes[i]]
    requires source in c.nodes && f in c.nodes[source].meta
    requires Exchange.FirstHolder(peers[i], View(c, f)) == Some(source)
    requires var m, local := c.nodes[source].meta[f], Local(c.nodes[i], f);
      Local(c'.nodes[i], f) == if Exchange.RootOf(local) == Some(m.merkleRoot) then local else Some(m)
    ensures View(c', f) == Exchange.Step(Exchange.FromList(peers), View(c, f), i, j)
  {
    ViewUpdate(c, c', i, f);
    Adopts(View(c, f), peers, i, j, source);
  }

  lemma Adopts(s: Exchange.Replicas, peers: Exchange.Peers, i: string, j: string, source: string)
    requires i in s && j in s && i in peers && Exchange.Starts(s, i, j)
    requires Exchange.FirstHolder(peers[i], s) == Some(source)
    ensures source in s && s[source].Some?
    ensures Exchange.Step(Exchange.FromList(peers), s, i, j) ==
      s[i := if Exchange.RootOf(s[i]) == Exchange.RootOf(s[source]) then s[i] else s[source]]
  {
    assert s[i := s[i]] == s;
  }

  // ---- Every exchange ----

  ghost predicate Listing(peers: Exchange.Peers, i: string, j: string) {
    i in peers && i !in peers[i] && (i != j ==> j in peers[i])
  }

  /** A claimed pull of the file, on a node whose list has a holder. */
  ghost predicate ReadyToPull(env: Env, c: Cluster, peers: Exchange.Peers, i: string, f: string, k: nat, q: nat) {
    && ClusterInv(env, c) && i in c.nodes && i in peers && i !in peers[i]
    && k in c.nodes[i].pulls && c.nodes[i].pulls[k] == Pull(f, peers[i], Claimed)
    && FirstWith(c, peers[i], f, q) && Exchange.FirstHolder(peers[i], View(c, f)) == Some(peers[i][q])
  }

  /** Every whole pull is the exchange's step on versions. */
  lemma EveryWholePull(env: Env, c: Cluster, peers: Exchange.Peers, i: string, j: string, f: string, k: nat, q: nat,
                       acts: seq<Action>, c': Cluster)
    requires ReadyToPull(env, c, peers, i, f, k, q) && j in c.nodes && Exchange.Starts(View(c, f), i, j)
    requires IdleBut(c, i, f)
    requires WholePull(env, i, k, c, acts, c')
    ensures ClusterInv(env, c') && Idle(c', f) && c'.nodes.Keys == c.nodes.Keys
    ensures View(c', f) == Exchange.Step(Exchange.FromList(peers), View(c, f), i, j)
  {
    EveryFaultlessPull(env, c, i, k, q, acts, c');
    var g := CourseOf(c, i, k, q);
    LocalAfter(g, c'.nodes[i]);
    AdoptedView(c, c', peers, i, j, f, peers[i][q]);
    IdleAfter(c, c', i, f);
  }

  lemma SomeWholePull(env: Env, c: Cluster, peers: Exchange.Peers, i: string, f: string, k: nat, q: nat)
    returns (acts: seq<Action>, c': Cluster)
    requires ReadyToPull(env, c, peers, i, f, k, q)
    ensures WholePull(env, i, k, c, acts, c')
  {
    ClaimedOnTrack(env, c, i, k, q);
    var g := CourseOf(c, i, k, q);
    assert With(c, i, g.base, c.hints) == c by { assert c.nodes[i := g.base] == c.nodes; }
    acts, c' := SomeWay(env, c, i, g, g.base, c.hints, 0);
    EveryFaultlessPull(env, c, i, k, q, acts, c');
  }

  /** A started exchange is ready to pull. */
  lemma HeardReady(env: Env, c: Cluster, peers: Exchange.Peers, i: string, j: string, f: string, k: nat)
    returns (q: nat)
    requires ClusterInv(env, c) && Idle(c, f) && !HasDbExt(f) && i in c.nodes && j in c.nodes && i != j
    requires Listing(peers, i, j) && f in c.nodes[j].meta && k !in c.nodes[i].pulls
    requires k in Heard(c, i, j, f, k, peers[i]).nodes[i].pulls
    ensures ReadyToPull(env, Heard(c, i, j, f, k, peers[i]), peers, i, f, k, q)
  {
    var c1 := Heard(c, i, j, f, k, peers[i]);
    var events := HeardLeads(env, c, i, j, f, k, peers[i]);
    LeadsKeepsInv(env, c, events, c1);
    HeardStarts(c, i, j, f, k, peers[i]);
    assert View(c1, f)[j].Some?;
    q := FirstHolderIndex(c1, f, peers[i]);
  }

  /** Every exchange without fault has the effect its step on versions has, and leaves the cluster in order. */
  lemma EveryExchange(env: Env, c: Cluster, peers: Exchange.Peers, i: string, j: string, f: string, talk: Talk,
                      c': Cluster)
    returns (events: seq<Event>)
    requires ClusterInv(env, c) && Idle(c, f) && !HasDbExt(f) && Listing(peers, i, j)
    requires ExchangeRun(env, peers, f, i, j, talk, c, c')
    ensures Leads(env, c, events, c') && ClusterInv(env, c') && Idle(c', f) && c'.nodes.Keys == c.nodes.Keys
    ensures View(c', f) == Exchange.Step(Exchange.FromList(peers), View(c, f), i, j)
  {
    if i == j || f !in c.nodes[j].meta {
      Exchange.SelfStep(Exchange.FromList(peers), View(c, f), i);
      return [];
    }
    var c1 := Heard(c, i, j, f, talk.k, peers[i]);
    events := HeardLeads(env, c, i, j, f, talk.k, peers[i]);
    LeadsKeepsInv(env, c, events, c1);
    if talk.k in c1.nodes[i].pulls {
      HeardStarts(c, i, j, f, talk.k, peers[i]);
      var q := HeardReady(env, c, peers, i, j, f, talk.k);
      var pulled := PulledExchange(env, c1, peers, i, j, f, talk, q, c');
      LeadsJoin(env, c, events, c1, pulled, c');
      events := events + pulled;
    } else {
      HeardStarts(c, i, j, f, talk.k, peers[i]);
    }
  }

  lemma PulledExchange(env: Env, c: Cluster, peers: Exchange.Peers, i: string, j: string, f: string, talk: Talk, q: nat,
                       c': Cluster)
    returns (events: seq<Event>)
    requires ReadyToPull(env, c, peers, i, f, talk.k, q) && j in c.nodes && Exchange.Starts(View(c, f), i, j)
    requires IdleBut(c, i, f) && WholePull(env, i, talk.k, c, talk.acts, c')
    ensures Leads(env, c, events, c') && ClusterInv(env, c') && Idle(c', f) && c'.nodes.Keys == c.nodes.Keys
    ensures View(c', f) == Exchange.Step(Exchange.FromList(peers), View(c, f), i, j)
  {
    EveryWholePull(env, c, peers, i, j, f, talk.k, q, talk.acts, c');
    FaultlessLeads(env, i, talk.k, c, talk.acts, c');
    events := EventsOf(i, talk.acts);
  }

  /** And there is one. */
  lemma SomeExchange(env: Env, c: Cluster, peers: Exchange.Peers, i: string, j: string, f: string)
    returns (talk: Talk, c': Cluster)
    requires ClusterInv(env, c) && Idle(c, f) && !HasDbExt(f) && Listing(peers, i, j) && i in c.nodes && j in c.nodes
    ensures ExchangeRun(env, peers, f, i, j, talk, c, c')
  {
    if i == j || f !in c.nodes[j].meta {
      return Talk(0, []), c;
    }
    var k := FreshId(c.nodes[i].pulls.Keys);
    var c1 := Heard(c, i, j, f, k, peers[i]);
    HeardStarts(c, i, j, f, k, peers[i]);
    if k !in c1.nodes[i].pulls {
      return Talk(k, []), c1;
    }
    var q := HeardReady(env, c, peers, i, j, f, k);
    var acts;
    acts, c' := SomeWholePull(env, c1, peers, i, f, k, q);
    talk := Talk(k, acts);
  }

  // ---- Every round ----

  lemma {:induction false} EveryRound(env: Env, c: Cluster, peers: Exchange.Peers, f: string,
                                      round: seq<(string, string)>, talks: seq<Talk>, c': Cluster)
    returns (events: seq<Event>)
    requires ClusterInv(env, c) && Idle(c, f) && !HasDbExt(f) && Exchange.ListsOthers(c.nodes.Keys, peers)
    requires Exchange.Within(c.nodes.Keys, round) && RoundRun(env, peers, f, round, talks, c, c')
    ensures Leads(env, c, events, c') && ClusterInv(env, c') && Idle(c', f) && c'.nodes.Keys == c.nodes.Keys
    ensures View(c', f) == Exchange.Round(Exchange.FromList(peers), View(c, f), round)
    decreases |round|
  {
    if round == [] {
      return [];
    }
    var c1 :| ExchangeRun(env, peers, f, round[0].0, round[0].1, talks[0], c, c1) &&
              RoundRun(env, peers, f, round[1..], talks[1..], c1, c');
    var first := EveryExchange(env, c, peers, round[0].0, round[0].1, f, talks[0], c1);
    var rest := EveryRound(env, c1, peers, f, round[1..], talks[1..], c');
    events := first + rest;
    LeadsJoin(env, c, first, c1, rest, c');
  }

  lemma {:induction false} SomeRound(env: Env, c: Cluster, peers: Exchange.Peers, f: string,
                                     round: seq<(string, string)>)
    returns (talks: seq<Talk>, c': Cluster)
    requires ClusterInv(env, c) && Idle(c, f) && !HasDbExt(f) && Exchange.ListsOthers(c.nodes.Keys, peers)
    requires Exchange.Within(c.nodes.Keys, round)
    ensures RoundRun(env, peers, f, round, talks, c, c')
    decreases |round|
  {
    if round == [] {
      return [], c;
    }
    var talk, c1 := SomeExchange(env, c, peers, round[0].0, round[0].1, f);
    var _ := EveryExchange(env, c, peers, round[0].0, round[0].1, f, talk, c1);
    var rest;
    rest, c' := SomeRound(env, c1, peers, f, round[1..]);
    talks := [talk] + rest;
    assert talks[1..] == rest;
  }

  /** Every way of going through rounds without fault ends with the versions the rounds end with. */
  lemma EveryRounds(env: Env, c: Cluster, peers: Exchange.Peers, f: string, rounds: seq<seq<(string, string)>>,
                    talks: seq<Talk>, c': Cluster) returns (events: seq<Event>)
    requires ClusterInv(env, c) && Idle(c, f) && !HasDbExt(f) && Exchange.ListsOthers(c.nodes.Keys, peers)
    requires Exchange.AllComplete(c.nodes.Keys, rounds)
    requires RoundRun(env, peers, f, Exchange.Flatten(rounds), talks, c, c')
    ensures Leads(env, c, events, c') && ClusterInv(env, c') && Idle(c', f) && c'.nodes.Keys == c.nodes.Keys
    ensures View(c', f) == Exchange.Rounds(Exchange.FromList(peers), View(c, f), rounds)
  {
    Exchange.RoundsFlatten(Exchange.FromList(peers), View(c, f), rounds);
    events := EveryRound(env, c, peers, f, Exchange.Flatten(rounds), talks, c');
  }

  // ---- Lists that change from exchange to exchange ----

  ghost function ListOf(m: Exchange.Meeting): Exchange.Peers {
    map[m.i := m.peers]
  }

  /** Every node lists the one it meets, and not itself. */
  ghost predicate AllListed(ms: seq<Exchange.Meeting>) {
    forall m | m in ms :: Listing(ListOf(m), m.i, m.j)
  }

  /** The meetings, one after the other, each with its own list and gone through in its own way. */
  ghost predicate MeetRun(env: Env, f: string, ms: seq<Exchange.Meeting>, talks: seq<Talk>, c: Cluster, c': Cluster)
    decreases |ms|
  {
    if ms == [] then talks == [] && c' == c
    else
      talks != [] && exists c1 ::
        ExchangeRun(env, ListOf(ms[0]), f, ms[0].i, ms[0].j, talks[0], c, c1) &&
        MeetRun(env, f, ms[1..], talks[1..], c1, c')
  }

  lemma {:induction false} EveryMeeting(env: Env, c: Cluster, f: string, ms: seq<Exchange.Meeting>, talks: seq<Talk>,
                                        c': Cluster) returns (events: seq<Event>)
    requires ClusterInv(env, c) && Idle(c, f) && !HasDbExt(f) && AllListed(ms) && Exchange.Among(View(c, f), ms)
    requires MeetRun(env, f, ms, talks, c, c')
    ensures Leads(env, c, events, c') && ClusterInv(env, c') && Idle(c', f) && c'.nodes.Keys == c.nodes.Keys
    ensures View(c', f) == Exchange.MeetAll(View(c, f), ms)
    decreases |ms|
  {
    if ms == [] {
      return [];
    }
    var m := ms[0];
    var c1 :| ExchangeRun(env, ListOf(m), f, m.i, m.j, talks[0], c, c1) && MeetRun(env, f, ms[1..], talks[1..], c1, c');
    var first := EveryExchange(env, c, ListOf(m), m.i, m.j, f, talks[0], c1);
    var rest := EveryMeeting(env, c1, f, ms[1..], talks[1..], c');
    events := first + rest;
    LeadsJoin(env, c, first, c1, rest, c');
  }

  lemma {:induction false} SomeMeeting(env: Env, c: Cluster, f: string, ms: seq<Exchange.Meeting>)
    returns (talks: seq<Talk>, c': Cluster)
    requires ClusterInv(env, c) && Idle(c, f) && !HasDbExt(f) && AllListed(ms) && Exchange.Among(View(c, f), ms)
    ensures MeetRun(env, f, ms, talks, c, c')
    decreases |ms|
  {
    if ms == [] {
      return [], c;
    }
    var m := ms[0];
    var talk, c1 := SomeExchange(env, c, ListOf(m), m.i, m.j, f);
    var _ := EveryExchange(env, c, ListOf(m), m.i, m.j, f, talk, c1);
    var rest;
    rest, c' := SomeMeeting(env, c1, f, ms[1..]);
    talks := [talk] + rest;
    assert talks[1..] == rest;
  }
}
