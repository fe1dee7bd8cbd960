/** What the peer loop of `Engine.Pull` does to convergence. The pull asks its peers in the listed
    order and takes the first one that has the file, not the one whose version started the sync.
    With fixed peer lists the cluster always converges exactly when following first-listed peers
    leads from every node to every other. */
module FirstPeer {
  import opened Base
  import opened Conflict
  import opened Exchange
  import opened Convergence

  /** The peer a pull of node i asks first. */
  ghost function First(peers: Peers, i: string): string {
    if i in peers && peers[i] != [] then peers[i][0] else i
  }

  /** There are others to list, and nobody else is listed. */
  ghost predicate FullLists(nodes: set<string>, peers: Peers) {
    && |nodes| >= 2 && peers.Keys == nodes && ListsOthers(nodes, peers)
    && (forall i, j {:trigger j in peers[i]} | i in nodes && j in peers[i] :: j in nodes)
  }

  /** Every node of the set lists a node of the set first. */
  ghost predicate Closed(peers: Peers, group: set<string>) {
    forall i {:trigger First(peers, i)} | i in group :: First(peers, i) in group
  }

  /** Following first-listed peers from anywhere leads everywhere: no proper part of the cluster
      lists only itself first. */
  ghost predicate OneRing(nodes: set<string>, peers: Peers) {
    forall group: set<string> {:trigger Closed(peers, group)} | group <= nodes && group != {} && Closed(peers, group) ::
      group == nodes
  }

  ghost predicate AllOk(s: Replicas, ok: FileMeta -> bool) {
    forall i | i in s && s[i].Some? :: ok(s[i].value)
  }

  /** From every state with versions of this kind. */
  ghost predicate ConvergesWithin(nodes: set<string>, peers: Peers, ok: FileMeta -> bool, bound: nat) {
    forall s: Replicas, rounds |
      s.Keys == nodes && AllOk(s, ok) && AllComplete(nodes, rounds) && |rounds| >= bound ::
      Agree(Rounds(FromList(peers), s, rounds))
  }

  // ---- With one ring ----

  ghost predicate AllHold(s: Replicas) {
    forall i | i in s :: s[i].Some?
  }

  lemma FirstIsFirst(s: Replicas, peers: Peers, i: string, j: string)
    requires FullLists(s.Keys, peers) && AllHold(s) && i in s && j in s
    ensures First(peers, i) in s && First(peers, i) != i
    ensures Source(FromList(peers), s, i, j) == Some(First(peers, i))
  {
    assert |s.Keys - {i}| == |s.Keys| - 1;
    var k :| k in s.Keys - {i};
    assert k in peers[i];
    assert peers[i][0] in peers[i];
  }

  /** `good` holds the top node's root and, except for the top node, pulls only from inside itself. */
  ghost predicate Ring(s: Replicas, peers: Peers, m: string, good: set<string>) {
    && FullLists(s.Keys, peers) && AllHold(s) && Top(s, m) && m in good && good <= s.Keys
    && (forall i | i in good :: RootOf(s[i]) == RootOf(s[m]))
    && (forall i {:trigger First(peers, i)} | i in good && i != m :: First(peers, i) in good)
  }

  /** The node nobody wins against keeps its version; only a greater name can take its place. */
  lemma TopRises(s: Replicas, peers: Peers, m: string, i: string, j: string)
    requires FullLists(s.Keys, peers) && AllHold(s) && Top(s, m) && i in s && j in s
    ensures var s' := Step(FromList(peers), s, i, j);
      AllHold(s') && s'[m] == s[m] && (Top(s', m) || (Below(m, i) && Top(s', i)))
  {
    FirstIsFirst(s, peers, i, j);
    var s' := Step(FromList(peers), s, i, j);
    if s' != s {
      BelowTotal(m, m);
      if i == m {
        WinnerIsAntisymmetric(s[m].value.lamportTs, m, s[j].value.lamportTs, j);
        assert false;
      }
      var src := First(peers, i);
      BelowTotal(m, i);
      assert s'[i].value.lamportTs <= s[m].value.lamportTs;
      if s'[i].value.lamportTs == s[m].value.lamportTs && Below(m, i) {
        forall k | k in s' && k != i ensures RemoteWins(s'[k].value.lamportTs, k, s'[i].value.lamportTs, i) {
          if k != m && s[k].value.lamportTs == s[m].value.lamportTs {
            BelowTransitive(k, m, i);
          }
        }
      }
    }
  }

  lemma {:induction false} TopRisesRound(s: Replicas, peers: Peers, round: seq<(string, string)>, m: string)
    returns (m': string)
    requires FullLists(s.Keys, peers) && AllHold(s) && Top(s, m) && Within(s.Keys, round)
    ensures var s' := Round(FromList(peers), s, round);
      AllHold(s') && Top(s', m') && (m' == m || Below(m, m'))
    decreases |round|
  {
    m' := m;
    if round != [] {
      var (i, j) := round[0];
      TopRises(s, peers, m, i, j);
      var s1 := Step(FromList(peers), s, i, j);
      var m1 := if Top(s1, m) then m else i;
      m' := TopRisesRound(s1, peers, round[1..], m1);
      if m1 != m && m' != m1 {
        BelowTransitive(m, m1, m');
      }
    }
  }

  lemma {:induction false} TopRisesRounds(s: Replicas, peers: Peers, rounds: seq<seq<(string, string)>>, m: string)
    returns (m': string)
    requires FullLists(s.Keys, peers) && AllHold(s) && Top(s, m) && AllComplete(s.Keys, rounds)
    ensures var s' := Rounds(FromList(peers), s, rounds);
      AllHold(s') && Top(s', m') && (m' == m || Below(m, m'))
    decreases |rounds|
  {
    m' := m;
    if rounds != [] {
      var m1 := TopRisesRound(s, peers, rounds[0], m);
      m' := TopRisesRounds(Round(FromList(peers), s, rounds[0]), peers, rounds[1..], m1);
      if m1 != m && m' != m1 {
        BelowTransitive(m, m1, m');
      }
    }
  }

  lemma TopStaysAbove(s: Replicas, peers: Peers, rounds: seq<seq<(string, string)>>, m: string, m1: string)
    returns (m': string)
    requires FullLists(s.Keys, peers) && AllHold(s) && Top(s, m1) && Below(m, m1) && AllComplete(s.Keys, rounds)
    ensures var s' := Rounds(FromList(peers), s, rounds); AllHold(s') && Top(s', m') && Below(m, m')
  {
    m' := TopRisesRounds(s, peers, rounds, m1);
    if m' != m1 {
      BelowTransitive(m, m1, m');
    }
  }

  lemma RingStep(s: Replicas, peers: Peers, m: string, good: set<string>, i: string, j: string)
    requires Ring(s, peers, m, good) && i in s && j in s
    requires Top(Step(FromList(peers), s, i, j), m)
    ensures var s' := Step(FromList(peers), s, i, j);
      && Ring(s', peers, m, good)
      && forall x {:trigger First(peers, x)} | x in s && First(peers, x) in good ::
           (RootOf(s[x]) == RootOf(s[m]) || (i == x && j == m && x != m)) ==> RootOf(s'[x]) == RootOf(s'[m])
  {
    FirstIsFirst(s, peers, i, j);
    TopRises(s, peers, m, i, j);
    if i in good && i != m {
      assert RootOf(s[First(peers, i)]) == RootOf(s[m]);
    }
    if j == m && i != m {
      assert RootOf(s[i]) != RootOf(s[m]) ==> Starts(s, i, m);
    }
  }

  /** One complete round adds a node that lists a good node first, unless the top node changes. */
  lemma {:induction false} RingRound(s: Replicas, peers: Peers, round: seq<(string, string)>,
                                     m: string, good: set<string>, x: string) returns (m': string)
    requires Ring(s, peers, m, good) && Within(s.Keys, round)
    requires x in s && x != m && First(peers, x) in good
    requires RootOf(s[x]) == RootOf(s[m]) || (x, m) in round
    ensures var s' := Round(FromList(peers), s, round);
      AllHold(s') && Top(s', m') && (Below(m, m') || (m' == m && Ring(s', peers, m, good + {x})))
    decreases |round|
  {
    m' := m;
    if round != [] {
      var (i, j) := round[0];
      var s1 := Step(FromList(peers), s, i, j);
      TopRises(s, peers, m, i, j);
      if Top(s1, m) {
        RingStep(s, peers, m, good, i, j);
        m' := RingRound(s1, peers, round[1..], m, good, x);
      } else {
        m' := TopRisesRound(s1, peers, round[1..], i);
        if m' != i {
          BelowTransitive(m, i, m');
        }
      }
    }
  }

  lemma NextGood(s: Replicas, peers: Peers, m: string, good: set<string>) returns (x: string)
    requires Ring(s, peers, m, good) && OneRing(s.Keys, peers) && good != s.Keys
    ensures x in s.Keys - good && First(peers, x) in good
  {
    var rest := s.Keys - good;
    assert s.Keys == good + rest;
    assert m !in rest;
    assert !Closed(peers, rest);
    x :| x in rest && First(peers, x) !in rest;
    FirstIsFirst(s, peers, x, m);
  }

  /** One complete round: the good set grows, or a greater name takes the top. */
  lemma RingGrows(nodes: set<string>, s: Replicas, peers: Peers, round: seq<(string, string)>, m: string,
                  good: set<string>)
    returns (m': string, x: string)
    requires s.Keys == nodes && Ring(s, peers, m, good) && OneRing(nodes, peers) && good != nodes
    requires Complete(nodes, round)
    ensures var s' := Round(FromList(peers), s, round);
      && AllHold(s') && Top(s', m') && (Below(m, m') || (m' == m && Ring(s', peers, m, good + {x})))
      && x in nodes - good && |nodes - (good + {x})| == |nodes - good| - 1
  {
    x := NextGood(s, peers, m, good);
    assert (x, m) in round;
    m' := RingRound(s, peers, round, m, good, x);
    assert nodes - (good + {x}) == (nodes - good) - {x};
  }

  lemma {:induction false} RingRounds(nodes: set<string>, s: Replicas, peers: Peers, rounds: seq<seq<(string, string)>>,
                                      m: string, good: set<string>) returns (m': string)
    requires s.Keys == nodes && Ring(s, peers, m, good) && OneRing(nodes, peers) && AllComplete(nodes, rounds)
    requires |rounds| >= |nodes - good|
    ensures var s' := Rounds(FromList(peers), s, rounds);
      AllHold(s') && Top(s', m') && (Below(m, m') || Agree(s'))
    decreases |rounds|
  {
    if good == nodes {
      RingComplete(s, peers, m, good);
      AgreementIsAbsorbing(FromList(peers), s, rounds);
      return m;
    }
    SomeLeft(nodes, good);
    RoundsFirst(FromList(peers), s, rounds);
    var m1, x := RingGrows(nodes, s, peers, rounds[0], m, good);
    var s1 := Round(FromList(peers), s, rounds[0]);
    if Below(m, m1) {
      m' := TopStaysAbove(s1, peers, rounds[1..], m, m1);
    } else {
      m' := RingRounds(nodes, s1, peers, rounds[1..], m, good + {x});
    }
  }

  lemma SomeLeft(nodes: set<string>, good: set<string>)
    requires good <= nodes && good != nodes
    ensures |nodes - good| > 0
  {
    assert nodes == good + (nodes - good);
  }

  lemma RingComplete(s: Replicas, peers: Peers, m: string, good: set<string>)
    requires Ring(s, peers, m, good) && good == s.Keys
    ensures Agree(s)
  {
  }

  ghost function Above(nodes: set<string>, m: string): set<string> {
    set k | k in nodes && Below(m, k)
  }

  lemma AboveShrinks(nodes: set<string>, m: string, m1: string)
    requires m1 in nodes && Below(m, m1)
    ensures |Above(nodes, m1)| < |Above(nodes, m)|
  {
    forall k | k in nodes && Below(m1, k) ensures Below(m, k) {
      BelowTransitive(m, m1, k);
    }
    BelowTotal(m1, m1);
    assert m1 in Above(nodes, m) && m1 !in Above(nodes, m1);
    CardinalityOfSubset(Above(nodes, m1), Above(nodes, m));
  }

  lemma {:induction false} RingConverges(nodes: set<string>, s: Replicas, peers: Peers,
                                         rounds: seq<seq<(string, string)>>, m: string)
    requires s.Keys == nodes && FullLists(nodes, peers) && OneRing(nodes, peers) && AllComplete(nodes, rounds)
    requires AllHold(s) && Top(s, m)
    requires |rounds| >= Budget(|nodes|, |Above(nodes, m)|)
    ensures Agree(Rounds(FromList(peers), s, rounds))
    decreases |Above(nodes, m)|
  {
    var n, p := |nodes|, |Above(nodes, m)|;
    RoundsSplit(FromList(peers), s, rounds, n);
    var s1 := Rounds(FromList(peers), s, rounds[..n]);
    CardinalityOfSubset(nodes - {m}, nodes);
    var m1 := RingRounds(nodes, s, peers, rounds[..n], m, {m});
    if Agree(s1) {
      AgreementIsAbsorbing(FromList(peers), s1, rounds[n..]);
    } else {
      AboveShrinks(nodes, m, m1);
      BudgetLeft(n, p, |Above(nodes, m1)|);
      RingConverges(nodes, s1, peers, rounds[n..], m1);
    }
  }

  /** n rounds for each name that may still take the top, and n for the last. */
  ghost function Budget(n: nat, p: nat): (b: nat)
    ensures b >= n
  {
    if p == 0 then n else n + Budget(n, p - 1)
  }

  lemma {:induction false} BudgetLeft(n: nat, p: nat, q: nat)
    requires q < p
    ensures Budget(n, q) <= Budget(n, p) - n
  {
    if q < p - 1 {
      BudgetLeft(n, p - 1, q);
    }
  }

  lemma {:induction false} BudgetIs(n: nat, p: nat)
    ensures Budget(n, p) == n * (p + 1)
  {
    if p > 0 {
      BudgetIs(n, p - 1);
    }
  }

  /** A complete round hands the file to every node that lacks it. */
  lemma {:induction false} FirstRoundSpreads(s: Replicas, peers: Peers, round: seq<(string, string)>, h: string)
    requires FullLists(s.Keys, peers) && Within(s.Keys, round) && h in s && s[h].Some?
    ensures var s' := Round(FromList(peers), s, round);
      forall i | i in s :: s[i].Some? || (i, h) in round ==> s'[i].Some?
    decreases |round|
  {
    if round != [] {
      var (i, j) := round[0];
      var s1 := Step(FromList(peers), s, i, j);
      FirstRoundSpreads(s1, peers, round[1..], h);
      if j == h && s[i].None? {
        assert h in peers[i];
        assert s1[i].Some?;
      }
    }
  }

  lemma OneRingConverges(nodes: set<string>, peers: Peers, s: Replicas, rounds: seq<seq<(string, string)>>)
    requires FullLists(nodes, peers) && OneRing(nodes, peers) && s.Keys == nodes
    requires AllComplete(nodes, rounds) && |rounds| >= |nodes| * |nodes| + 1
    ensures Agree(Rounds(FromList(peers), s, rounds))
  {
    if h :| h in s && s[h].Some? {
      assert Complete(nodes, rounds[0]);
      var s1 := Round(FromList(peers), s, rounds[0]);
      FirstRoundSpreads(s, peers, rounds[0], h);
      assert AllHold(s1) && s1[h].Some?;
      var m := TopExists(s1);
      AboveIsProper(nodes, m);
      RingConverges(nodes, s1, peers, rounds[1..], m);
    } else {
      AgreementIsAbsorbing(FromList(peers), s, rounds);
    }
  }

  lemma AboveIsProper(nodes: set<string>, m: string)
    requires m in nodes
    ensures Budget(|nodes|, |Above(nodes, m)|) <= |nodes| * |nodes|
  {
    BelowTotal(m, m);
    BudgetIs(|nodes|, |Above(nodes, m)|);
    CardinalityOfSubset(Above(nodes, m), nodes);
    TimesMonotone(|nodes|, |Above(nodes, m)| + 1, |nodes|);
  }

  // ---- Without one ring ----

  ghost predicate GroupHolds(s: Replicas, group: set<string>, v: FileMeta) {
    forall i | i in group :: i in s && s[i] == Some(v)
  }

  /** A group that lists itself first and holds one version keeps it, whatever the others hold or do: each of
      its pulls finds itself in sync with the first peer and ends. */
  lemma GroupKeepsStep(s: Replicas, peers: Peers, group: set<string>, v: FileMeta, i: string, j: string)
    requires FullLists(s.Keys, peers) && Closed(peers, group) && GroupHolds(s, group, v) && i in s && j in s
    ensures GroupHolds(Step(FromList(peers), s, i, j), group, v)
  {
    if i in group {
      assert |s.Keys - {i}| == |s.Keys| - 1;
      var k :| k in s.Keys - {i};
      assert k in peers[i];
      assert First(peers, i) == peers[i][0];
      assert FirstHolder(peers[i], s) == Some(peers[i][0]);
    }
  }

  /** Someone has the greatest timestamp t, it is beyond the version's, and no version that new has its root. */
  ghost predicate LeftBehind(s: Replicas, v: FileMeta, t: nat) {
    && v.lamportTs < t && (exists m :: m in s && s[m].Some? && s[m].value.lamportTs == t)
    && forall k | k in s && s[k].Some? ::
         s[k].value.lamportTs <= t && (s[k].value.lamportTs == t ==> s[k].value.merkleRoot != v.merkleRoot)
  }

  /** A greatest timestamp is never lost: whoever gives it up was told of it by someone else who has it. */
  lemma LeftBehindStep(policy: Policy, s: Replicas, v: FileMeta, t: nat, i: string, j: string)
    requires LeftBehind(s, v, t) && i in s && j in s
    ensures LeftBehind(Step(policy, s, i, j), v, t)
  {
    var s' := Step(policy, s, i, j);
    var m :| m in s && s[m].Some? && s[m].value.lamportTs == t;
    var holder := if m == i && s' != s then j else m;
    assert s'[holder] == s[holder] && s'[holder].value.lamportTs == t;
  }

  lemma {:induction false} GroupKeepsRound(s: Replicas, peers: Peers, group: set<string>, v: FileMeta, t: nat,
                                           round: seq<(string, string)>)
    requires FullLists(s.Keys, peers) && Closed(peers, group) && GroupHolds(s, group, v) && LeftBehind(s, v, t)
    requires Within(s.Keys, round)
    ensures var s' := Round(FromList(peers), s, round); GroupHolds(s', group, v) && LeftBehind(s', v, t)
    decreases |round|
  {
    if round != [] {
      var (i, j) := round[0];
      GroupKeepsStep(s, peers, group, v, i, j);
      LeftBehindStep(FromList(peers), s, v, t, i, j);
      GroupKeepsRound(Step(FromList(peers), s, i, j), peers, group, v, t, round[1..]);
    }
  }

  /** So it stays behind for ever, in any number of rounds. */
  lemma {:induction false} GroupStaysBehind(s: Replicas, peers: Peers, group: set<string>, v: FileMeta, t: nat,
                                            rounds: seq<seq<(string, string)>>)
    requires FullLists(s.Keys, peers) && group != {} && Closed(peers, group)
    requires GroupHolds(s, group, v) && LeftBehind(s, v, t) && AllComplete(s.Keys, rounds)
    ensures var s' := Rounds(FromList(peers), s, rounds); GroupHolds(s', group, v) && LeftBehind(s', v, t) && !Agree(s')
    decreases |rounds|
  {
    if rounds == [] {
      var i :| i in group;
      var m :| m in s && s[m].Some? && s[m].value.lamportTs == t;
      assert RootOf(s[i]) != RootOf(s[m]);
    } else {
      assert Complete(s.Keys, rounds[0]);
      GroupKeepsRound(s, peers, group, v, t, rounds[0]);
      GroupStaysBehind(Round(FromList(peers), s, rounds[0]), peers, group, v, t, rounds[1..]);
    }
  }

  ghost predicate Behind(inside: FileMeta, outside: FileMeta) {
    inside.merkleRoot != outside.merkleRoot && inside.lamportTs < outside.lamportTs
  }

  /** The group holds one version, everybody else a newer one. */
  ghost function Split(nodes: set<string>, group: set<string>, inside: FileMeta, outside: FileMeta): Replicas {
    map i | i in nodes :: Some(if i in group then inside else outside)
  }

  lemma SplitIsBehind(nodes: set<string>, group: set<string>, inside: FileMeta, outside: FileMeta)
    requires group < nodes && Behind(inside, outside)
    ensures var s := Split(nodes, group, inside, outside);
      GroupHolds(s, group, inside) && LeftBehind(s, inside, outside.lamportTs)
  {
    var m :| m in nodes && m !in group;
    assert Split(nodes, group, inside, outside)[m] == Some(outside);
  }

  /** With two nodes the first listed peer is the only one, so the lists always form one ring. */
  lemma TwoNodesFormARing(nodes: set<string>, peers: Peers)
    requires FullLists(nodes, peers) && |nodes| == 2
    ensures OneRing(nodes, peers)
  {
    forall group: set<string> | group <= nodes && group != {} && Closed(peers, group) ensures group == nodes {
      var i :| i in group;
      assert |nodes - {i}| == 1;
      var j :| j in nodes - {i};
      assert nodes - {i} == {j} by { CardinalityOfSubset({j}, nodes - {i}); }
      assert j in peers[i];
      var x := peers[i][0];
      assert x in peers[i];
      assert x in nodes - {i};
      assert First(peers, i) == j;
      assert nodes == (nodes - {i}) + {i};
    }
  }

  lemma {:induction false} AllPairs(pairs: set<(string, string)>) returns (round: seq<(string, string)>)
    ensures forall e :: e in round <==> e in pairs
  {
    if pairs == {} {
      round := [];
    } else {
      var e :| e in pairs;
      var rest := AllPairs(pairs - {e});
      round := [e] + rest;
    }
  }

  lemma CompleteRoundExists(nodes: set<string>) returns (round: seq<(string, string)>)
    ensures Complete(nodes, round)
  {
    round := AllPairs(set i, j | i in nodes && j in nodes :: (i, j));
  }

  /** Main result, both directions: where nodes may hold an older and a newer version, the cluster converges from
      every state, within n * n + 1 rounds or within any bound at all, exactly when the first-listed peers form
      one ring. */
  lemma ConvergesIffOneRing(nodes: set<string>, peers: Peers, ok: FileMeta -> bool, inside: FileMeta, outside: FileMeta)
    requires FullLists(nodes, peers) && ok(inside) && ok(outside) && Behind(inside, outside)
    ensures OneRing(nodes, peers) <==> ConvergesWithin(nodes, peers, ok, |nodes| * |nodes| + 1)
    ensures OneRing(nodes, peers) <==> exists bound :: ConvergesWithin(nodes, peers, ok, bound)
  {
    if OneRing(nodes, peers) {
      forall s: Replicas, rounds |
        s.Keys == nodes && AllOk(s, ok) && AllComplete(nodes, rounds) && |rounds| >= |nodes| * |nodes| + 1
        ensures Agree(Rounds(FromList(peers), s, rounds))
      {
        OneRingConverges(nodes, peers, s, rounds);
      }
    } else {
      var group: set<string> :| group <= nodes && group != {} && Closed(peers, group) && group != nodes;
      forall bound: nat ensures !ConvergesWithin(nodes, peers, ok, bound) {
        NotWithin(nodes, peers, ok, inside, outside, group, bound);
      }
    }
  }

  lemma NotWithin(nodes: set<string>, peers: Peers, ok: FileMeta -> bool, inside: FileMeta, outside: FileMeta,
                  group: set<string>, bound: nat)
    requires FullLists(nodes, peers) && ok(inside) && ok(outside) && Behind(inside, outside)
    requires group < nodes && group != {} && Closed(peers, group)
    ensures !ConvergesWithin(nodes, peers, ok, bound)
  {
    var rounds := ManyRounds(nodes, bound);
    var s := Split(nodes, group, inside, outside);
    assert s.Keys == nodes && AllOk(s, ok);
    SplitIsBehind(nodes, group, inside, outside);
    GroupStaysBehind(s, peers, group, inside, outside.lamportTs, rounds);
  }

  lemma ManyRounds(nodes: set<string>, bound: nat) returns (rounds: seq<seq<(string, string)>>)
    ensures AllComplete(nodes, rounds) && |rounds| == bound
  {
    var round := CompleteRoundExists(nodes);
    rounds := seq(bound, _ => round);
  }
}
