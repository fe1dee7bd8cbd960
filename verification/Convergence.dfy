/** Convergence when every pull adopts the version of the peer that started it: n nodes holding d
    distinct timestamps agree after at most n * (n * d + 1) complete rounds. */
module Convergence {
  import opened Base
  import opened Conflict
  import opened Exchange

  /** The timestamps a node may still move up to. */
  ghost predicate CanRise(v: Option<FileMeta>, t: nat) {
    v.None? || t > v.value.lamportTs
  }

  ghost function Pending(s: Replicas, stamps: set<nat>): set<(string, nat)> {
    set i, t | i in s && t in stamps && CanRise(s[i], t) :: (i, t)
  }

  ghost predicate StampedBy(s: Replicas, stamps: set<nat>) {
    forall i | i in s && s[i].Some? :: s[i].value.lamportTs in stamps
  }

  lemma StepLowersPending(s: Replicas, stamps: set<nat>, i: string, j: string)
    requires StampedBy(s, stamps) && i in s && j in s
    ensures var s' := Step(FromTrigger, s, i, j);
      && StampedBy(s', stamps) && Pending(s', stamps) <= Pending(s, stamps)
      // a step that changes nobody's timestamp replaces a version by a greater-named holder's
      && (Pending(s', stamps) == Pending(s, stamps) ==>
            s' == s || (s[i].Some? && s[j].Some? && s' == s[i := s[j]] && Below(i, j) &&
                        s[i].value.lamportTs == s[j].value.lamportTs))
  {
    var s' := Step(FromTrigger, s, i, j);
    if s' != s {
      assert s' == s[i := s[j]];
      var t := s[j].value.lamportTs;
      if CanRise(s[i], t) {
        assert (i, t) in Pending(s, stamps) && (i, t) !in Pending(s', stamps);
      }
    }
  }

  lemma {:induction false} RoundLowersPending(s: Replicas, stamps: set<nat>, round: seq<(string, string)>)
    requires StampedBy(s, stamps) && Within(s.Keys, round)
    ensures var s' := Round(FromTrigger, s, round);
      StampedBy(s', stamps) && Pending(s', stamps) <= Pending(s, stamps)
    decreases |round|
  {
    if round != [] {
      StepLowersPending(s, stamps, round[0].0, round[0].1);
      RoundLowersPending(Step(FromTrigger, s, round[0].0, round[0].1), stamps, round[1..]);
    }
  }

  lemma {:induction false} RoundsLowerPending(s: Replicas, stamps: set<nat>, rounds: seq<seq<(string, string)>>)
    requires StampedBy(s, stamps) && AllComplete(s.Keys, rounds)
    ensures var s' := Rounds(FromTrigger, s, rounds);
      StampedBy(s', stamps) && Pending(s', stamps) <= Pending(s, stamps)
    decreases |rounds|
  {
    if rounds != [] {
      RoundLowersPending(s, stamps, rounds[0]);
      RoundsLowerPending(Round(FromTrigger, s, rounds[0]), stamps, rounds[1..]);
    }
  }

  // ---- Calm stretches: no timestamp moves ----

  /** All nodes named in `good` hold the top node's root, and `good` is closed towards greater names. */
  ghost predicate Settled(s: Replicas, m: string, good: set<string>) {
    && Top(s, m) && good <= s.Keys
    && (forall i | i in good :: RootOf(s[i]) == RootOf(s[m]))
    && (forall i, j | i in good && j in s && Below(i, j) :: j in good)
  }

  lemma CalmStep(s: Replicas, stamps: set<nat>, m: string, good: set<string>, i: string, j: string)
    requires StampedBy(s, stamps) && Settled(s, m, good) && i in s && j in s
    requires Pending(Step(FromTrigger, s, i, j), stamps) == Pending(s, stamps)
    ensures var s' := Step(FromTrigger, s, i, j);
      && Settled(s', m, good) && s'[m] == s[m]
      && forall x | x in s && (forall y | y in s && Below(x, y) :: y in good) ::
           (RootOf(s[x]) == RootOf(s[m]) || (i == x && j == m && x != m)) ==> RootOf(s'[x]) == RootOf(s[m])
  {
    StepLowersPending(s, stamps, i, j);
    var s' := Step(FromTrigger, s, i, j);
    if s' != s {
      if i == m {
        WinnerIsAntisymmetric(s[m].value.lamportTs, m, s[j].value.lamportTs, j);
        BelowTotal(m, m);
      }
      forall k | k in s' && k != m && s'[k].Some?
        ensures RemoteWins(s'[k].value.lamportTs, k, s'[m].value.lamportTs, m)
      {
        assert s[k].Some? && s'[k].value.lamportTs == s[k].value.lamportTs;
      }
    } else if j == m && i != m && RootOf(s[i]) != RootOf(s[m]) {
      assert Starts(s, i, j);
    }
  }

  lemma {:induction false} CalmRound(s: Replicas, stamps: set<nat>, round: seq<(string, string)>,
                                     m: string, good: set<string>, x: string)
    requires StampedBy(s, stamps) && Within(s.Keys, round) && Settled(s, m, good)
    requires Pending(Round(FromTrigger, s, round), stamps) == Pending(s, stamps)
    requires x in s && forall y | y in s && Below(x, y) :: y in good
    requires RootOf(s[x]) == RootOf(s[m]) || (x, m) in round
    requires RootOf(s[x]) == RootOf(s[m]) || x != m
    ensures var s' := Round(FromTrigger, s, round);
      Settled(s', m, good) && s'[m] == s[m] && RootOf(s'[x]) == RootOf(s'[m])
    decreases |round|
  {
    if round != [] {
      var (i, j) := round[0];
      var s1 := Step(FromTrigger, s, i, j);
      StepLowersPending(s, stamps, i, j);
      RoundLowersPending(s1, stamps, round[1..]);
      CalmStep(s, stamps, m, good, i, j);
      CalmRound(s1, stamps, round[1..], m, good, x);
    }
  }

  lemma {:induction false} CalmRounds(s: Replicas, stamps: set<nat>, rounds: seq<seq<(string, string)>>,
                                      m: string, good: set<string>)
    requires StampedBy(s, stamps) && AllComplete(s.Keys, rounds) && Settled(s, m, good)
    requires Pending(Rounds(FromTrigger, s, rounds), stamps) == Pending(s, stamps)
    requires |rounds| >= |s.Keys - good|
    ensures Agree(Rounds(FromTrigger, s, rounds))
    decreases |rounds|
  {
    var rest := s.Keys - good;
    if rest == {} {
      AgreementIsAbsorbing(FromTrigger, s, rounds);
    } else {
      var x := GreatestName(rest);
      var s1 := Round(FromTrigger, s, rounds[0]);
      RoundLowersPending(s, stamps, rounds[0]);
      RoundsLowerPending(s1, stamps, rounds[1..]);
      forall y | y in s && Below(x, y) ensures y in good {
        BelowTotal(x, y);
      }
      CalmRound(s, stamps, rounds[0], m, good, x);
      assert s1.Keys - (good + {x}) == rest - {x};
      CalmRounds(s1, stamps, rounds[1..], m, good + {x});
    }
  }

  lemma TimesMonotone(n: nat, a: nat, b: nat)
    requires a <= b
    ensures n * a <= n * b
  {
    assert n * b == n * a + n * (b - a);
  }

  lemma CardinalityOfSubset<T>(a: set<T>, b: set<T>)
    requires a <= b
    ensures |a| <= |b| && (a != b ==> |a| < |b|)
  {
    assert b == a + (b - a);
  }

  /** The number of rounds needed is bounded by the timestamp moves still possible. */
  lemma {:induction false} ConvergesFrom(s: Replicas, stamps: set<nat>, rounds: seq<seq<(string, string)>>)
    requires StampedBy(s, stamps) && AllComplete(s.Keys, rounds)
    requires |rounds| >= |s| * (|Pending(s, stamps)| + 1)
    ensures Agree(Rounds(FromTrigger, s, rounds))
    decreases |Pending(s, stamps)|
  {
    if !exists k :: k in s && s[k].Some? {
      AgreementIsAbsorbing(FromTrigger, s, rounds);
    } else {
      var n, p := |s|, |Pending(s, stamps)|;
      TimesMonotone(n, 1, p + 1);
      RoundsSplit(FromTrigger, s, rounds, n);
      var s1 := Rounds(FromTrigger, s, rounds[..n]);
      RoundsLowerPending(s, stamps, rounds[..n]);
      if Pending(s1, stamps) == Pending(s, stamps) {
        var m := TopExists(s);
        assert s.Keys - {} == s.Keys;
        CalmRounds(s, stamps, rounds[..n], m, {});
        AgreementIsAbsorbing(FromTrigger, s1, rounds[n..]);
      } else {
        CardinalityOfSubset(Pending(s1, stamps), Pending(s, stamps));
        var q := |Pending(s1, stamps)|;
        assert |s1| == n by { assert s1.Keys == s.Keys; }
        TimesMonotone(n, q + 1, p);
        assert n * (p + 1) == n * p + n;
        ConvergesFrom(s1, stamps, rounds[n..]);
      }
    }
  }

  lemma {:induction false} PendingBound(nodes: set<string>, stamps: set<nat>, pairs: set<(string, nat)>)
    requires forall e | e in pairs :: e.0 in nodes && e.1 in stamps
    ensures |pairs| <= |nodes| * |stamps|
  {
    if nodes == {} {
      assert pairs == {};
    } else {
      var i :| i in nodes;
      var own := set e | e in pairs && e.0 == i;
      var others := pairs - own;
      PendingBound(nodes - {i}, stamps, others);
      RowBound(i, stamps, own);
      assert pairs == own + others;
      assert |nodes| * |stamps| == (|nodes| - 1) * |stamps| + |stamps|;
      assert |nodes - {i}| == |nodes| - 1;
    }
  }

  lemma {:induction false} RowBound(i: string, stamps: set<nat>, row: set<(string, nat)>)
    requires forall e | e in row :: e.0 == i && e.1 in stamps
    ensures |row| <= |stamps|
  {
    if row != {} {
      var e :| e in row;
      RowBound(i, stamps - {e.1}, row - {e});
    }
  }

  /** The timestamps present. */
  ghost function Stamps(s: Replicas): set<nat> {
    set i | i in s && s[i].Some? :: s[i].value.lamportTs
  }

  /** Main result: whatever the order of exchanges inside each round. */
  lemma Convergence(s: Replicas, rounds: seq<seq<(string, string)>>)
    requires AllComplete(s.Keys, rounds)
    requires |rounds| >= |s| * (|s| * |Stamps(s)| + 1)
    ensures Agree(Rounds(FromTrigger, s, rounds))
  {
    var stamps := Stamps(s);
    PendingBound(s.Keys, stamps, Pending(s, stamps));
    var p := |Pending(s, stamps)|;
    assert |s.Keys| == |s|;
    TimesMonotone(|s|, p + 1, |s| * |stamps| + 1);
    ConvergesFrom(s, stamps, rounds);
  }
}
