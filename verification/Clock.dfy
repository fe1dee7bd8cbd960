/** internal/daemon/daemon.go:130-146: the Lamport clock, shared by any number of goroutines without
    a lock. Every atomic operation is one step; steps of different goroutines interleave freely. */
module Clock {
  import opened Base

  /** Where a goroutine stands. `first` and `start` are the first value its current observe has read. */
  datatype Op =
    | Idle
    | Loading(remote: nat, first: Option<nat>, retries: nat)
    | Swapping(remote: nat, cur: nat, start: nat, retries: nat)

  /** What has completed, in order. */
  datatype Event = Issued(ts: nat) | Observed(ts: nat)

  datatype State = State(value: nat, ops: map<int, Op>, log: seq<Event>)

  function OpOf(s: State, g: int): Op {
    if g in s.ops then s.ops[g] else Idle
  }

  datatype Action = Next(g: int) | Begin(g: int, remote: nat) | Load(g: int) | Swap(g: int)

  predicate Enabled(s: State, a: Action) {
    match a
    case Next(g) => OpOf(s, g).Idle?
    case Begin(g, _) => OpOf(s, g).Idle?
    case Load(g) => OpOf(s, g).Loading?
    case Swap(g) => OpOf(s, g).Swapping?
  }

  function Perform(s: State, a: Action): State
    requires Enabled(s, a)
  {
    match a
    case Next(g) =>
      // d.clock.Add(1)
      s.(value := s.value + 1, log := s.log + [Issued(s.value + 1)])
    case Begin(g, remote) =>
      s.(ops := s.ops[g := Loading(remote, None, 0)])
    case Load(g) =>
      var op := OpOf(s, g);
      if op.remote <= s.value then s.(ops := s.ops[g := Idle], log := s.log + [Observed(op.remote)])
      else s.(ops := s.ops[g :=
        Swapping(op.remote, s.value, if op.first.Some? then op.first.value else s.value, op.retries)])
    case Swap(g) =>
      var op := OpOf(s, g);
      if s.value == op.cur then
        s.(value := op.remote, ops := s.ops[g := Idle], log := s.log + [Observed(op.remote)])
      else s.(ops := s.ops[g := Loading(op.remote, Some(op.start), op.retries + 1)])
  }

  ghost predicate OpOk(s: State, op: Op) {
    match op
    case Idle => true
    case Loading(remote, first, retries) =>
      if first.None? then retries == 0 else first.value + retries <= s.value && first.value + retries <= remote
    case Swapping(remote, cur, start, retries) =>
      start + retries <= cur <= s.value && cur < remote
  }

  /** A timestamp is greater than everything issued or observed before it. */
  ghost predicate Ordered(log: seq<Event>) {
    forall i, j | 0 <= i < j < |log| && log[j].Issued? :: log[i].ts < log[j].ts
  }

  ghost predicate Inv(s: State) {
    && (forall i | 0 <= i < |s.log| :: s.log[i].ts <= s.value)
    && Ordered(s.log)
    && (forall g | g in s.ops :: OpOk(s, s.ops[g]))
  }

  // ---- One operation after the other ----

  /** The clock after the completed operations, taken one at a time: an issue adds one, an observe takes the greater. */
  function Replay(log: seq<Event>): nat {
    if log == [] then 0
    else
      var before := Replay(log[..|log| - 1]);
      match log[|log| - 1]
      case Issued(_) => before + 1
      case Observed(ts) => if before < ts then ts else before
  }

  /** Every issue got the timestamp it would have got. */
  ghost predicate Lawful(log: seq<Event>) {
    forall j | 0 <= j < |log| && log[j].Issued? :: log[j].ts == Replay(log[..j]) + 1
  }

  ghost predicate Linear(s: State) {
    s.value == Replay(s.log) && Lawful(s.log)
  }

  lemma ReplayNext(log: seq<Event>, e: Event)
    requires Lawful(log) && (e.Issued? ==> e.ts == Replay(log) + 1)
    ensures Lawful(log + [e])
    ensures Replay(log + [e]) == if e.Issued? then Replay(log) + 1 else if Replay(log) < e.ts then e.ts else Replay(log)
  {
    var more := log + [e];
    assert more[..|log|] == log;
    forall j | 0 <= j < |more| && more[j].Issued? ensures more[j].ts == Replay(more[..j]) + 1 {
      if j < |log| {
        assert more[..j] == log[..j] && more[j] == log[j];
      }
    }
  }

  lemma ObserveIsLinear(s: State, s': State, remote: nat)
    requires Linear(s) && s'.log == s.log + [Observed(remote)]
    requires s'.value == if s.value < remote then remote else s.value
    ensures Linear(s')
  {
    ReplayNext(s.log, Observed(remote));
  }

  lemma PerformKeepsLinear(s: State, a: Action)
    requires Inv(s) && Linear(s) && Enabled(s, a)
    ensures Linear(Perform(s, a))
  {
    var s', op := Perform(s, a), OpOf(s, a.g);
    if a.Next? {
      ReplayNext(s.log, Issued(s.value + 1));
    } else if s'.log == s.log {
      assert s'.value == s.value;
    } else {
      assert a.Swap? ==> OpOk(s, s.ops[a.g]);
      ObserveIsLinear(s, s', op.remote);
    }
  }

  /** The value is the greatest of the first n timestamps of the log, or zero if there are none. */
  ghost predicate IsGreatest(log: seq<Event>, n: nat, value: nat)
    requires n <= |log|
  {
    && (forall i | 0 <= i < n :: log[i].ts <= value)
    && (value == 0 || exists i :: 0 <= i < n && log[i].ts == value)
  }

  lemma {:induction false} ReplayIsGreatest(log: seq<Event>, n: nat)
    requires Lawful(log) && n <= |log|
    ensures IsGreatest(log, n, Replay(log[..n]))
  {
    if n > 0 {
      ReplayIsGreatest(log, n - 1);
      assert log[..n][..n - 1] == log[..n - 1];
      var before, now := Replay(log[..n - 1]), Replay(log[..n]);
      if log[n - 1].ts < now && now != 0 {
        var i :| 0 <= i < n - 1 && log[i].ts == before;
      }
    }
  }

  lemma PerformKeepsInv(s: State, a: Action)
    requires Inv(s) && Enabled(s, a)
    ensures Inv(Perform(s, a)) && Perform(s, a).value >= s.value
  {
    var s' := Perform(s, a);
    forall g | g in s'.ops ensures OpOk(s', s'.ops[g]) {
      assert g in s.ops ==> OpOk(s, s.ops[g]);
    }
  }

  function Start(): State {
    State(0, map[], [])
  }

  /** A run of one process lifetime: the clock starts at zero. */
  ghost predicate Run(states: seq<State>, acts: seq<Action>) {
    && |states| == |acts| + 1 && states[0] == Start()
    && forall i | 0 <= i < |acts| :: Enabled(states[i], acts[i]) && states[i + 1] == Perform(states[i], acts[i])
  }

  lemma {:induction false} RunInv(states: seq<State>, acts: seq<Action>, k: nat)
    requires Run(states, acts) && k < |states|
    ensures Inv(states[k])
  {
    if k > 0 {
      RunInv(states, acts, k - 1);
      PerformKeepsInv(states[k - 1], acts[k - 1]);
    }
  }

  lemma {:induction false} RunLinear(states: seq<State>, acts: seq<Action>, k: nat)
    requires Run(states, acts) && k < |states|
    ensures Linear(states[k])
  {
    if k > 0 {
      RunLinear(states, acts, k - 1);
      RunInv(states, acts, k - 1);
      PerformKeepsLinear(states[k - 1], acts[k - 1]);
    }
  }

  /** In every interleaving the clock is what the completed operations make of it when taken one at a time, in the order
      of the log: it is exactly the greatest timestamp logged, and every timestamp issued is exactly one more than
      the greatest logged before it. */
  lemma ClockExact(states: seq<State>, acts: seq<Action>, k: nat)
    requires Run(states, acts) && k < |states|
    ensures states[k].value == Replay(states[k].log)
    ensures IsGreatest(states[k].log, |states[k].log|, states[k].value)
    ensures forall j | 0 <= j < |states[k].log| && states[k].log[j].Issued? ::
      states[k].log[j].ts >= 1 && IsGreatest(states[k].log, j, states[k].log[j].ts - 1)
  {
    RunLinear(states, acts, k);
    var log := states[k].log;
    assert log[..|log|] == log;
    ReplayIsGreatest(log, |log|);
    forall j | 0 <= j < |log| && log[j].Issued? ensures log[j].ts >= 1 && IsGreatest(log, j, log[j].ts - 1) {
      ReplayIsGreatest(log, j);
    }
  }

  /** An operation is logged when it completes, once, and an observe with the timestamp it began with. */
  lemma LoggedOnce(states: seq<State>, acts: seq<Action>, k: nat)
    requires Run(states, acts) && k < |acts|
    ensures var s, s' := states[k], states[k + 1];
      var op, op' := OpOf(s, acts[k].g), OpOf(s', acts[k].g);
      && (forall g | g != acts[k].g :: OpOf(s', g) == OpOf(s, g))
      && (acts[k].Next? <==> |s'.log| == |s.log| + 1 && s'.log[|s.log|].Issued?)
      && (!op.Idle? && op'.Idle? <==> s'.log == s.log + [Observed(if op.Idle? then 0 else op.remote)] && !op.Idle?)
      && (!op.Idle? && !op'.Idle? ==> op'.remote == op.remote && s'.log == s.log && s'.value == s.value)
      && (acts[k].Begin? ==> op'.Loading? && op'.remote == acts[k].remote && s'.log == s.log)
  {
  }

  lemma {:induction false} ClockNeverFalls(states: seq<State>, acts: seq<Action>, i: nat, j: nat)
    requires Run(states, acts) && i <= j < |states|
    ensures states[i].value <= states[j].value
    decreases j - i
  {
    if i < j {
      RunInv(states, acts, i);
      PerformKeepsInv(states[i], acts[i]);
      ClockNeverFalls(states, acts, i + 1, j);
    }
  }

  /** In every interleaving: issued timestamps are strictly increasing and exceed every timestamp whose
      observe had returned; the clock is at least everything completed; and an observe that first read
      c below its remote r has retried at most r - c times. */
  lemma LockFreeClock(states: seq<State>, acts: seq<Action>, k: nat)
    requires Run(states, acts) && k < |states|
    ensures Ordered(states[k].log)
    ensures forall i | 0 <= i < |states[k].log| :: states[k].log[i].ts <= states[k].value
    ensures forall g | g in states[k].ops && states[k].ops[g].Swapping? ::
      states[k].ops[g].retries < states[k].ops[g].remote - states[k].ops[g].start
    ensures forall g | g in states[k].ops && states[k].ops[g].Loading? && states[k].ops[g].first.Some? ::
      states[k].ops[g].retries <= states[k].ops[g].remote - states[k].ops[g].first.value
  {
    RunInv(states, acts, k);
    forall g | g in states[k].ops ensures OpOk(states[k], states[k].ops[g]) {
    }
  }
}
