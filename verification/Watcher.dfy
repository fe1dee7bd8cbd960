/** internal/watcher/watcher.go: debouncing of file events. The event loop, timer expiries and the
    callbacks they start interleave freely; shutdown is not part of the model. Times are milliseconds. */
module Watcher {
  import opened Base

  const QUIET_PERIOD := 300

  /** A timer made by `time.AfterFunc`: armed with a deadline, or spent. Reset arms a spent timer again. */
  datatype Timer = Timer(path: string, deadline: Option<int>)

  /** A callback, from the moment its timer expired. */
  datatype Fire = Fire(path: string, started: int)

  datatype State = State(
    now: int,
    timers: map<string, nat>,     // the program's map, path to timer
    heap: map<nat, Timer>,        // all timers ever made
    running: seq<Fire>,           // callbacks that have not yet deleted their map entry
    handled: seq<Fire>,           // callbacks that went on to report the path
    lastEvent: map<string, int>)  // history: the latest accepted event of each path

  datatype Action =
    | Tick(to: int)
    | Event(path: string)
    | Expire(id: nat)
    | Delete(k: nat)

  ghost predicate Enabled(s: State, a: Action) {
    match a
    case Tick(to) => to >= s.now
    case Event(path) => true
    case Expire(id) => id in s.heap && s.heap[id].deadline.Some? && s.heap[id].deadline.value <= s.now
    case Delete(k) => k < |s.running|
  }

  ghost predicate Step(s: State, a: Action, s': State) {
    Enabled(s, a) &&
    match a
    case Tick(to) => s' == s.(now := to)
    case Event(path) =>
      var due := Timer(path, Some(s.now + QUIET_PERIOD));
      if path in s.timers then
        s' == s.(heap := s.heap[s.timers[path] := due], lastEvent := s.lastEvent[path := s.now])
      else
        exists id: nat | id !in s.heap ::
          s' == s.(timers := s.timers[path := id], heap := s.heap[id := due], lastEvent := s.lastEvent[path := s.now])
    case Expire(id) =>
      s' == s.(heap := s.heap[id := s.heap[id].(deadline := None)],
               running := s.running + [Fire(s.heap[id].path, s.now)])
    case Delete(k) =>
      s' == s.(timers := s.timers - {s.running[k].path},
               running := s.running[..k] + s.running[k + 1..],
               handled := s.handled + [s.running[k]])
  }

  ghost predicate Armed(s: State, path: string, deadline: int) {
    exists id | id in s.heap :: s.heap[id] == Timer(path, Some(deadline))
  }

  ghost predicate FiredSince(fires: seq<Fire>, path: string, t: int) {
    exists k | 0 <= k < |fires| :: fires[k].path == path && fires[k].started >= t
  }

  /** The latest event of a path is not lost: a timer will still go off for it, its callback is running,
      or the path has been reported after the quiet period. */
  ghost predicate Remembered(s: State, path: string) {
    path in s.lastEvent ==>
      var due := s.lastEvent[path] + QUIET_PERIOD;
      Armed(s, path, due) || FiredSince(s.running, path, due) || FiredSince(s.handled, path, due)
  }

  ghost predicate Inv(s: State) {
    && (forall path | path in s.timers :: s.timers[path] in s.heap && s.heap[s.timers[path]].path == path)
    && (forall path | path in s.lastEvent :: s.lastEvent[path] <= s.now)
    && (forall id | id in s.heap && s.heap[id].deadline.Some? ::
          && s.heap[id].path in s.lastEvent
          && s.heap[id].deadline.value <= s.lastEvent[s.heap[id].path] + QUIET_PERIOD)
    && (forall path: string :: Remembered(s, path))
  }

  lemma FiresGrow(fires: seq<Fire>, f: Fire, path: string, t: int)
    ensures FiredSince(fires, path, t) ==> FiredSince(fires + [f], path, t)
    ensures f.path == path && f.started >= t ==> FiredSince(fires + [f], path, t)
  {
    assert (fires + [f])[|fires|] == f;
    if FiredSince(fires, path, t) {
      var k :| 0 <= k < |fires| && fires[k].path == path && fires[k].started >= t;
      assert (fires + [f])[k] == fires[k];
    }
  }

  lemma FiresShrink(fires: seq<Fire>, k: nat, path: string, t: int)
    requires k < |fires| && FiredSince(fires, path, t)
    ensures FiredSince(fires[..k] + fires[k + 1..], path, t) || (fires[k].path == path && fires[k].started >= t)
  {
    var j :| 0 <= j < |fires| && fires[j].path == path && fires[j].started >= t;
    var rest := fires[..k] + fires[k + 1..];
    if j < k {
      assert rest[j] == fires[j];
    } else if j > k {
      assert rest[j - 1] == fires[j];
    }
  }

  lemma StepRemembers(s: State, a: Action, s': State, path: string)
    requires Inv(s) && Step(s, a, s')
    ensures Remembered(s', path)
  {
    if path in s'.lastEvent {
      var due := s'.lastEvent[path] + QUIET_PERIOD;
      match a
      case Tick(_) =>
        assert Remembered(s, path);
      case Event(p) =>
        if p == path {
          var id := s'.timers[path];
          assert s'.heap[id] == Timer(path, Some(due));
        } else {
          assert Remembered(s, path);
          if Armed(s, path, due) {
            var id :| id in s.heap && s.heap[id] == Timer(path, Some(due));
            assert s'.heap[id] == s.heap[id];
          }
        }
      case Expire(id) =>
        assert Remembered(s, path);
        var f := Fire(s.heap[id].path, s.now);
        FiresGrow(s.running, f, path, due);
        if Armed(s, path, due) {
          var t :| t in s.heap && s.heap[t] == Timer(path, Some(due));
          if t != id {
            assert s'.heap[t] == s.heap[t];
          }
        }
      case Delete(k) =>
        assert Remembered(s, path);
        FiresGrow(s.handled, s.running[k], path, due);
        if FiredSince(s.running, path, due) {
          FiresShrink(s.running, k, path, due);
        }
    }
  }

  lemma StepKeepsInv(s: State, a: Action, s': State)
    requires Inv(s) && Step(s, a, s')
    ensures Inv(s')
  {
    forall path: string ensures Remembered(s', path) {
      StepRemembers(s, a, s', path);
    }
  }

  ghost predicate Run(states: seq<State>, acts: seq<Action>) {
    && |states| == |acts| + 1
    && states[0] == State(0, map[], map[], [], [], map[])
    && forall i | 0 <= i < |acts| :: Step(states[i], acts[i], states[i + 1])
  }

  lemma {:induction false} RunInv(states: seq<State>, acts: seq<Action>, k: nat)
    requires Run(states, acts) && k < |states|
    ensures Inv(states[k])
  {
    if k > 0 {
      RunInv(states, acts, k - 1);
      StepKeepsInv(states[k - 1], acts[k - 1], states[k]);
    }
  }

  /** Due timers have gone off and their callbacks have run. */
  ghost predicate CaughtUp(s: State) {
    s.running == [] && forall id | id in s.heap && s.heap[id].deadline.Some? :: s.heap[id].deadline.value > s.now
  }

  /** No write is lost: in every interleaving, including an expiry racing with a reset, once a path's
      latest event is a quiet period old and the timers have caught up, the path has been reported by a
      callback that started at least a quiet period after that event. */
  lemma NoWriteLost(states: seq<State>, acts: seq<Action>, k: nat, path: string)
    requires Run(states, acts) && k < |states|
    requires path in states[k].lastEvent && CaughtUp(states[k])
    requires states[k].now >= states[k].lastEvent[path] + QUIET_PERIOD
    ensures FiredSince(states[k].handled, path, states[k].lastEvent[path] + QUIET_PERIOD)
  {
    RunInv(states, acts, k);
    assert Remembered(states[k], path);
  }

  /** Until then a timer or callback for it is pending, and no later than a quiet period after it. */
  lemma EventLeavesTimer(states: seq<State>, acts: seq<Action>, k: nat, path: string)
    requires Run(states, acts) && k < |states| && path in states[k].lastEvent
    ensures Remembered(states[k], path)
    ensures forall id | id in states[k].heap && states[k].heap[id].path == path && states[k].heap[id].deadline.Some? ::
      states[k].heap[id].deadline.value <= states[k].lastEvent[path] + QUIET_PERIOD
  {
    RunInv(states, acts, k);
  }

  // ---- Not too early, not too often ----

  ghost predicate ArmedFor(s: State, id: nat, path: string) {
    id in s.heap && s.heap[id].path == path && s.heap[id].deadline.Some?
  }

  ghost predicate Mapped(s: State, id: nat, path: string) {
    path in s.timers && s.timers[path] == id
  }

  /** A callback for the path has started and not yet deleted the map entry. */
  ghost predicate Reporting(s: State, path: string) {
    exists k :: 0 <= k < |s.running| && s.running[k].path == path
  }

  /** The timer in the map, while it is armed, is due exactly a quiet period after the latest event. */
  ghost predicate MapExact(s: State, path: string) {
    path in s.timers && s.timers[path] in s.heap && s.heap[s.timers[path]].deadline.Some? ==>
      path in s.lastEvent && s.heap[s.timers[path]].deadline.value == s.lastEvent[path] + QUIET_PERIOD
  }

  lemma StepMapExact(s: State, a: Action, s': State, path: string)
    requires Inv(s) && MapExact(s, path) && Step(s, a, s')
    ensures MapExact(s', path)
  {
  }

  lemma {:induction false} MapIsExact(states: seq<State>, acts: seq<Action>, k: nat, path: string)
    requires Run(states, acts) && k < |states|
    ensures MapExact(states[k], path)
  {
    if k > 0 {
      MapIsExact(states, acts, k - 1, path);
      RunInv(states, acts, k - 1);
      StepMapExact(states[k - 1], acts[k - 1], states[k], path);
    }
  }

  /** Action d deletes the map entry of a timer that is armed: nothing can reset the timer any more. */
  ghost predicate Orphans(states: seq<State>, acts: seq<Action>, d: nat, id: nat, path: string)
    requires |states| == |acts| + 1 && d < |acts|
  {
    && acts[d].Delete? && acts[d].k < |states[d].running| && states[d].running[acts[d].k].path == path
    && ArmedFor(states[d], id, path) && Mapped(states[d], id, path)
  }

  /** What one step does to an armed timer that is not in the map. */
  lemma OffTheMap(s: State, a: Action, s': State, id: nat, path: string)
    requires Inv(s) && Step(s, a, s') && ArmedFor(s', id, path) && !Mapped(s', id, path)
    ensures ArmedFor(s, id, path) && s.heap[id] == s'.heap[id]
    ensures Mapped(s, id, path) ==> a.Delete? && s.running[a.k].path == path
  {
  }

  /** Every armed timer that is not in the map was orphaned, and has been as it is since. */
  lemma {:induction false} FindOrphan(states: seq<State>, acts: seq<Action>, k: nat, id: nat, path: string)
    returns (d: nat)
    requires Run(states, acts) && k < |states| && ArmedFor(states[k], id, path) && !Mapped(states[k], id, path)
    ensures d < k && Orphans(states, acts, d, id, path) && states[d].heap[id] == states[k].heap[id]
  {
    assert k > 0;
    d := k - 1;
    RunInv(states, acts, d);
    OffTheMap(states[d], acts[d], states[k], id, path);
    if !Mapped(states[d], id, path) {
      d := FindOrphan(states, acts, d, id, path);
    }
  }

  /** The latest event of a path happened when it says. */
  lemma {:induction false} FindEvent(states: seq<State>, acts: seq<Action>, k: nat, path: string) returns (e: nat)
    requires Run(states, acts) && k < |states| && path in states[k].lastEvent
    ensures e < k && acts[e] == Event(path) && states[e].now == states[k].lastEvent[path]
    ensures forall i | e < i <= k ::
      path in states[i].lastEvent && states[i].lastEvent[path] == states[k].lastEvent[path]
  {
    assert k > 0;
    e := k - 1;
    if acts[e] != Event(path) {
      e := FindEvent(states, acts, e, path);
    }
  }

  /** Time and the latest event of a path only go on. */
  lemma {:induction false} TimeGoesOn(states: seq<State>, acts: seq<Action>, i: nat, k: nat, path: string)
    requires Run(states, acts) && i <= k < |states|
    ensures states[i].now <= states[k].now
    ensures path in states[i].lastEvent ==>
      path in states[k].lastEvent && states[i].lastEvent[path] <= states[k].lastEvent[path]
    decreases k - i
  {
    if i < k {
      RunInv(states, acts, i);
      assert Step(states[i], acts[i], states[i + 1]);
      TimeGoesOn(states, acts, i + 1, k, path);
    }
  }

  /** A callback starts too early, less than a quiet period after the latest event, if and only if its timer was
      orphaned and an event less than a quiet period old came after that. */
  lemma EarlyIff(states: seq<State>, acts: seq<Action>, t: nat, path: string)
    requires Run(states, acts) && t < |acts| && acts[t].Expire? && ArmedFor(states[t], acts[t].id, path)
    ensures path in states[t].lastEvent
    ensures states[t].now < states[t].lastEvent[path] + QUIET_PERIOD <==>
      exists d, e :: 0 <= d < e < t && Orphans(states, acts, d, acts[t].id, path) && acts[e] == Event(path) &&
        states[t].now < states[e].now + QUIET_PERIOD
  {
    RunInv(states, acts, t);
    assert Step(states[t], acts[t], states[t + 1]);
    MapIsExact(states, acts, t, path);
    if states[t].now < states[t].lastEvent[path] + QUIET_PERIOD {
      var d, e := EarlyWasOrphan(states, acts, t, acts[t].id, path);
    } else {
      forall e | 0 <= e < t && acts[e] == Event(path) ensures states[t].now >= states[e].now + QUIET_PERIOD {
        assert Step(states[e], acts[e], states[e + 1]);
        TimeGoesOn(states, acts, e + 1, t, path);
      }
    }
  }

  lemma EarlyWasOrphan(states: seq<State>, acts: seq<Action>, t: nat, id: nat, path: string) returns (d: nat, e: nat)
    requires Run(states, acts) && t < |states| && ArmedFor(states[t], id, path) && path in states[t].lastEvent
    requires states[t].heap[id].deadline.value < states[t].lastEvent[path] + QUIET_PERIOD
    ensures d < e < t && Orphans(states, acts, d, id, path) && acts[e] == Event(path)
    ensures states[e].now == states[t].lastEvent[path]
  {
    MapIsExact(states, acts, t, path);
    d := FindOrphan(states, acts, t, id, path);
    e := FindEvent(states, acts, t, path);
    MapIsExact(states, acts, d, path);
  }

  /** No event of the path falls between an expiry of its timer and the deletion by that callback. */
  ghost predicate NoRace(states: seq<State>, acts: seq<Action>, k: nat, path: string)
    requires |states| == |acts| + 1 && k <= |acts|
  {
    forall i | 0 <= i < k && acts[i] == Event(path) :: !Reporting(states[i], path)
  }

  /** One armed timer, which is in the map; or one callback and no armed timer; or neither. */
  ghost predicate Calm(s: State, path: string) {
    && (forall id | ArmedFor(s, id, path) :: Mapped(s, id, path) && !Reporting(s, path))
    && (forall i, j | 0 <= i < j < |s.running| && s.running[i].path == path :: s.running[j].path != path)
    && (forall i | 0 <= i < |s.running| && s.running[i].path == path ::
          path in s.lastEvent && s.running[i].started >= s.lastEvent[path] + QUIET_PERIOD)
  }

  lemma ExpireKeepsCalm(s: State, id: nat, s': State, path: string)
    requires Inv(s) && MapExact(s, path) && Calm(s, path) && Step(s, Expire(id), s')
    ensures Calm(s', path)
  {
    if s.heap[id].path == path {
      assert ArmedFor(s, id, path);
      forall j | ArmedFor(s', j, path) ensures false {
        assert ArmedFor(s, j, path);
      }
    } else {
      forall j | ArmedFor(s', j, path) ensures Mapped(s', j, path) && !Reporting(s', path) {
        assert ArmedFor(s, j, path);
      }
    }
  }

  lemma DeleteKeepsCalm(s: State, k: nat, s': State, path: string)
    requires Calm(s, path) && Step(s, Delete(k), s')
    ensures Calm(s', path)
  {
    forall j | ArmedFor(s', j, path) ensures Mapped(s', j, path) && !Reporting(s', path) {
      assert ArmedFor(s, j, path);
      assert s.running[k].path != path;
    }
  }

  lemma EventKeepsCalm(s: State, p: string, s': State, path: string)
    requires Inv(s) && Calm(s, path) && Step(s, Event(p), s') && (p == path ==> !Reporting(s, path))
    ensures Calm(s', path)
  {
    forall j | ArmedFor(s', j, path) ensures Mapped(s', j, path) && !Reporting(s', path) {
      if p != path {
        assert ArmedFor(s, j, path);
      } else if !Mapped(s', j, path) {
        assert ArmedFor(s, j, path);
      }
    }
  }

  lemma {:induction false} StaysCalm(states: seq<State>, acts: seq<Action>, k: nat, path: string)
    requires Run(states, acts) && k < |states| && NoRace(states, acts, k, path)
    ensures Calm(states[k], path)
  {
    if k > 0 {
      StaysCalm(states, acts, k - 1, path);
      RunInv(states, acts, k - 1);
      MapIsExact(states, acts, k - 1, path);
      match acts[k - 1]
      case Tick(_) =>
        assert forall id | ArmedFor(states[k], id, path) :: ArmedFor(states[k - 1], id, path);
      case Event(p) => EventKeepsCalm(states[k - 1], p, states[k], path);
      case Expire(id) => ExpireKeepsCalm(states[k - 1], id, states[k], path);
      case Delete(j) => DeleteKeepsCalm(states[k - 1], j, states[k], path);
    }
  }

  /** Debouncing: without such a race, a path has at most one armed timer, due exactly a quiet period after its latest
      event; and a callback that is running started at least a quiet period after it. */
  lemma Debounced(states: seq<State>, acts: seq<Action>, k: nat, path: string)
    requires Run(states, acts) && k < |states| && NoRace(states, acts, k, path)
    ensures forall id | ArmedFor(states[k], id, path) ::
      path in states[k].lastEvent && states[k].heap[id].deadline.value == states[k].lastEvent[path] + QUIET_PERIOD
    ensures forall i, j | ArmedFor(states[k], i, path) && ArmedFor(states[k], j, path) :: i == j
    ensures forall i | 0 <= i < |states[k].running| && states[k].running[i].path == path ::
      path in states[k].lastEvent && states[k].running[i].started >= states[k].lastEvent[path] + QUIET_PERIOD
  {
    StaysCalm(states, acts, k, path);
    MapIsExact(states, acts, k, path);
    RunInv(states, acts, k);
  }

  /** And a burst is reported once: between two expiries there is an event. */
  lemma ReportedOnce(states: seq<State>, acts: seq<Action>, i: nat, j: nat, path: string) returns (e: nat)
    requires Run(states, acts) && i < j < |acts| && NoRace(states, acts, j, path)
    requires acts[i].Expire? && ArmedFor(states[i], acts[i].id, path)
    requires acts[j].Expire? && ArmedFor(states[j], acts[j].id, path)
    ensures i < e < j && acts[e] == Event(path)
  {
    StaysCalm(states, acts, i + 1, path);
    assert Step(states[i], acts[i], states[i + 1]);
    assert states[i + 1].running[|states[i].running|].path == path;
    e := FindArming(states, acts, i + 1, j, acts[j].id, path);
  }

  /** Only an event arms a timer. */
  lemma {:induction false} FindArming(states: seq<State>, acts: seq<Action>, i: nat, k: nat, id: nat, path: string)
    returns (e: nat)
    requires Run(states, acts) && i <= k < |states| && ArmedFor(states[k], id, path)
    requires forall j: nat :: !ArmedFor(states[i], j, path)
    ensures i <= e < k && acts[e] == Event(path)
    decreases k
  {
    assert i < k;
    e := k - 1;
    RunInv(states, acts, e);
    assert Step(states[e], acts[e], states[k]);
    if acts[e] != Event(path) {
      assert ArmedFor(states[e], id, path);
      e := FindArming(states, acts, i, e, id, path);
    }
  }

  /** The race is the only way to an orphan: if a timer is orphaned, an event of its path fell between an expiry and the
      deletion by that callback. */
  lemma OrphanNeedsRace(states: seq<State>, acts: seq<Action>, d: nat, id: nat, path: string)
    requires Run(states, acts) && d < |acts| && Orphans(states, acts, d, id, path)
    ensures !NoRace(states, acts, d, path)
  {
    if NoRace(states, acts, d, path) {
      StaysCalm(states, acts, d, path);
    }
  }

  /** And it happens: an event at 300 ms, between the expiry and the deletion, leaves an armed timer nobody can reset.
      The next event makes another one, and the path is reported less than a quiet period after it. */
  lemma RaceReportsEarly(path: string) returns (states: seq<State>, acts: seq<Action>)
    ensures Run(states, acts) && acts == [Event(path), Tick(300), Expire(0), Event(path), Delete(0), Tick(400),
                                          Event(path), Tick(600), Expire(0)]
    ensures ArmedFor(states[7], 0, path) && ArmedFor(states[7], 1, path)
    ensures ArmedFor(states[8], 0, path) && path in states[8].lastEvent
    ensures states[8].now < states[8].lastEvent[path] + QUIET_PERIOD
  {
    var s0, s1, s2, s3, s4, s5 := OrphanMade(path);
    var s6, s7, s8, s9 := OrphanExpires(path, s5);
    states := [s0, s1, s2, s3, s4, s5, s6, s7, s8, s9];
    acts := [Event(path), Tick(300), Expire(0), Event(path), Delete(0), Tick(400), Event(path), Tick(600), Expire(0)];
  }

  lemma OrphanMade(path: string) returns (s0: State, s1: State, s2: State, s3: State, s4: State, s5: State)
    ensures s0 == State(0, map[], map[], [], [], map[]) && Step(s0, Event(path), s1) && Step(s1, Tick(300), s2)
    ensures Step(s2, Expire(0), s3) && Step(s3, Event(path), s4) && Step(s4, Delete(0), s5)
    ensures s5 == State(300, map[], map[0 := Timer(path, Some(600))], [], [Fire(path, 300)], map[path := 300])
  {
    s0 := State(0, map[], map[], [], [], map[]);
    s1 := State(0, map[path := 0], map[0 := Timer(path, Some(300))], [], [], map[path := 0]);
    NewTimer(s0, path, 0, s1);
    s2 := s1.(now := 300);
    s3 := s2.(heap := s2.heap[0 := Timer(path, None)], running := [Fire(path, 300)]);
    s4 := s3.(heap := s3.heap[0 := Timer(path, Some(600))], lastEvent := s3.lastEvent[path := 300]);
    s5 := State(300, map[], map[0 := Timer(path, Some(600))], [], [Fire(path, 300)], map[path := 300]);
    assert s4.timers - {path} == map[];
  }

  lemma OrphanExpires(path: string, s5: State) returns (s6: State, s7: State, s8: State, s9: State)
    requires s5 == State(300, map[], map[0 := Timer(path, Some(600))], [], [Fire(path, 300)], map[path := 300])
    ensures Step(s5, Tick(400), s6) && Step(s6, Event(path), s7) && Step(s7, Tick(600), s8) && Step(s8, Expire(0), s9)
    ensures ArmedFor(s7, 0, path) && ArmedFor(s7, 1, path)
    ensures ArmedFor(s8, 0, path) && path in s8.lastEvent && s8.now < s8.lastEvent[path] + QUIET_PERIOD
  {
    s6 := s5.(now := 400);
    s7 := s6.(timers := s6.timers[path := 1], heap := s6.heap[1 := Timer(path, Some(700))],
              lastEvent := s6.lastEvent[path := 400]);
    NewTimer(s6, path, 1, s7);
    s8 := s7.(now := 600);
    s9 := s8.(heap := s8.heap[0 := Timer(path, None)], running := [Fire(path, 600)]);
  }

  lemma NewTimer(s: State, path: string, id: nat, s': State)
    requires path !in s.timers && id !in s.heap
    requires s' == s.(timers := s.timers[path := id], heap := s.heap[id := Timer(path, Some(s.now + QUIET_PERIOD))],
                      lastEvent := s.lastEvent[path := s.now])
    ensures Step(s, Event(path), s')
  {
  }

  // ---- Catching up ----

  ghost function ArmedTimers(s: State): set<nat> {
    set id | id in s.heap && s.heap[id].deadline.Some?
  }

  /** Every armed timer has two steps to come, every callback one. */
  ghost function Work(s: State): nat {
    2 * |ArmedTimers(s)| + |s.running|
  }

  /** Each expiry and each deletion is one of them. */
  lemma WorkShrinks(s: State, a: Action, s': State)
    requires Step(s, a, s') && (a.Expire? || a.Delete?)
    ensures Work(s') == Work(s) - 1
  {
    if a.Expire? {
      assert ArmedTimers(s') == ArmedTimers(s) - {a.id};
    } else {
      assert ArmedTimers(s') == ArmedTimers(s);
    }
  }

  /** Timers go off and callbacks run; no new event, and no time passes. */
  ghost predicate Working(states: seq<State>, acts: seq<Action>) {
    && |states| == |acts| + 1
    && forall i | 0 <= i < |acts| :: (acts[i].Expire? || acts[i].Delete?) && Step(states[i], acts[i], states[i + 1])
  }

  /** However they interleave, there are no more of these steps than that. */
  lemma {:induction false} WorkEnds(states: seq<State>, acts: seq<Action>, k: nat)
    requires Working(states, acts) && k <= |acts|
    ensures Work(states[k]) + k == Work(states[0])
    ensures states[k].lastEvent == states[0].lastEvent && states[k].now == states[0].now
  {
    if k > 0 {
      WorkEnds(states, acts, k - 1);
      WorkShrinks(states[k - 1], acts[k - 1], states[k]);
    }
  }

  lemma {:induction false} WorkKeepsInv(states: seq<State>, acts: seq<Action>, k: nat)
    requires Working(states, acts) && k <= |acts| && Inv(states[0])
    ensures Inv(states[k])
  {
    if k > 0 {
      WorkKeepsInv(states, acts, k - 1);
      StepKeepsInv(states[k - 1], acts[k - 1], states[k]);
    }
  }

  /** There is such a step exactly as long as the timers have not caught up. */
  lemma BusyIff(s: State)
    ensures CaughtUp(s) <==> !exists a: Action :: (a.Expire? || a.Delete?) && Enabled(s, a)
  {
    if s.running != [] {
      assert Enabled(s, Delete(0));
    } else if !CaughtUp(s) {
      var id :| id in s.heap && s.heap[id].deadline.Some? && s.heap[id].deadline.value <= s.now;
      assert Enabled(s, Expire(id));
    }
  }

  /** From every state the timers can catch up. */
  lemma {:induction false} CanCatchUp(s: State) returns (states: seq<State>, acts: seq<Action>)
    ensures Working(states, acts) && states[0] == s && CaughtUp(states[|acts|])
    decreases Work(s)
  {
    if CaughtUp(s) {
      return [s], [];
    }
    BusyIff(s);
    var a: Action :| (a.Expire? || a.Delete?) && Enabled(s, a);
    var s' := Next(s, a);
    WorkShrinks(s, a, s');
    var rest, more := CanCatchUp(s');
    states, acts := [s] + rest, [a] + more;
    forall i | 0 <= i < |acts| ensures (acts[i].Expire? || acts[i].Delete?) && Step(states[i], acts[i], states[i + 1]) {
      if i > 0 {
        assert acts[i] == more[i - 1] && states[i] == rest[i - 1];
      }
    }
  }

  ghost function Next(s: State, a: Action): (s': State)
    requires Enabled(s, a) && (a.Expire? || a.Delete?)
    ensures Step(s, a, s')
  {
    match a
    case Expire(id) =>
      s.(heap := s.heap[id := s.heap[id].(deadline := None)], running := s.running + [Fire(s.heap[id].path, s.now)])
    case Delete(k) =>
      s.(timers := s.timers - {s.running[k].path}, running := s.running[..k] + s.running[k + 1..],
         handled := s.handled + [s.running[k]])
  }

  /** Every write is reported: take any run, a path whose latest event is a quiet period old, and let timers go off and
      callbacks run, in any order, until no more can. That takes as many steps as there is work, and the path has
      then been reported by a callback that started at least a quiet period after the event. */
  lemma EveryWriteReported(states: seq<State>, acts: seq<Action>, path: string, later: seq<State>, more: seq<Action>)
    requires Run(states, acts) && Working(later, more) && later[0] == states[|acts|]
    requires path in later[0].lastEvent && later[0].now >= later[0].lastEvent[path] + QUIET_PERIOD
    requires !exists a: Action :: (a.Expire? || a.Delete?) && Enabled(later[|more|], a)
    ensures |more| <= Work(later[0])
    ensures FiredSince(later[|more|].handled, path, later[0].lastEvent[path] + QUIET_PERIOD)
  {
    RunInv(states, acts, |acts|);
    WorkEnds(later, more, |more|);
    WorkKeepsInv(later, more, |more|);
    BusyIff(later[|more|]);
    assert Remembered(later[|more|], path);
  }
}
