/** internal/scheduler/backoff.go: jittered backoff and peer health. Durations are nanoseconds. */
module Backoff {
  const MILLISECOND := 1_000_000
  const SECOND := 1_000_000_000

  function PowerOfTwo(n: nat): (p: nat)
    ensures p >= 1
  {
    if n == 0 then 1 else 2 * PowerOfTwo(n - 1)
  }

  /** `1 << uint(attempt)`, with attempts above ten counted as ten; a negative attempt shifts everything out. */
  function Multiplier(attempt: int): nat {
    if attempt < 0 then 0 else if attempt > 10 then PowerOfTwo(10) else PowerOfTwo(attempt)
  }

  /** The backoff before jitter. */
  function Nominal(attempt: int, base: int, max: int): (b: int)
    ensures b <= max
  {
    var b := base * Multiplier(attempt);
    if b > max then max else b
  }

  /** Go's conversion of a float to an integer: towards zero. */
  function Truncate(x: real): (n: int)
    ensures x >= 0.0 ==> n as real <= x < n as real + 1.0
    ensures x <= 0.0 ==> n as real - 1.0 < x <= n as real
  {
    if x >= 0.0 then x.Floor else -((-x).Floor)
  }

  /** The nominal backoff moved by up to a quarter either way; `draw` is the random number. */
  function Jittered(b: int, draw: real): real {
    var jitterRange := b as real * 0.25;
    b as real + (draw * 2.0 * jitterRange - jitterRange)
  }

  function CalcJitteredBackoff(attempt: int, base: int, max: int, draw: real): int
    requires 0.0 <= draw < 1.0
  {
    var final := Truncate(Jittered(Nominal(attempt, base, max), draw));
    if final > max then max
    else if final < MILLISECOND then MILLISECOND
    else final
  }

  lemma JitterRange(b: int, draw: real)
    requires 0.0 <= draw < 1.0 && b >= 0
    ensures 0.75 * b as real <= Jittered(b, draw) <= 1.25 * b as real
  {
    var r := b as real * 0.25;
    assert draw * 2.0 * r == 2.0 * (draw * r);
    ProductBound(draw, r);
  }

  lemma ProductBound(u: real, r: real)
    requires 0.0 <= u < 1.0 && r >= 0.0
    ensures 0.0 <= u * r <= r
  {
    assert r - u * r == (1.0 - u) * r;
  }

  /** The powers are what they are called. */
  lemma PowersDouble(n: nat)
    ensures PowerOfTwo(0) == 1 && PowerOfTwo(n + 1) == PowerOfTwo(n) + PowerOfTwo(n)
  {
  }

  /** The backoff before jitter is min(base * 2^min(attempt, 10), max); negative attempts are shifted out. */
  lemma NominalIs(attempt: int, base: int, max: int)
    ensures var power := if attempt < 0 then 0 else if attempt < 10 then PowerOfTwo(attempt) else 1024;
      Nominal(attempt, base, max) == if base * power <= max then base * power else max
  {
    assert PowerOfTwo(10) == 32 * PowerOfTwo(5) && PowerOfTwo(5) == 32;
  }

  /** Within a quarter of min(base * 2^min(attempt, 10), max), rounded down, then clamped to [1 ms, max]. */
  lemma BackoffBounds(attempt: int, base: int, max: int, draw: real)
    requires 0.0 <= draw < 1.0 && base >= 0 && max >= MILLISECOND
    ensures var power := if attempt < 0 then 0 else if attempt < 10 then PowerOfTwo(attempt) else 1024;
      var b, d := if base * power <= max then base * power else max, CalcJitteredBackoff(attempt, base, max, draw);
      && MILLISECOND <= d <= max
      && (d as real <= 1.25 * b as real || d == MILLISECOND)
      && (d as real > 0.75 * b as real - 1.0)
  {
    NominalIs(attempt, base, max);
    JitterRange(Nominal(attempt, base, max), draw);
  }

  /** And exactly, for all inputs: a draw u makes it 3/4 + u/2 of that, rounded towards zero; the upper clamp goes
      first. */
  lemma BackoffExact(attempt: int, base: int, max: int, draw: real)
    requires 0.0 <= draw < 1.0
    ensures var power := if attempt < 0 then 0 else if attempt < 10 then PowerOfTwo(attempt) else 1024;
      var b := if base * power <= max then base * power else max;
      var rounded := Truncate(Portion(b, draw));
      CalcJitteredBackoff(attempt, base, max, draw) ==
        if rounded > max then max else if rounded < MILLISECOND then MILLISECOND else rounded
  {
    NominalIs(attempt, base, max);
    JitterIs(Nominal(attempt, base, max), draw);
  }

  /** Three quarters of it, and half the draw of it. */
  ghost function Portion(b: int, draw: real): real {
    (0.75 + 0.5 * draw) * b as real
  }

  lemma JitterIs(b: int, draw: real)
    ensures Jittered(b, draw) == Portion(b, draw)
  {
    var x := b as real;
    assert draw * 2.0 * (x * 0.25) == 0.5 * (draw * x);
    assert (0.75 + 0.5 * draw) * x == 0.75 * x + 0.5 * (draw * x);
  }

  /** No draw makes the result exceed the maximum exactly when the maximum is at least a millisecond:
      below that the lower clamp wins. */
  lemma StaysBelowMaxIff(attempt: int, base: int, max: int)
    ensures (forall draw: real | 0.0 <= draw < 1.0 :: CalcJitteredBackoff(attempt, base, max, draw) <= max)
       <==> max >= MILLISECOND
  {
    if max < MILLISECOND {
      var b := Nominal(attempt, base, max);
      var draw := if b >= 0 then 0.0 else 0.75;
      assert Jittered(b, 0.0) == 0.75 * b as real;
      assert Jittered(b, 0.75) == 1.125 * b as real;
      assert Truncate(Jittered(b, draw)) <= b;
      assert CalcJitteredBackoff(attempt, base, max, draw) == MILLISECOND;
    }
  }

  // ---- Peer health ----

  datatype PeerHealth = PeerHealth(isHot: bool, cooldownUntil: int, failCount: nat)

  /** The tracker forgets lazily: a cooled-down peer is reset when it is next asked about. `deadline`
      and `marks` are the history the answers are about: the latest MarkHot's deadline per peer, and
      how many MarkHot calls came since the peer was last found available. */
  class HealthTracker {
    var peers: map<string, PeerHealth>
    ghost var deadline: map<string, int>
    ghost var marks: map<string, nat>
    ghost var lastNow: int

    ghost predicate Valid()
      reads this
    {
      && peers.Keys == deadline.Keys == marks.Keys
      && forall p | p in peers ::
           && peers[p].failCount == marks[p]
           && (peers[p].isHot ==> peers[p].cooldownUntil == deadline[p])
           && (!peers[p].isHot ==> lastNow > deadline[p] && marks[p] == 0)
    }

    constructor ()
      ensures Valid() && peers == map[] && deadline == map[] && marks == map[]
    {
      peers, deadline, marks, lastNow := map[], map[], map[], 0;
    }

    /** `now` is the clock reading; readings do not go back. */
    method MarkHot(peer: string, retryAfter: int, now: int)
      requires Valid() && now >= lastNow
      modifies this
      ensures Valid() && lastNow == now
      ensures deadline == old(deadline)[peer := now + retryAfter]
      ensures marks == old(marks)[peer := (if peer in old(marks) then old(marks)[peer] else 0) + 1]
    {
      var p := if peer in peers then peers[peer] else PeerHealth(false, 0, 0);
      marks := marks[peer := (if peer in marks then marks[peer] else 0) + 1];
      peers := peers[peer := PeerHealth(true, now + retryAfter, p.failCount + 1)];
      deadline := deadline[peer := now + retryAfter];
      lastNow := now;
    }

    /** Unavailable exactly while the latest deadline has not passed. */
    method IsAvailable(peer: string, now: int) returns (available: bool)
      requires Valid() && now >= lastNow
      modifies this
      ensures Valid() && lastNow == now && deadline == old(deadline)
      ensures available <==> peer !in deadline || now > deadline[peer]
      ensures marks == if available && peer in old(marks) then old(marks)[peer := 0] else old(marks)
    {
      lastNow := now;
      if peer !in peers {
        return true;
      }
      var p := peers[peer];
      if p.isHot {
        if now > p.cooldownUntil {
          peers := peers[peer := p.(isHot := false, failCount := 0)];
          marks := marks[peer := 0];
          return true;
        }
        return false;
      }
      available := true;
    }
  }
}
