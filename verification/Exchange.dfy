/** Rounds of pairwise reconciliation of one file, with local writes stopped and every started pull
    running to its end before the next exchange.

    An exchange (i, j) is node i comparing its version with node j's (`reconcileWithPeer`,
    `handleAnnouncement`) and, if that starts a sync, pulling. Which version the pull brings is the
    policy: the code asks its listed peers in order and takes the first that has the file at all. */
module Exchange {
  import opened Base
  import opened Conflict

  /** What each node holds of the file. */
  type Replicas = map<string, Option<FileMeta>>

  /** The peers each node asks, in that order. */
  type Peers = map<string, seq<string>>

  datatype Policy =
    | FromTrigger            // the pull adopts the version that started it
    | FromList(peers: Peers) // the pull adopts the first listed holder's version

  /** Every node lists all other nodes and not itself (`GetActivePeers`). */
  ghost predicate ListsOthers(nodes: set<string>, peers: Peers) {
    && (forall n | n in nodes :: n in peers && n !in peers[n])
    && (forall n, o {:trigger o in peers[n]} | n in nodes && n in peers && o in nodes && o != n :: o in peers[n])
  }

  function RootOf(v: Option<FileMeta>): Option<Hash> {
    match v case None => None case Some(m) => Some(m.merkleRoot)
  }

  function FirstHolder(peers: seq<string>, s: Replicas): (h: Option<string>)
    ensures h.Some? ==> h.value in peers && h.value in s && s[h.value].Some?
    ensures h.None? ==> forall p | p in peers && p in s :: s[p].None?
  {
    if peers == [] then None
    else if peers[0] in s && s[peers[0]].Some? then Some(peers[0])
    else FirstHolder(peers[1..], s)
  }

  predicate Starts(s: Replicas, i: string, j: string)
    requires i in s && j in s
  {
    s[j].Some? && StartsSync(s[i], i, s[j].value.merkleRoot, s[j].value.lamportTs, j)
  }

  function Source(policy: Policy, s: Replicas, i: string, j: string): Option<string> {
    match policy
    case FromTrigger => Some(j)
    case FromList(peers) => if i in peers then FirstHolder(peers[i], s) else None
  }

  /** A fault-free pull by i from the source: nothing happens if the roots agree already. */
  function Adopt(s: Replicas, i: string, source: string): Replicas
    requires i in s && source in s
  {
    if RootOf(s[i]) == RootOf(s[source]) then s else s[i := s[source]]
  }

  function Step(policy: Policy, s: Replicas, i: string, j: string): (s': Replicas)
    requires i in s && j in s
    ensures s'.Keys == s.Keys
  {
    var source := Source(policy, s, i, j);
    if Starts(s, i, j) && source.Some? && source.value in s then Adopt(s, i, source.value) else s
  }

  lemma SelfStep(policy: Policy, s: Replicas, i: string)
    requires i in s
    ensures Step(policy, s, i, i) == s
  {
  }

  predicate Within(nodes: set<string>, round: seq<(string, string)>) {
    forall e | e in round :: e.0 in nodes && e.1 in nodes
  }

  /** Every ordered pair of nodes exchanges at least once, in any order. */
  ghost predicate Complete(nodes: set<string>, round: seq<(string, string)>) {
    Within(nodes, round) &&
    forall i, j {:trigger (i, j) in round} | i in nodes && j in nodes && i != j :: (i, j) in round
  }

  function Round(policy: Policy, s: Replicas, round: seq<(string, string)>): (s': Replicas)
    requires Within(s.Keys, round)
    ensures s'.Keys == s.Keys
    decreases |round|
  {
    if round == [] then s else Round(policy, Step(policy, s, round[0].0, round[0].1), round[1..])
  }

  ghost predicate AllComplete(nodes: set<string>, rounds: seq<seq<(string, string)>>) {
    forall k | 0 <= k < |rounds| :: Complete(nodes, rounds[k])
  }

  ghost function Rounds(policy: Policy, s: Replicas, rounds: seq<seq<(string, string)>>): (s': Replicas)
    requires AllComplete(s.Keys, rounds)
    ensures s'.Keys == s.Keys
    decreases |rounds|
  {
    if rounds == [] then s else Rounds(policy, Round(policy, s, rounds[0]), rounds[1..])
  }

  lemma RoundsFirst(policy: Policy, s: Replicas, rounds: seq<seq<(string, string)>>)
    requires AllComplete(s.Keys, rounds) && rounds != []
    ensures Complete(s.Keys, rounds[0]) && AllComplete(s.Keys, rounds[1..])
    ensures Rounds(policy, s, rounds) == Rounds(policy, Round(policy, s, rounds[0]), rounds[1..])
  {
    assert Complete(s.Keys, rounds[0]);
  }

  lemma {:induction false} RoundsSplit(policy: Policy, s: Replicas, rounds: seq<seq<(string, string)>>, k: nat)
    requires AllComplete(s.Keys, rounds) && k <= |rounds|
    ensures AllComplete(s.Keys, rounds[..k]) && AllComplete(s.Keys, rounds[k..])
    ensures Rounds(policy, s, rounds) == Rounds(policy, Rounds(policy, s, rounds[..k]), rounds[k..])
    decreases k
  {
    if k > 0 {
      RoundsSplit(policy, Round(policy, s, rounds[0]), rounds[1..], k - 1);
      assert rounds[1..][..k - 1] == rounds[..k][1..] && rounds[1..][k - 1..] == rounds[k..];
    } else {
      assert rounds[k..] == rounds;
    }
  }

  function Flatten(rounds: seq<seq<(string, string)>>): seq<(string, string)> {
    if rounds == [] then [] else rounds[0] + Flatten(rounds[1..])
  }

  lemma {:induction false} RoundSplit(policy: Policy, s: Replicas, round: seq<(string, string)>, k: nat)
    requires Within(s.Keys, round) && k <= |round|
    ensures Round(policy, s, round) == Round(policy, Round(policy, s, round[..k]), round[k..])
    decreases k
  {
    if k == 0 {
      assert round[k..] == round;
    } else {
      RoundSplit(policy, Step(policy, s, round[0].0, round[0].1), round[1..], k - 1);
      assert round[1..][..k - 1] == round[..k][1..] && round[1..][k - 1..] == round[k..];
    }
  }

  /** Rounds one after the other are one long round. */
  lemma {:induction false} RoundsFlatten(policy: Policy, s: Replicas, rounds: seq<seq<(string, string)>>)
    requires AllComplete(s.Keys, rounds)
    ensures Within(s.Keys, Flatten(rounds)) && Round(policy, s, Flatten(rounds)) == Rounds(policy, s, rounds)
    decreases |rounds|
  {
    if rounds != [] {
      assert Complete(s.Keys, rounds[0]);
      RoundsFlatten(policy, Round(policy, s, rounds[0]), rounds[1..]);
      var all := Flatten(rounds);
      assert all[..|rounds[0]|] == rounds[0] && all[|rounds[0]|..] == Flatten(rounds[1..]);
      RoundSplit(policy, s, all, |rounds[0]|);
    }
  }

  // ---- Agreement ----

  ghost predicate Agree(s: Replicas) {
    forall i, j {:trigger RootOf(s[i]), RootOf(s[j])} | i in s && j in s :: RootOf(s[i]) == RootOf(s[j])
  }

  ghost predicate Quiescent(s: Replicas) {
    forall i, j | i in s && j in s && i != j :: !Starts(s, i, j)
  }

  /** No pairwise exchange starts a sync exactly when all roots are equal (or nobody has the file). */
  lemma QuiescentIffAgree(s: Replicas)
    ensures Quiescent(s) <==> Agree(s)
  {
    if Agree(s) {
      forall i, j | i in s && j in s ensures !Starts(s, i, j) {
        assert RootOf(s[i]) == RootOf(s[j]);
      }
    }
    if Quiescent(s) {
      forall i, j | i in s && j in s ensures RootOf(s[i]) == RootOf(s[j]) {
        if i != j && RootOf(s[i]) != RootOf(s[j]) {
          assert !Starts(s, i, j) && !Starts(s, j, i);
          if s[i].Some? && s[j].Some? {
            WinnerIsAntisymmetric(s[i].value.lamportTs, i, s[j].value.lamportTs, j);
          }
        }
      }
    }
  }

  lemma {:induction false} AgreementIsAbsorbing(policy: Policy, s: Replicas, rounds: seq<seq<(string, string)>>)
    requires Agree(s) && AllComplete(s.Keys, rounds)
    ensures Rounds(policy, s, rounds) == s
    decreases |rounds|
  {
    if rounds != [] {
      AgreedRound(policy, s, rounds[0]);
      AgreementIsAbsorbing(policy, s, rounds[1..]);
    }
  }

  lemma {:induction false} AgreedRound(policy: Policy, s: Replicas, round: seq<(string, string)>)
    requires Agree(s) && Within(s.Keys, round)
    ensures Round(policy, s, round) == s
    decreases |round|
  {
    if round != [] {
      AgreedRound(policy, s, round[1..]);
    }
  }

  // ---- The node nobody wins against ----

  ghost predicate Top(s: Replicas, m: string) {
    m in s && s[m].Some? &&
    forall k | k in s && k != m && s[k].Some? ::
      RemoteWins(s[k].value.lamportTs, k, s[m].value.lamportTs, m)
  }

  lemma {:induction false} TopExists(s: Replicas) returns (m: string)
    requires exists k :: k in s && s[k].Some?
    ensures Top(s, m)
  {
    var holders := set k | k in s && s[k].Some?;
    var k :| k in s && s[k].Some?;
    assert k in holders;
    m := TopOf(s, holders);
  }

  lemma {:induction false} TopOf(s: Replicas, holders: set<string>) returns (m: string)
    requires holders != {} && forall k | k in holders :: k in s && s[k].Some?
    ensures m in holders
    ensures forall k | k in holders && k != m :: RemoteWins(s[k].value.lamportTs, k, s[m].value.lamportTs, m)
  {
    var one :| one in holders;
    var rest := holders - {one};
    assert holders == rest + {one};
    if rest == {} {
      return one;
    }
    var other := TopOf(s, rest);
    WinnerIsAntisymmetric(s[one].value.lamportTs, one, s[other].value.lamportTs, other);
    if RemoteWins(s[one].value.lamportTs, one, s[other].value.lamportTs, other) {
      return other;
    }
    forall k | k in rest && k != other
      ensures RemoteWins(s[k].value.lamportTs, k, s[one].value.lamportTs, one)
    {
      WinnerIsTransitive(s[k].value.lamportTs, k, s[other].value.lamportTs, other, s[one].value.lamportTs, one);
    }
    m := one;
  }

  // ---- Lists that change from exchange to exchange ----

  /** Node i exchanges with node j while its list of peers is this one. */
  datatype Meeting = Meeting(i: string, j: string, peers: seq<string>)

  ghost predicate Among(s: Replicas, ms: seq<Meeting>) {
    forall m | m in ms :: m.i in s && m.j in s
  }

  function Meet(s: Replicas, m: Meeting): (s': Replicas)
    requires m.i in s && m.j in s
    ensures s'.Keys == s.Keys
  {
    Step(FromList(map[m.i := m.peers]), s, m.i, m.j)
  }

  ghost function MeetAll(s: Replicas, ms: seq<Meeting>): (s': Replicas)
    requires Among(s, ms)
    ensures s'.Keys == s.Keys
    decreases |ms|
  {
    if ms == [] then s else MeetAll(Meet(s, ms[0]), ms[1..])
  }

  ghost predicate Newest(s: Replicas, n: string, t: nat) {
    n in s && s[n].Some? && s[n].value.lamportTs == t
  }

  /** No timestamp is beyond t, and all versions stamped t have one root. */
  ghost predicate OneNewest(s: Replicas, t: nat, root: Hash) {
    forall k | k in s && s[k].Some? ::
      s[k].value.lamportTs <= t && (s[k].value.lamportTs == t ==> s[k].value.merkleRoot == root)
  }

  /** The newest version is never lost by a node that has it, whatever the lists. */
  lemma NewestStays(s: Replicas, m: Meeting, t: nat, root: Hash)
    requires OneNewest(s, t, root) && m.i in s && m.j in s
    ensures OneNewest(Meet(s, m), t, root)
    ensures forall n | Newest(s, n, t) :: Newest(Meet(s, m), n, t)
  {
    if Newest(s, m.i, t) {
      assert !Starts(s, m.i, m.j);
    }
  }

  /** This meeting gives node n the newest version: it starts a sync, the first listed holder has that version,
      and n has another root. */
  ghost predicate Catches(s: Replicas, m: Meeting, n: string, t: nat, root: Hash)
    requires m.i in s && m.j in s
  {
    && m.i == n && Starts(s, m.i, m.j) && RootOf(s[n]) != Some(root)
    && FirstHolder(m.peers, s).Some? && Newest(s, FirstHolder(m.peers, s).value, t)
  }

  ghost predicate GetsIt(s: Replicas, ms: seq<Meeting>, n: string, t: nat, root: Hash)
    requires Among(s, ms)
    decreases |ms|
  {
    Newest(s, n, t) || (ms != [] && (Catches(s, ms[0], n, t, root) || GetsIt(Meet(s, ms[0]), ms[1..], n, t, root)))
  }

  lemma {:induction false} GotIt(s: Replicas, ms: seq<Meeting>, n: string, t: nat, root: Hash)
    requires OneNewest(s, t, root) && Among(s, ms) && GetsIt(s, ms, n, t, root)
    ensures OneNewest(MeetAll(s, ms), t, root) && Newest(MeetAll(s, ms), n, t)
    decreases |ms|
  {
    if ms != [] {
      NewestStays(s, ms[0], t, root);
      GotIt(Meet(s, ms[0]), ms[1..], n, t, root);
    }
  }

  /** With peer lists as they come: if the greatest timestamp has one root, a schedule in which every node has the
      newest version at some time, or once starts a sync while the first listed holder has it, ends in agreement. */
  lemma NewestSpreads(s: Replicas, ms: seq<Meeting>, t: nat, root: Hash)
    requires OneNewest(s, t, root) && Among(s, ms) && forall n | n in s :: GetsIt(s, ms, n, t, root)
    ensures Agree(MeetAll(s, ms))
  {
    var s' := MeetAll(s, ms);
    forall n | n in s' ensures RootOf(s'[n]) == Some(root) {
      GotIt(s, ms, n, t, root);
    }
  }
}
