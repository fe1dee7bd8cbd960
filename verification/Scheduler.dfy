/** internal/scheduler/rarest.go and the chunk workers of internal/orchestrator/sync.go:132-177. */
module Scheduler {
  import opened Base
  import opened Control
  import opened Backoff

  datatype ChunkRarity = ChunkRarity(hash: Hash, peers: seq<string>)

  /** A peer's availability answer. Peers that cannot be reached or fail do not answer. */
  datatype Answer = Answer(addr: string, available: seq<Hash>)

  /** One pass of the recording loop: this peer has this chunk. */
  datatype Mention = Mention(addr: string, hash: Hash)

  /** The recorded holders of a chunk, in recording order. */
  function Who(mentions: seq<Mention>, h: Hash): seq<string>
    decreases |mentions|
  {
    if mentions == [] then []
    else
      var last := mentions[|mentions| - 1];
      Who(mentions[..|mentions| - 1], h) + (if last.hash == h then [last.addr] else [])
  }

  lemma WhoNext(mentions: seq<Mention>, m: Mention, h: Hash)
    ensures Who(mentions + [m], h) == Who(mentions, h) + (if m.hash == h then [m.addr] else [])
  {
    assert (mentions + [m])[..|mentions|] == mentions;
  }

  lemma {:induction false} WhoCount(mentions: seq<Mention>, h: Hash, addr: string)
    ensures multiset(Who(mentions, h))[addr] == multiset(mentions)[Mention(addr, h)]
    decreases |mentions|
  {
    if mentions != [] {
      var n, last := |mentions| - 1, mentions[|mentions| - 1];
      WhoCount(mentions[..n], h, addr);
      CountNext(mentions, n, Mention(addr, h));
      assert mentions[..n + 1] == mentions;
      if last.hash == h {
        AppendCount(Who(mentions[..n], h), last.addr, addr);
      }
    }
  }

  lemma AppendCount(s: seq<string>, x: string, y: string)
    ensures multiset(s + [x])[y] == multiset(s)[y] + if x == y then 1 else 0
  {
  }

  /** The holders stand in recording order: their places ascend, and are all the places where the chunk is mentioned. */
  lemma {:induction false} WhoOrder(mentions: seq<Mention>, h: Hash) returns (at: seq<nat>)
    ensures |at| == |Who(mentions, h)|
    ensures forall i | 0 <= i < |at| :: at[i] < |mentions| && Who(mentions, h)[i] == mentions[at[i]].addr
    ensures forall i, j | 0 <= i < j < |at| :: at[i] < at[j]
    ensures forall k: nat | k < |mentions| :: k in at <==> mentions[k].hash == h
    decreases |mentions|
  {
    at := [];
    if mentions != [] {
      var front, last := mentions[..|mentions| - 1], mentions[|mentions| - 1];
      at := WhoOrder(front, h);
      assert mentions == front + [last];
      if last.hash == h {
        at := at + [|front|];
      }
    }
  }

  function MentionsOf(answer: Answer): (ms: seq<Mention>)
    ensures |ms| == |answer.available|
    ensures forall i | 0 <= i < |ms| :: ms[i] == Mention(answer.addr, answer.available[i])
  {
    seq(|answer.available|, i requires 0 <= i < |answer.available| => Mention(answer.addr, answer.available[i]))
  }

  function AllMentions(answers: seq<Answer>): seq<Mention>
    decreases |answers|
  {
    if answers == [] then []
    else AllMentions(answers[..|answers| - 1]) + MentionsOf(answers[|answers| - 1])
  }

  function Lookup(rarity: map<Hash, seq<string>>, h: Hash): seq<string> {
    if h in rarity then rarity[h] else []
  }

  ghost predicate Collected(mentions: seq<Mention>, rarity: map<Hash, seq<string>>) {
    forall h: Hash :: Lookup(rarity, h) == Who(mentions, h)
  }

  lemma CollectedNext(mentions: seq<Mention>, rarity: map<Hash, seq<string>>, m: Mention)
    requires Collected(mentions, rarity)
    ensures Collected(mentions + [m], rarity[m.hash := Lookup(rarity, m.hash) + [m.addr]])
  {
    forall h: Hash
      ensures Lookup(rarity[m.hash := Lookup(rarity, m.hash) + [m.addr]], h) == Who(mentions + [m], h)
    {
      WhoNext(mentions, m, h);
    }
  }

  /** The collection phase: one critical section per answer. */
  method Collect(answers: seq<Answer>) returns (rarity: map<Hash, seq<string>>)
    ensures Collected(AllMentions(answers), rarity)
  {
    rarity := map[];
    for i := 0 to |answers|
      invariant Collected(AllMentions(answers[..i]), rarity)
    {
      rarity := Record(AllMentions(answers[..i]), rarity, answers[i]);
      assert answers[..i + 1][..i] == answers[..i];
    }
    assert answers[..|answers|] == answers;
  }

  lemma RecordNext(mentions: seq<Mention>, ms: seq<Mention>, i: nat, rarity: map<Hash, seq<string>>)
    requires i < |ms| && Collected(mentions + ms[..i], rarity)
    ensures Collected(mentions + ms[..i + 1], rarity[ms[i].hash := Lookup(rarity, ms[i].hash) + [ms[i].addr]])
  {
    CollectedNext(mentions + ms[..i], rarity, ms[i]);
    assert mentions + ms[..i + 1] == mentions + ms[..i] + [ms[i]];
  }

  method Record(ghost mentions: seq<Mention>, rarity: map<Hash, seq<string>>, answer: Answer)
    returns (after: map<Hash, seq<string>>)
    requires Collected(mentions, rarity)
    ensures Collected(mentions + MentionsOf(answer), after)
  {
    after := rarity;
    ghost var ms := MentionsOf(answer);
    assert mentions + ms[..0] == mentions;
    for i := 0 to |answer.available|
      invariant Collected(mentions + ms[..i], after)
    {
      RecordNext(mentions, ms, i, after);
      after := after[answer.available[i] := Lookup(after, answer.available[i]) + [answer.addr]];
    }
    assert ms[..|ms|] == ms;
  }

  // ---- Sorting ----

  predicate Ascending(entries: seq<ChunkRarity>) {
    forall i, j | 0 <= i < j < |entries| :: |entries[i].peers| <= |entries[j].peers|
  }

  lemma InsertKeepsOrder(sorted: seq<ChunkRarity>, k: nat, e: ChunkRarity)
    requires Ascending(sorted) && k <= |sorted|
    requires forall j | 0 <= j < k :: |sorted[j].peers| <= |e.peers|
    requires forall j | k <= j < |sorted| :: |e.peers| <= |sorted[j].peers|
    ensures Ascending(sorted[..k] + [e] + sorted[k..])
    ensures multiset(sorted[..k] + [e] + sorted[k..]) == multiset(sorted) + multiset{e}
  {
    var r := sorted[..k] + [e] + sorted[k..];
    forall i, j | 0 <= i < j < |r| ensures |r[i].peers| <= |r[j].peers| {
      var x := if i < k then sorted[i] else if i == k then e else sorted[i - 1];
      var y := if j < k then sorted[j] else if j == k then e else sorted[j - 1];
      assert r[i] == x && r[j] == y;
    }
    assert sorted == sorted[..k] + sorted[k..];
  }

  method Insert(sorted: seq<ChunkRarity>, e: ChunkRarity) returns (r: seq<ChunkRarity>)
    requires Ascending(sorted)
    ensures Ascending(r) && multiset(r) == multiset(sorted) + multiset{e}
  {
    var k := |sorted|;
    while k > 0 && |sorted[k - 1].peers| > |e.peers|
      invariant 0 <= k <= |sorted|
      invariant forall j | k <= j < |sorted| :: |e.peers| <= |sorted[j].peers|
    {
      k := k - 1;
    }
    InsertKeepsOrder(sorted, k, e);
    r := sorted[..k] + [e] + sorted[k..];
  }

  /** Stands for `sort.Slice`: callers rely only on the order and on nothing being lost. */
  method SortByRarity(entries: seq<ChunkRarity>) returns (sorted: seq<ChunkRarity>)
    ensures Ascending(sorted) && multiset(sorted) == multiset(entries)
  {
    sorted := [];
    for i := 0 to |entries|
      invariant Ascending(sorted) && multiset(sorted) == multiset(entries[..i])
    {
      assert entries[..i + 1] == entries[..i] + [entries[i]];
      sorted := Insert(sorted, entries[i]);
    }
    assert entries[..|entries|] == entries;
  }

  // ---- The rarity map ----

  function Entries(missing: seq<Hash>, answers: seq<Answer>): (r: seq<ChunkRarity>)
    ensures |r| == |missing|
    ensures forall i | 0 <= i < |missing| :: r[i] == ChunkRarity(missing[i], Who(AllMentions(answers), missing[i]))
  {
    seq(|missing|, i requires 0 <= i < |missing| => ChunkRarity(missing[i], Who(AllMentions(answers), missing[i])))
  }

  /** `answers` lists the answers in the order their critical sections ran. */
  method BuildRarityMap(missing: seq<Hash>, answers: seq<Answer>) returns (result: seq<ChunkRarity>)
    ensures multiset(result) == multiset(Entries(missing, answers)) && Ascending(result)
  {
    var rarity := Collect(answers);
    result := [];
    for i := 0 to |missing|
      invariant |result| == i
      invariant forall k | 0 <= k < i :: result[k] == Entries(missing, answers)[k]
    {
      result := result + [ChunkRarity(missing[i], Lookup(rarity, missing[i]))];
    }
    assert result == Entries(missing, answers);
    result := SortByRarity(result);
  }

  ghost predicate Mentioned(mentions: seq<Mention>, h: Hash) {
    exists i :: 0 <= i < |mentions| && mentions[i].hash == h
  }

  lemma {:induction false} MentionedIff(answers: seq<Answer>, h: Hash)
    ensures Mentioned(AllMentions(answers), h) <==> exists k | 0 <= k < |answers| :: h in answers[k].available
    decreases |answers|
  {
    if answers != [] {
      var front, last := answers[..|answers| - 1], answers[|answers| - 1];
      MentionedIff(front, h);
      MentionedJoin(AllMentions(front), MentionsOf(last), h);
      assert Mentioned(MentionsOf(last), h) <==> h in last.available;
      assert answers == front + [last];
    }
  }

  lemma MentionedJoin(a: seq<Mention>, b: seq<Mention>, h: Hash)
    ensures Mentioned(a + b, h) <==> Mentioned(a, h) || Mentioned(b, h)
  {
    if Mentioned(a, h) {
      var i :| 0 <= i < |a| && a[i].hash == h;
      assert (a + b)[i] == a[i];
    }
    if Mentioned(b, h) {
      var i :| 0 <= i < |b| && b[i].hash == h;
      assert (a + b)[|a| + i] == b[i];
    }
  }

  /** No answer lists the chunk. */
  ghost predicate Unlisted(answers: seq<Answer>, h: Hash) {
    forall k | 0 <= k < |answers| :: h !in answers[k].available
  }

  /** A chunk has no holder exactly if no answer lists it. */
  lemma NoHolderIff(answers: seq<Answer>, h: Hash)
    ensures Who(AllMentions(answers), h) == [] <==> Unlisted(answers, h)
  {
    var at := WhoOrder(AllMentions(answers), h);
    MentionedIff(answers, h);
    if Who(AllMentions(answers), h) != [] {
      assert at[0] in at && AllMentions(answers)[at[0]].hash == h;
    }
  }

  lemma MentionsLast(answers: seq<Answer>)
    requires answers != []
    ensures AllMentions(answers) == AllMentions(answers[..|answers| - 1]) + MentionsOf(answers[|answers| - 1])
  {
  }

  lemma {:induction false} MentionsAppend(a: seq<Answer>, b: seq<Answer>)
    ensures AllMentions(a + b) == AllMentions(a) + AllMentions(b)
    decreases |b|
  {
    if b == [] {
      assert a + b == a;
    } else {
      var front, last := b[..|b| - 1], b[|b| - 1];
      MentionsAppend(a, front);
      MentionsLast(a + b);
      MentionsLast(b);
      assert (a + b)[..|a + b| - 1] == a + front;
      Regroup(AllMentions(a), AllMentions(front), MentionsOf(last));
    }
  }

  lemma {:induction false} MentionsPermute(a: seq<Answer>, b: seq<Answer>)
    requires multiset(a) == multiset(b)
    ensures multiset(AllMentions(a)) == multiset(AllMentions(b))
    decreases |a|
  {
    if a == [] {
      assert |multiset(b)| == 0;
    } else {
      var front, last := a[..|a| - 1], a[|a| - 1];
      assert a == front + [last];
      assert last in multiset(b);
      var k :| 0 <= k < |b| && b[k] == last;
      WithoutOne(a, |a| - 1);
      WithoutOne(b, k);
      assert Without(a, |a| - 1) == front;
      MentionsPermute(front, Without(b, k));
      MentionsWithout(b, k);
      MentionsAppend(front, [last]);
    }
  }

  lemma MentionsWithout(b: seq<Answer>, k: nat)
    requires k < |b|
    ensures multiset(AllMentions(b)) == multiset(AllMentions(Without(b, k))) + multiset(AllMentions([b[k]]))
  {
    Reassemble(b, k);
    MentionsTakeOut(b[..k], [b[k]], b[k + 1..], b[..k] + [b[k]]);
  }

  lemma Reassemble<T>(s: seq<T>, k: nat)
    requires k < |s|
    ensures s == (s[..k] + [s[k]]) + s[k + 1..]
  {
  }

  lemma MentionsTakeOut(x: seq<Answer>, y: seq<Answer>, z: seq<Answer>, xy: seq<Answer>)
    requires xy == x + y
    ensures multiset(AllMentions(xy + z)) == multiset(AllMentions(x + z)) + multiset(AllMentions(y))
  {
    MentionsAppend(xy, z);
    MentionsAppend(x, y);
    MentionsAppend(x, z);
    TakeOut(AllMentions(x), AllMentions(y), AllMentions(z));
  }

  lemma TakeOut<T>(x: seq<T>, y: seq<T>, z: seq<T>)
    ensures multiset((x + y) + z) == multiset(x + z) + multiset(y)
  {
  }

  /** Whatever the order in which the answers are recorded, a chunk ends up with the same holders,
      each as often, and so with the same rarity. */
  lemma ScheduleIndependent(answers: seq<Answer>, reordered: seq<Answer>, h: Hash)
    requires multiset(answers) == multiset(reordered)
    ensures multiset(Who(AllMentions(answers), h)) == multiset(Who(AllMentions(reordered), h))
    ensures |Who(AllMentions(answers), h)| == |Who(AllMentions(reordered), h)|
  {
    MentionsPermute(answers, reordered);
    var p, q := Who(AllMentions(answers), h), Who(AllMentions(reordered), h);
    forall a: string ensures multiset(p)[a] == multiset(q)[a] {
      WhoCount(AllMentions(answers), h, a);
      WhoCount(AllMentions(reordered), h, a);
    }
    assert multiset(p) == multiset(q);
    assert |multiset(p)| == |multiset(q)|;
  }

  ghost predicate DistinctAddrs(answers: seq<Answer>) {
    forall i, j | 0 <= i < j < |answers| :: answers[i].addr != answers[j].addr
  }

  lemma {:induction false} MentionCount(mentions: seq<Mention>, available: seq<Hash>, addr: string, a: string, h: Hash)
    requires |mentions| == |available|
    requires forall i | 0 <= i < |mentions| :: mentions[i] == Mention(addr, available[i])
    ensures multiset(mentions)[Mention(a, h)] == if a == addr then multiset(available)[h] else 0
    decreases |mentions|
  {
    if mentions != [] {
      var n := |mentions| - 1;
      MentionCount(mentions[..n], available[..n], addr, a, h);
      CountNext(mentions, n, Mention(a, h));
      CountNext(available, n, h);
      assert mentions[..n + 1] == mentions && available[..n + 1] == available;
    }
  }

  lemma AnswerCount(answer: Answer, a: string, h: Hash)
    ensures multiset(MentionsOf(answer))[Mention(a, h)] == if a == answer.addr then multiset(answer.available)[h] else 0
  {
    MentionCount(MentionsOf(answer), answer.available, answer.addr, a, h);
  }

  lemma {:induction false} HolderCount(answers: seq<Answer>, k: nat, h: Hash)
    requires DistinctAddrs(answers) && k < |answers|
    ensures multiset(AllMentions(answers))[Mention(answers[k].addr, h)] == multiset(answers[k].available)[h]
    decreases |answers|
  {
    var front, last := answers[..|answers| - 1], answers[|answers| - 1];
    AnswerCount(last, answers[k].addr, h);
    if k < |front| {
      HolderCount(front, k, h);
    } else {
      Unmentioned(front, answers[k].addr, h);
    }
  }

  lemma {:induction false} Unmentioned(answers: seq<Answer>, a: string, h: Hash)
    requires forall i | 0 <= i < |answers| :: answers[i].addr != a
    ensures multiset(AllMentions(answers))[Mention(a, h)] == 0
    decreases |answers|
  {
    if answers != [] {
      var front, last := answers[..|answers| - 1], answers[|answers| - 1];
      Unmentioned(front, a, h);
      AnswerCount(last, a, h);
    }
  }

  /** In the finished list, a peer that answered appears among a chunk's holders exactly as often as
      the chunk is missing, if it holds the chunk, and otherwise not at all. */
  lemma HoldersExact(missing: seq<Hash>, answers: seq<Answer>, k: nat, objects: map<Hash, Bytes>,
                     result: seq<ChunkRarity>, e: nat)
    requires DistinctAddrs(answers) && k < |answers| && answers[k].available == AvailabilityAnswer(objects, missing)
    requires multiset(result) == multiset(Entries(missing, answers)) && e < |result|
    ensures result[e].hash in missing
    ensures multiset(result[e].peers)[answers[k].addr] ==
            if result[e].hash in objects then multiset(missing)[result[e].hash] else 0
  {
    assert result[e] in multiset(result);
    assert result[e] in Entries(missing, answers);
    WhoCount(AllMentions(answers), result[e].hash, answers[k].addr);
    HolderCount(answers, k, result[e].hash);
    HashesAnswered(objects, missing);
    AvailableCount(objects, missing, result[e].hash);
  }

  // ---- Chunk workers ----

  const BASE_BACKOFF := 500 * MILLISECOND
  const MAX_BACKOFF := 5 * SECOND

  /** What the outside gives one worker: the address table, whether the tracker lets entry p through,
      the answer to attempt a at entry p, and the random draws. */
  datatype Outside = Outside(
    http: map<string, string>,
    available: nat -> bool,
    fetch: (nat, nat) -> Option<Bytes>,
    draw: (nat, nat) -> real)

  ghost predicate Draws(o: Outside) {
    forall p, a :: 0.0 <= o.draw(p, a) < 1.0
  }

  /** Entry p of the holder list yields nothing: skipped, or three failed attempts. */
  ghost predicate Fails(o: Outside, peers: seq<string>, p: nat)
    requires p < |peers|
  {
    peers[p] !in o.http || !o.available(p) ||
    (o.fetch(p, 1).None? && o.fetch(p, 2).None? && o.fetch(p, 3).None?)
  }

  lemma AttemptBackoff(attempt: int, draw: real)
    requires 1 <= attempt <= 2 && 0.0 <= draw < 1.0
    ensures attempt * 750 * MILLISECOND <= CalcJitteredBackoff(attempt, BASE_BACKOFF, MAX_BACKOFF, draw)
    ensures CalcJitteredBackoff(attempt, BASE_BACKOFF, MAX_BACKOFF, draw) <= attempt * 1250 * MILLISECOND
  {
    BackoffBounds(attempt, BASE_BACKOFF, MAX_BACKOFF, draw);
    assert PowerOfTwo(1) == 2 && PowerOfTwo(2) == 4;
  }

  /** Entry p is let through. */
  ghost predicate Tried(o: Outside, peers: seq<string>, p: nat)
    requires p < |peers|
  {
    peers[p] in o.http && o.available(p)
  }

  /** The fetches at an entry that is let through: up to the first answer, and no more than three. */
  ghost function Fetches(o: Outside, p: nat): nat {
    if o.fetch(p, 1).Some? then 1 else if o.fetch(p, 2).Some? then 2 else 3
  }

  /** The sleep at it: after the first and after the second fetch, if there is another one. */
  ghost function Sleep(o: Outside, p: nat): int
    requires Draws(o)
  {
    (if Fetches(o, p) > 1 then CalcJitteredBackoff(1, BASE_BACKOFF, MAX_BACKOFF, o.draw(p, 1)) else 0) +
    (if Fetches(o, p) > 2 then CalcJitteredBackoff(2, BASE_BACKOFF, MAX_BACKOFF, o.draw(p, 2)) else 0)
  }

  ghost function AllFetches(o: Outside, peers: seq<string>, n: nat): nat
    requires n <= |peers|
  {
    if n == 0 then 0 else AllFetches(o, peers, n - 1) + if Tried(o, peers, n - 1) then Fetches(o, n - 1) else 0
  }

  ghost function AllSleep(o: Outside, peers: seq<string>, n: nat): int
    requires Draws(o) && n <= |peers|
  {
    if n == 0 then 0 else AllSleep(o, peers, n - 1) + if Tried(o, peers, n - 1) then Sleep(o, n - 1) else 0
  }

  /** A fetch takes its time: there are at most three fetches per entry, and every fetch but the first at an entry comes
      after a sleep of at least 0.75 s; three at one entry sleep at least 2.25 s and at most 3.75 s. */
  lemma SleepBounds(o: Outside, p: nat)
    requires Draws(o)
    ensures 1 <= Fetches(o, p) <= 3
    ensures 750 * MILLISECOND * (Fetches(o, p) - 1) <= Sleep(o, p) <= 3750 * MILLISECOND
    ensures Fetches(o, p) == 3 ==> Sleep(o, p) >= 2250 * MILLISECOND
  {
    AttemptBackoff(1, o.draw(p, 1));
    AttemptBackoff(2, o.draw(p, 2));
  }

  lemma {:induction false} AllBounds(o: Outside, peers: seq<string>, n: nat)
    requires Draws(o) && n <= |peers|
    ensures AllFetches(o, peers, n) <= 3 * n
    ensures 750 * MILLISECOND * (AllFetches(o, peers, n) - n) <= AllSleep(o, peers, n) <= 3750 * MILLISECOND * n
    ensures 0 <= AllSleep(o, peers, n)
  {
    if n > 0 {
      AllBounds(o, peers, n - 1);
      SleepBounds(o, n - 1);
    }
  }

  /** When every entry is let through and fails. */
  lemma {:induction false} AllInVain(o: Outside, peers: seq<string>, n: nat)
    requires Draws(o) && n <= |peers| && forall p | 0 <= p < n :: Tried(o, peers, p) && Fails(o, peers, p)
    ensures AllFetches(o, peers, n) == 3 * n && AllSleep(o, peers, n) >= 2250 * MILLISECOND * n
  {
    if n > 0 {
      AllInVain(o, peers, n - 1);
      SleepBounds(o, n - 1);
    }
  }

  lemma InVain(o: Outside, peers: seq<string>)
    requires Draws(o) && forall p | 0 <= p < |peers| :: Fails(o, peers, p)
    ensures AllFetches(o, peers, |peers|) <= 3 * |peers|
    ensures 0 <= AllSleep(o, peers, |peers|) <= 3750 * MILLISECOND * |peers|
    ensures (forall p | 0 <= p < |peers| :: peers[p] in o.http && o.available(p)) ==>
      AllFetches(o, peers, |peers|) == 3 * |peers| && AllSleep(o, peers, |peers|) >= 2250 * MILLISECOND * |peers|
  {
    AllBounds(o, peers, |peers|);
    if forall p | 0 <= p < |peers| :: peers[p] in o.http && o.available(p) {
      AllInVain(o, peers, |peers|);
    }
  }

  /** Entry p is the first that does not fail. */
  ghost predicate Answers(o: Outside, peers: seq<string>, p: nat) {
    p < |peers| && !Fails(o, peers, p) && forall q | 0 <= q < p :: Fails(o, peers, q)
  }

  lemma AnsweredBounds(o: Outside, peers: seq<string>, p: nat)
    requires Draws(o) && Answers(o, peers, p)
    ensures AllFetches(o, peers, p + 1) <= 3 * |peers|
    ensures 0 <= AllSleep(o, peers, p + 1) <= 3750 * MILLISECOND * |peers|
  {
    AllBounds(o, peers, p + 1);
  }

  /** One chunk worker. It returns the bytes of the first attempt that is answered, in the order of the holder list; it
      gives up exactly when every entry fails. It fetches and sleeps exactly as often and as long as the entries up to
      the one that answers make it. */
  method RunWorker(o: Outside, peers: seq<string>) returns (data: Option<Bytes>, fetches: nat, slept: int)
    requires Draws(o)
    ensures data.None? <==> forall p | 0 <= p < |peers| :: Fails(o, peers, p)
    ensures data.Some? ==> exists p: nat, a: nat | p < |peers| && 1 <= a <= 3 ::
      && (forall q | 0 <= q < p :: Fails(o, peers, q))
      && peers[p] in o.http && o.available(p) && o.fetch(p, a) == data
      && forall b: nat | 1 <= b < a :: o.fetch(p, b).None?
    ensures data.None? ==> fetches == AllFetches(o, peers, |peers|) && slept == AllSleep(o, peers, |peers|)
    ensures forall p: nat | Answers(o, peers, p) ::
      fetches == AllFetches(o, peers, p + 1) && slept == AllSleep(o, peers, p + 1)
    ensures fetches <= 3 * |peers| && 0 <= slept <= 3750 * MILLISECOND * |peers|
    ensures data.None? && (forall p | 0 <= p < |peers| :: peers[p] in o.http && o.available(p)) ==>
      fetches == 3 * |peers| && slept >= 2250 * MILLISECOND * |peers|
  {
    data, fetches, slept := TryPeers(o, peers);
    if data.None? {
      InVain(o, peers);
    } else {
      ghost var p :| Answers(o, peers, p);
      AnsweredBounds(o, peers, p);
    }
  }

  /** Entry by entry. */
  method TryPeers(o: Outside, peers: seq<string>) returns (data: Option<Bytes>, fetches: nat, slept: int)
    requires Draws(o)
    ensures data.None? <==> forall p | 0 <= p < |peers| :: Fails(o, peers, p)
    ensures data.Some? ==> exists p: nat, a: nat | p < |peers| && 1 <= a <= 3 ::
      && (forall q | 0 <= q < p :: Fails(o, peers, q))
      && peers[p] in o.http && o.available(p) && o.fetch(p, a) == data
      && forall b: nat | 1 <= b < a :: o.fetch(p, b).None?
    ensures data.None? ==> fetches == AllFetches(o, peers, |peers|) && slept == AllSleep(o, peers, |peers|)
    ensures data.Some? ==> exists p :: Answers(o, peers, p)
    ensures forall p: nat | Answers(o, peers, p) ::
      fetches == AllFetches(o, peers, p + 1) && slept == AllSleep(o, peers, p + 1)
  {
    fetches, slept := 0, 0;
    for p := 0 to |peers|
      invariant forall q | 0 <= q < p :: Fails(o, peers, q)
      invariant fetches == AllFetches(o, peers, p) && slept == AllSleep(o, peers, p)
    {
      if peers[p] in o.http && o.available(p) {
        var more, time;
        data, more, time := TryPeer(o, p);
        fetches, slept := fetches + more, slept + time;
        if data.Some? {
          assert Answers(o, peers, p);
          return;
        }
      }
    }
    data := None;
  }

  method TryPeer(o: Outside, p: nat) returns (data: Option<Bytes>, fetches: nat, slept: int)
    requires Draws(o)
    ensures data.None? <==> o.fetch(p, 1).None? && o.fetch(p, 2).None? && o.fetch(p, 3).None?
    ensures data.Some? ==> exists a: nat | 1 <= a <= 3 ::
      o.fetch(p, a) == data && forall b: nat | 1 <= b < a :: o.fetch(p, b).None?
    ensures fetches == Fetches(o, p) && slept == Sleep(o, p)
    ensures 1 <= fetches <= 3 && (data.Some? ==> o.fetch(p, fetches) == data) && (data.None? ==> fetches == 3)
  {
    fetches, slept := 0, 0;
    var attempt: nat := 1;
    while attempt <= 3
      invariant 1 <= attempt <= 3
      invariant fetches == attempt - 1
      invariant forall b: nat | 1 <= b < attempt :: o.fetch(p, b).None?
      invariant slept == (if attempt > 1 then CalcJitteredBackoff(1, BASE_BACKOFF, MAX_BACKOFF, o.draw(p, 1)) else 0) +
                         (if attempt > 2 then CalcJitteredBackoff(2, BASE_BACKOFF, MAX_BACKOFF, o.draw(p, 2)) else 0)
      decreases 3 - attempt
    {
      data := o.fetch(p, attempt);
      fetches := fetches + 1;
      if data.Some? {
        return;
      }
      if attempt == 3 {
        break;
      }
      var backoff := CalcJitteredBackoff(attempt, BASE_BACKOFF, MAX_BACKOFF, o.draw(p, attempt));
      slept := slept + backoff;
      attempt := attempt + 1;
    }
  }
}
