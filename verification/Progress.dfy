/** A pull that meets no fault: whatever the order of its workers and whatever order it starts them in, it is
    never stuck, it takes a known number of steps, and it ends with the first listed holder's version. */
module Progress {
  import opened Base
  import opened Control
  import opened Assembler
  import opened Store
  import opened Protocol
  import opened Integrity
  import opened Runs

  /** The first listed peer that has the file. */
  ghost predicate FirstWith(c: Cluster, peers: seq<string>, file: string, q: nat) {
    && q < |peers| && peers[q] in c.nodes && file in c.nodes[peers[q]].meta
    && forall p | 0 <= p < q :: peers[p] in c.nodes ==> file !in c.nodes[peers[p]].meta
  }

  predicate OwnAction(a: Action, k: nat) {
    (PhaseOnly(a) || a.WorkerDone? || a.PullAssemble? || a.PullWrite? ||
     a.PullBroken? || a.PullCommit? || a.PullRelease?)
    && a.k == k
  }

  /** No call fails: a peer is passed over only if it has not got the file, bytes are right and are stored,
      nothing is given up. */
  ghost predicate NoFault(env: Env, c: Cluster, node: Node, a: Action) {
    match a
    case PullSkip(k) =>
      Asking(node, k) ==>
        var peer := node.pulls[k].peers[node.pulls[k].phase.next];
        !(peer in c.nodes && node.pulls[k].file in c.nodes[peer].meta)
    case WorkerDone(k, w, data, ioOk) => AtWork(node, k, w) ==> ioOk && env.sha(data) == node.pulls[k].phase.missing[w]
    case PullMetaFail(_) => false
    case PullUnavailable(_) => false
    case WorkerGiveUp(_, _) => false
    case PullCannotCreate(_) => false
    case PullBroken(_, _) => false
    case _ => true
  }

  /** A step of pull k of node i that meets no fault. */
  ghost predicate Faultless(env: Env, c: Cluster, i: string, k: nat, a: Action) {
    Possible(env, c, i, a) && OwnAction(a, k) && NoFault(env, c, c.nodes[i], a)
  }

  ghost function FaultlessOf(env: Env, i: string, k: nat): (Cluster, Action) -> Option<Cluster> {
    (c: Cluster, a: Action) => if Faultless(env, c, i, k, a) then Some(Protocol.Step(env, c, i, a)) else None
  }

  // ---- The course of a pull ----

  /** The node when the pull started, the number of the pull, the metadata it read, the place of the first
      holder among its peers, and that peer's metadata. */
  datatype Course = Course(base: Node, k: nat, local: Option<FileMeta>, q: nat, remote: FileMeta)

  ghost function FileOf(g: Course): string
    requires g.k in g.base.pulls
  {
    g.base.pulls[g.k].file
  }

  ghost predicate InSync(g: Course) {
    g.remote.merkleRoot == LocalRoot(g.local)
  }

  ghost function Wanted(g: Course): seq<Hash> {
    Missing(g.remote.chunkHashes, Known(g.local))
  }

  /** Only the phase of the pull differs from the start. */
  ghost predicate OnlyPhase(g: Course, node: Node)
    requires g.k in g.base.pulls && g.k in node.pulls
  {
    node == Move(g.base, g.k, node.pulls[g.k].phase)
  }

  /** Only the phase of the pull and the blobs differ from the start. */
  ghost predicate OnlyPull(g: Course, node: Node)
    requires g.k in g.base.pulls && g.k in node.pulls
  {
    node == Move(g.base.(cas := node.cas), g.k, node.pulls[g.k].phase) && Extends(g.base.cas, node.cas)
  }

  /** And the file. */
  ghost predicate OnlyFile(g: Course, node: Node, meta: map<string, FileMeta>)
    requires g.k in g.base.pulls && g.k in node.pulls
  {
    && FileOf(g) in node.disk && Extends(g.base.cas, node.cas)
    && node == Move(g.base.(cas := node.cas, meta := meta, pristine := node.pristine,
                            disk := g.base.disk[FileOf(g) := node.disk[FileOf(g)]]), g.k, node.pulls[g.k].phase)
  }

  ghost predicate Adopted(g: Course, node: Node)
    requires g.k in g.base.pulls && g.k in node.pulls
  {
    !InSync(g) && OnlyFile(g, node, g.base.meta[FileOf(g) := g.remote]) && FileOf(g) in node.pristine
  }

  ghost predicate WorkersOk(g: Course, order: seq<Hash>, workers: seq<Worker>, cas: map<Hash, Bytes>) {
    && multiset(order) == multiset(Wanted(g)) && |workers| == |order| && NoneExhausted(workers)
    && forall w | 0 <= w < |workers| && workers[w] == Finished :: order[w] in cas
  }

  /** The workers decide: the file is made exactly if every worker has finished, and the pull gives up exactly if none
      is left at work and one found no holder. A worker that gets an answer has finished, right or wrong; one that
      gets none has not. */
  lemma WorkersDecide(env: Env, name: string, node: Node, k: nat, w: nat, data: Bytes, ioOk: bool)
    requires k in node.pulls && node.pulls[k].phase.Fetching?
    ensures var workers := node.pulls[k].phase.workers;
      && (Enabled(env, name, node, PullAssemble(k)) <==> forall i | 0 <= i < |workers| :: workers[i] == Finished)
      && (Enabled(env, name, node, PullExhausted(k)) <==>
            (forall i | 0 <= i < |workers| :: workers[i] != Running) &&
            (exists i | 0 <= i < |workers| :: workers[i] == Exhausted))
      && (AtWork(node, k, w) ==>
            && After(env, name, node, WorkerDone(k, w, data, ioOk)).pulls[k].phase ==
                 node.pulls[k].phase.(workers := workers[w := Finished])
            && After(env, name, node, WorkerGiveUp(k, w)).pulls[k].phase ==
                 node.pulls[k].phase.(workers := workers[w := Exhausted]))
  {
  }

  /** Where a faultless pull can be. */
  ghost predicate OnTrack(g: Course, node: Node) {
    && g.k in g.base.pulls && g.remote.fileId == FileOf(g) && Holds(g.base.cas, Known(g.local))
    && g.k in node.pulls
    && match node.pulls[g.k].phase
       case Claimed => node == g.base && g.local == Local(g.base, FileOf(g))
       case Querying(local, next) => local == g.local && next <= g.q && OnlyPhase(g, node)
       case Diffed(local, next, synced, missing) =>
         && local == g.local && next == g.q && synced == InSync(g) && OnlyPhase(g, node)
         && (!synced ==> missing == Wanted(g))
       case Planned(remote, missing) => remote == g.remote && !InSync(g) && missing == Wanted(g) && OnlyPhase(g, node)
       case Fetching(remote, order, workers) =>
         remote == g.remote && !InSync(g) && OnlyPull(g, node) && WorkersOk(g, order, workers, node.cas)
       case Assembling(remote, written, _, clean) =>
         && remote == g.remote && !InSync(g) && clean && written <= |remote.chunkHashes|
         && OnlyFile(g, node, g.base.meta) && Holds(node.cas, remote.chunkHashes)
       case Committed(remote) => remote == g.remote && Adopted(g, node)
       case Returned => if InSync(g) then OnlyPhase(g, node) else Adopted(g, node)
  }

  /** Where the pull can be, whatever else has happened to its node. */
  ghost predicate Alive(g: Course, node: Node) {
    && g.k in g.base.pulls && g.q < |g.base.pulls[g.k].peers|
    && g.k in node.pulls && node.pulls[g.k].file == FileOf(g) && node.pulls[g.k].peers == g.base.pulls[g.k].peers
    && match node.pulls[g.k].phase
       case Claimed => true
       case Querying(local, next) => local == g.local && next <= g.q && Holds(node.cas, Known(g.local))
       case Diffed(local, next, synced, missing) =>
         && local == g.local && next == g.q && synced == InSync(g) && (!synced ==> missing == Wanted(g))
         && Holds(node.cas, Known(g.local))
       case Planned(remote, missing) =>
         remote == g.remote && !InSync(g) && missing == Wanted(g) && Holds(node.cas, Known(g.local))
       case Fetching(remote, order, workers) =>
         && remote == g.remote && !InSync(g) && WorkersOk(g, order, workers, node.cas)
         && Holds(node.cas, Known(g.local))
       case Assembling(remote, written, _, _) =>
         && remote == g.remote && !InSync(g) && written <= |remote.chunkHashes|
         && FileOf(g) in node.disk && Holds(node.cas, remote.chunkHashes)
       case Committed(remote) => remote == g.remote && !InSync(g)
       case Returned => true
  }

  /** The asked peer has the file, and all chunks of the version it had at the diff. */
  ghost predicate Backed(c: Cluster, g: Course)
    requires g.k in g.base.pulls && g.q < |g.base.pulls[g.k].peers|
  {
    var peer := g.base.pulls[g.k].peers[g.q];
    peer in c.nodes && FileOf(g) in c.nodes[peer].meta && Holds(c.nodes[peer].cas, g.remote.chunkHashes)
  }

  ghost predicate SourceOk(env: Env, c: Cluster, g: Course)
    requires g.k in g.base.pulls && g.q < |g.base.pulls[g.k].peers|
  {
    var peer := g.base.pulls[g.k].peers[g.q];
    peer in c.nodes && BlobsOk(env, c.nodes[peer].cas)
  }

  ghost predicate NeedsPeer(phase: Phase) {
    phase.Diffed? || phase.Planned? || phase.Fetching?
  }

  ghost predicate Going(c: Cluster, i: string, g: Course) {
    i in c.nodes && Alive(g, c.nodes[i]) && (NeedsPeer(c.nodes[i].pulls[g.k].phase) ==> Backed(c, g))
  }

  ghost function RunningIn(workers: seq<Worker>): nat {
    if workers == [] then 0 else (if workers[0] == Running then 1 else 0) + RunningIn(workers[1..])
  }

  lemma {:induction false} RunningUpdate(workers: seq<Worker>, w: nat)
    requires w < |workers| && workers[w] == Running
    ensures RunningIn(workers[w := Finished]) == RunningIn(workers) - 1
  {
    if w > 0 {
      RunningUpdate(workers[1..], w - 1);
      assert workers[w := Finished][1..] == workers[1..][w - 1 := Finished];
    }
  }

  lemma {:induction false} RunningNone(workers: seq<Worker>)
    requires AllDone(workers)
    ensures RunningIn(workers) == 0
  {
    if workers != [] {
      RunningNone(workers[1..]);
    }
  }

  lemma {:induction false} RunningAll(n: nat)
    ensures RunningIn(seq(n, _ => Running)) == n
  {
    if n > 0 {
      RunningAll(n - 1);
      assert seq(n, _ => Running)[1..] == seq(n - 1, _ => Running);
    }
  }

  /** The steps a faultless pull takes from the moment it has the holder's answers. */
  ghost function Rest(g: Course): nat {
    if InSync(g) then 1 else |Wanted(g)| + |g.remote.chunkHashes| + 5
  }

  /** The steps still to come. */
  ghost function Left(g: Course, phase: Phase): int {
    match phase
    case Claimed => g.q + 3 + Rest(g)
    case Querying(_, next) => g.q - next + 2 + Rest(g)
    case Diffed(_, _, _, _) => 1 + Rest(g)
    case Planned(_, _) => Rest(g)
    case Fetching(_, _, workers) => RunningIn(workers) + |g.remote.chunkHashes| + 4
    case Assembling(_, written, _, _) => |g.remote.chunkHashes| - written + 3
    case Committed(_) => 2
    case Returned => 1
  }

  /** The move from one node to the next is one faultless step. */
  ghost predicate Advances(g: Course, node: Node, node': Node) {
    OnTrack(g, node) && OnTrack(g, node') && Left(g, node'.pulls[g.k].phase) == Left(g, node.pulls[g.k].phase) - 1
  }

  // ---- Each step ----

  lemma MoveAgain(g: Course, node: Node, phase: Phase)
    requires g.k in g.base.pulls && g.k in node.pulls && OnlyPhase(g, node)
    ensures OnlyPhase(g, Move(node, g.k, phase)) && OnlyPull(g, Move(node, g.k, phase))
  {
    assert g.base.(cas := g.base.cas) == g.base;
  }

  lemma LocalAdvances(g: Course, node: Node)
    requires OnTrack(g, node) && node.pulls[g.k].phase.Claimed?
    ensures Advances(g, node, Move(node, g.k, Querying(Local(node, node.pulls[g.k].file), 0)))
  {
  }

  lemma SkipAdvances(g: Course, node: Node)
    requires OnTrack(g, node) && node.pulls[g.k].phase.Querying? && node.pulls[g.k].phase.next < g.q
    ensures var p := node.pulls[g.k].phase; Advances(g, node, Move(node, g.k, Querying(p.local, p.next + 1)))
  {
    var p := node.pulls[g.k].phase;
    MoveAgain(g, node, Querying(p.local, p.next + 1));
  }

  lemma DiffAdvances(g: Course, node: Node, missing: seq<Hash>)
    requires OnTrack(g, node) && node.pulls[g.k].phase.Querying? && node.pulls[g.k].phase.next == g.q
    requires !InSync(g) ==> missing == Wanted(g)
    ensures Advances(g, node, Move(node, g.k, Diffed(g.local, g.q, InSync(g), missing)))
  {
    MoveAgain(g, node, Diffed(g.local, g.q, InSync(g), missing));
  }

  lemma MetaAdvances(g: Course, node: Node)
    requires OnTrack(g, node) && node.pulls[g.k].phase.Diffed?
    ensures var p := node.pulls[g.k].phase;
      Advances(g, node, Move(node, g.k, if p.synced then Returned else Planned(g.remote, p.missing)))
  {
    var p := node.pulls[g.k].phase;
    MoveAgain(g, node, if p.synced then Returned else Planned(g.remote, p.missing));
  }

  lemma StartAdvances(g: Course, node: Node, order: seq<Hash>)
    requires OnTrack(g, node) && node.pulls[g.k].phase.Planned? && multiset(order) == multiset(Wanted(g))
    ensures Advances(g, node, Move(node, g.k, Fetching(g.remote, order, seq(|order|, _ => Running))))
  {
    MoveAgain(g, node, Fetching(g.remote, order, seq(|order|, _ => Running)));
    FreshWorkers(g, order, node.cas);
  }

  lemma FreshWorkers(g: Course, order: seq<Hash>, cas: map<Hash, Bytes>)
    requires multiset(order) == multiset(Wanted(g))
    ensures var workers := seq(|order|, _ => Running);
      WorkersOk(g, order, workers, cas) && RunningIn(workers) == |Wanted(g)|
  {
    RunningAll(|order|);
    assert |multiset(order)| == |multiset(Wanted(g))|;
  }

  lemma WorkerAdvances(env: Env, g: Course, node: Node, w: nat, data: Bytes)
    requires OnTrack(g, node) && AtWork(node, g.k, w) && env.sha(data) == node.pulls[g.k].phase.missing[w]
    ensures Advances(g, node, StoreFetched(env, node, g.k, w, data, true))
  {
    var p := node.pulls[g.k].phase;
    var node' := StoreFetched(env, node, g.k, w, data, true);
    RunningUpdate(p.workers, w);
    assert OnlyPull(g, node');
    assert WorkersOk(g, p.missing, p.workers[w := Finished], node'.cas);
  }

  /** Known plus missing covers the remote list, so once the missing chunks are fetched all are held. */
  lemma AllHeld(g: Course, order: seq<Hash>, workers: seq<Worker>, cas: map<Hash, Bytes>)
    requires WorkersOk(g, order, workers, cas) && AllDone(workers) && Holds(cas, Known(g.local))
    ensures Holds(cas, g.remote.chunkHashes)
  {
    KnownPlusMissingCovers(g.remote.chunkHashes, Known(g.local));
    forall h | h in g.remote.chunkHashes ensures h in cas {
      if h !in Known(g.local) {
        assert h in multiset(Wanted(g));
        assert h in order;
        var w :| 0 <= w < |order| && order[w] == h;
        assert workers[w] == Finished;
      }
    }
  }

  lemma AssembleAdvances(g: Course, node: Node)
    requires OnTrack(g, node) && Fetched(node, g.k)
    ensures Advances(g, node, Rewrite(node, g.k, Zeros(g.remote.sizeBytes), Assembling(g.remote, 0, 0, true)))
  {
    var p := node.pulls[g.k].phase;
    AllHeld(g, p.missing, p.workers, node.cas);
    RunningNone(p.workers);
    FirstRewrite(g, node, Zeros(g.remote.sizeBytes), Assembling(g.remote, 0, 0, true));
  }

  lemma FirstRewrite(g: Course, node: Node, content: Bytes, phase: Phase)
    requires g.k in g.base.pulls && g.k in node.pulls && OnlyPull(g, node)
    ensures OnlyFile(g, Rewrite(node, g.k, content, phase), g.base.meta)
  {
  }

  lemma WriteAdvances(g: Course, node: Node)
    requires OnTrack(g, node) && CanWrite(node, g.k)
    ensures Advances(g, node, WriteNextChunk(node, g.k))
  {
    var node' := WriteNextChunk(node, g.k);
    assert OnlyFile(g, node', g.base.meta);
  }

  lemma CommitAdvances(g: Course, node: Node)
    requires OnTrack(g, node) && CanCommit(node, g.k)
    ensures Advances(g, node, Commit(node, g.k))
  {
    var node' := Commit(node, g.k);
    assert Adopted(g, node');
  }

  lemma AnnounceAdvances(g: Course, node: Node)
    requires OnTrack(g, node) && node.pulls[g.k].phase.Committed?
    ensures Advances(g, node, Move(node, g.k, Returned))
  {
    assert Adopted(g, Move(node, g.k, Returned));
  }

  // ---- Every step ----

  /** The holder: the first listed peer with the file, with this metadata and all its chunks. */
  ghost predicate Holder(env: Env, c: Cluster, i: string, g: Course) {
    && g.k in g.base.pulls && i !in g.base.pulls[g.k].peers && FirstWith(c, g.base.pulls[g.k].peers, FileOf(g), g.q)
    && var peer := c.nodes[g.base.pulls[g.k].peers[g.q]];
       peer.meta[FileOf(g)] == g.remote && BlobsOk(env, peer.cas) && Holds(peer.cas, g.remote.chunkHashes)
  }

  lemma TrackKeepsNames(g: Course, node: Node)
    requires OnTrack(g, node)
    ensures node.pulls[g.k].file == FileOf(g) && node.pulls[g.k].peers == g.base.pulls[g.k].peers
  {
  }

  /** The peer loop: every step before the holder is a skip, and at the holder it is the diff. */
  lemma AskingAdvances(env: Env, c: Cluster, i: string, g: Course, node: Node, hints: set<Hint>, a: Action)
    requires OnTrack(g, node) && Holder(env, c, i, g) && Faultless(env, With(c, i, node, hints), i, g.k, a)
    requires a.PullSkip? || a.PullDiff?
    ensures Advances(g, node, After(env, i, node, a))
  {
    TrackKeepsNames(g, node);
    var p, peers := node.pulls[g.k].phase, node.pulls[g.k].peers;
    assert peers[p.next] in peers;
    if a.PullSkip? {
      assert p.next != g.q;
      SkipAdvances(g, node);
    } else {
      assert p.next == g.q;
      DiffAdvances(g, node, a.missing);
    }
  }

  lemma AskedAdvances(env: Env, c: Cluster, i: string, g: Course, node: Node, hints: set<Hint>, remote: FileMeta)
    requires OnTrack(g, node) && Holder(env, c, i, g)
    requires Faultless(env, With(c, i, node, hints), i, g.k, PullMeta(g.k, remote))
    ensures Advances(g, node, After(env, i, node, PullMeta(g.k, remote)))
  {
    TrackKeepsNames(g, node);
    assert node.pulls[g.k].peers[g.q] in node.pulls[g.k].peers;
    assert remote == g.remote;
    MetaAdvances(g, node);
  }

  lemma PhaseAdvances(env: Env, c: Cluster, i: string, g: Course, node: Node, hints: set<Hint>, a: Action)
    requires OnTrack(g, node) && Holder(env, c, i, g) && Faultless(env, With(c, i, node, hints), i, g.k, a)
    requires a.PullLocal? || a.PullStart? || a.PullAnnounce?
    ensures Advances(g, node, After(env, i, node, a))
  {
    TrackKeepsNames(g, node);
    match a
    case PullLocal(_) => LocalAdvances(g, node);
    case PullStart(_, order) => StartAdvances(g, node, order);
    case PullAnnounce(_) => AnnounceAdvances(g, node);
  }

  lemma WorkAdvances(env: Env, i: string, g: Course, node: Node, a: Action)
    requires OnTrack(g, node) && Enabled(env, i, node, a) && OwnAction(a, g.k)
    requires a.PullAssemble? || a.PullWrite? || a.PullCommit? ||
             (a.WorkerDone? && a.ioOk && env.sha(a.data) == node.pulls[g.k].phase.missing[a.w])
    ensures Advances(g, node, After(env, i, node, a))
  {
    if a.WorkerDone? {
      WorkerAdvances(env, g, node, a.w, a.data);
    } else if a.PullAssemble? {
      AssembleAdvances(g, node);
    } else if a.PullWrite? {
      WriteAdvances(g, node);
    } else {
      CommitAdvances(g, node);
    }
  }

  /** On its way there is always a peer to ask and never an exhausted worker. */
  lemma NoDeadEnd(env: Env, i: string, g: Course, node: Node)
    requires Alive(g, node)
    ensures !Enabled(env, i, node, PullNoPeer(g.k)) && !Enabled(env, i, node, PullExhausted(g.k))
  {
  }

  /** What is left for a faultless step. */
  lemma OnlyForward(env: Env, c: Cluster, i: string, g: Course, a: Action)
    requires i in c.nodes && Alive(g, c.nodes[i]) && Faultless(env, c, i, g.k, a) && !a.PullRelease?
    ensures a.PullSkip? || a.PullDiff? || a.PullMeta? || a.PullLocal? || a.PullStart? || a.PullAnnounce? || Working(a)
    ensures a.WorkerDone? ==>
      a.ioOk && AtWork(c.nodes[i], g.k, a.w) && env.sha(a.data) == c.nodes[i].pulls[g.k].phase.missing[a.w]
  {
    if a.PullNoPeer? || a.PullExhausted? {
      NoDeadEnd(env, i, g, c.nodes[i]);
    }
  }

  predicate Working(a: Action) {
    a.WorkerDone? || a.PullAssemble? || a.PullWrite? || a.PullCommit?
  }

  /** Every faultless step stays on track and brings the end one step nearer. */
  lemma StepAdvances(env: Env, c: Cluster, i: string, g: Course, node: Node, hints: set<Hint>, a: Action)
    requires OnTrack(g, node) && Holder(env, c, i, g) && Faultless(env, With(c, i, node, hints), i, g.k, a)
    requires !a.PullRelease?
    ensures Advances(g, node, After(env, i, node, a))
  {
    TrackIsGoing(env, c, i, g, node, hints);
    OnlyForward(env, With(c, i, node, hints), i, g, a);
    if a.PullSkip? || a.PullDiff? {
      AskingAdvances(env, c, i, g, node, hints, a);
    } else if a.PullMeta? {
      AskedAdvances(env, c, i, g, node, hints, a.remote);
    } else if a.PullLocal? || a.PullStart? || a.PullAnnounce? {
      PhaseAdvances(env, c, i, g, node, hints, a);
    } else {
      WorkAdvances(env, i, g, node, a);
    }
  }

  /** What a pull of `file` that ran to its end with metadata m leaves behind. */
  ghost predicate EndsWith(before: Node, after: Node, k: nat, file: string, m: FileMeta) {
    && after.meta == before.meta[file := m]
    && after.clock == before.clock && after.ingests == before.ingests
    && after.syncing == before.syncing - {file} && after.pulls == before.pulls - {k}
    && file in after.disk && after.disk == before.disk[file := after.disk[file]]
    && file in after.pristine && Extends(before.cas, after.cas)
  }

  /** What a pull that finds itself in sync leaves behind: no trace. */
  ghost predicate EndsUnchanged(before: Node, after: Node, k: nat, file: string) {
    after == before.(syncing := before.syncing - {file}, pulls := before.pulls - {k})
  }

  ghost predicate Ends(g: Course, after: Node)
    requires g.k in g.base.pulls
  {
    if InSync(g) then EndsUnchanged(g.base, after, g.k, FileOf(g))
    else EndsWith(g.base, after, g.k, FileOf(g), g.remote)
  }

  lemma ReleaseEnds(g: Course, node: Node)
    requires OnTrack(g, node) && node.pulls[g.k].phase.Returned?
    ensures Ends(g, Release(node, g.k))
  {
    assert Release(node, g.k).pulls == g.base.pulls - {g.k};
  }

  // ---- Never stuck ----

  lemma WithStep(env: Env, c: Cluster, i: string, node: Node, hints: set<Hint>, a: Action)
    requires Possible(env, With(c, i, node, hints), i, a)
    ensures Protocol.Step(env, With(c, i, node, hints), i, a) ==
            With(c, i, After(env, i, node, a), hints + Sent(env, i, node, a))
  {
    assert c.nodes[i := node][i := After(env, i, node, a)] == c.nodes[i := After(env, i, node, a)];
  }

  /** While it asks, the peer has the file, and answers, or has not, and is passed over. */
  lemma CanAsk(env: Env, c: Cluster, i: string, g: Course) returns (a: Action)
    requires Going(c, i, g) && (c.nodes[i].pulls[g.k].phase.Querying? || c.nodes[i].pulls[g.k].phase.Diffed?)
    ensures Faultless(env, c, i, g.k, a)
  {
    var pull := c.nodes[i].pulls[g.k];
    var p := pull.phase;
    var peer := pull.peers[p.next];
    if p.Diffed? {
      a := PullMeta(g.k, c.nodes[peer].meta[pull.file]);
    } else if peer in c.nodes && pull.file in c.nodes[peer].meta {
      var d := DiffAnswer(Some(c.nodes[peer].meta[pull.file]), LocalRoot(p.local), Known(p.local));
      a := PullDiff(g.k, d.isSynced, d.missing);
    } else {
      a := PullSkip(g.k);
    }
  }

  lemma WantedHeld(g: Course, order: seq<Hash>, source: map<Hash, Bytes>)
    requires multiset(order) == multiset(Wanted(g)) && Holds(source, g.remote.chunkHashes)
    ensures Holds(source, order)
  {
    forall h | h in order ensures h in source {
      assert h in multiset(order);
      assert h in Wanted(g);
      KeepCount(g.remote.chunkHashes, (x: Hash) => x !in Known(g.local), h);
    }
  }

  lemma WorkerCanEnd(env: Env, c: Cluster, i: string, k: nat, w: nat, data: Bytes)
    requires i in c.nodes && AtWork(c.nodes[i], k, w)
    requires env.sha(data) == c.nodes[i].pulls[k].phase.missing[w] && env.world(data)
    ensures Faultless(env, c, i, k, WorkerDone(k, w, data, true))
  {
  }

  /** While it fetches, its peer has the bytes for every running worker. */
  lemma CanFetch(env: Env, c: Cluster, i: string, g: Course) returns (a: Action)
    requires Going(c, i, g) && c.nodes[i].pulls[g.k].phase.Fetching? && SourceOk(env, c, g)
    ensures Faultless(env, c, i, g.k, a)
  {
    var p := c.nodes[i].pulls[g.k].phase;
    if AllDone(p.workers) {
      a := PullAssemble(g.k);
    } else {
      var w :| 0 <= w < |p.workers| && p.workers[w] == Running;
      var source, h := c.nodes[g.base.pulls[g.k].peers[g.q]].cas, p.missing[w];
      WantedHeld(g, p.missing, source);
      assert h in p.missing && env.sha(source[h]) == h && env.world(source[h]);
      WorkerCanEnd(env, c, i, g.k, w, source[h]);
      a := WorkerDone(g.k, w, source[h], true);
    }
  }

  lemma CanWriteOn(env: Env, c: Cluster, i: string, g: Course) returns (a: Action)
    requires Going(c, i, g) && c.nodes[i].pulls[g.k].phase.Assembling?
    ensures Faultless(env, c, i, g.k, a)
  {
    var p := c.nodes[i].pulls[g.k].phase;
    if p.written < |p.remote.chunkHashes| {
      assert p.remote.chunkHashes[p.written] in p.remote.chunkHashes;
      a := PullWrite(g.k);
    } else {
      a := PullCommit(g.k);
    }
  }

  lemma CanGoOn(env: Env, c: Cluster, i: string, g: Course) returns (a: Action)
    requires Going(c, i, g) && (NeedsPeer(c.nodes[i].pulls[g.k].phase) ==> SourceOk(env, c, g))
    ensures Faultless(env, c, i, g.k, a)
  {
    match c.nodes[i].pulls[g.k].phase
    case Claimed => a := PullLocal(g.k);
    case Querying(_, _) => a := CanAsk(env, c, i, g);
    case Diffed(_, _, _, _) => a := CanAsk(env, c, i, g);
    case Planned(_, missing) => a := PullStart(g.k, missing);
    case Fetching(_, _, _) => a := CanFetch(env, c, i, g);
    case Assembling(_, _, _, _) => a := CanWriteOn(env, c, i, g);
    case Committed(_) => a := PullAnnounce(g.k);
    case Returned => a := PullRelease(g.k);
  }

  lemma TrackIsGoing(env: Env, c: Cluster, i: string, g: Course, node: Node, hints: set<Hint>)
    requires OnTrack(g, node) && Holder(env, c, i, g)
    ensures Going(With(c, i, node, hints), i, g) && SourceOk(env, With(c, i, node, hints), g)
  {
    TrackKeepsNames(g, node);
    StillHolds(g.base.cas, node.cas, Known(g.local));
    assert g.base.pulls[g.k].peers[g.q] in g.base.pulls[g.k].peers;
  }

  lemma NeverStuck(env: Env, c: Cluster, i: string, g: Course, node: Node, hints: set<Hint>) returns (a: Action)
    requires OnTrack(g, node) && Holder(env, c, i, g)
    ensures Faultless(env, With(c, i, node, hints), i, g.k, a)
  {
    TrackIsGoing(env, c, i, g, node, hints);
    a := CanGoOn(env, With(c, i, node, hints), i, g);
  }

  // ---- Every faultless pull ----

  /** Any faultless steps from a point on the way: they are at most as many as are left, and exactly that many
      are the whole rest of the pull. */
  lemma {:induction false} EveryWay(env: Env, c: Cluster, i: string, g: Course, node: Node, hints: set<Hint>,
                                    acts: seq<Action>, c': Cluster) returns (node': Node, hints': set<Hint>)
    requires OnTrack(g, node) && Holder(env, c, i, g)
    requires Reach(FaultlessOf(env, i, g.k), With(c, i, node, hints), acts, c')
    ensures c' == With(c, i, node', hints')
    ensures var left := Left(g, node.pulls[g.k].phase);
      && |acts| <= left
      && (|acts| < left ==> OnTrack(g, node') && Left(g, node'.pulls[g.k].phase) == left - |acts|)
      && (|acts| == left ==> Ends(g, node'))
    decreases |acts|
  {
    if acts == [] {
      return node, hints;
    }
    var a := acts[0];
    assert Faultless(env, With(c, i, node, hints), i, g.k, a);
    WithStep(env, c, i, node, hints, a);
    var node1, hints1 := After(env, i, node, a), hints + Sent(env, i, node, a);
    if a.PullRelease? {
      ReleaseEnds(g, node);
      Released(env, c, i, g, node, hints1, acts[1..], c');
      return node1, hints1;
    }
    StepAdvances(env, c, i, g, node, hints, a);
    node', hints' := EveryWay(env, c, i, g, node1, hints1, acts[1..], c');
  }

  lemma NoPullNoStep(env: Env, i: string, node: Node, k: nat, a: Action)
    requires k !in node.pulls && OwnAction(a, k)
    ensures !Enabled(env, i, node, a)
  {
  }

  /** A released pull takes no more steps. */
  lemma Released(env: Env, c: Cluster, i: string, g: Course, node: Node, hints: set<Hint>, acts: seq<Action>,
                 c': Cluster)
    requires g.k in node.pulls && Reach(FaultlessOf(env, i, g.k), With(c, i, Release(node, g.k), hints), acts, c')
    ensures acts == [] && c' == With(c, i, Release(node, g.k), hints)
  {
    if acts != [] {
      NoPullNoStep(env, i, Release(node, g.k), g.k, acts[0]);
    }
  }

  /** And from every point on the way there is a way to every later one, and to the end. */
  lemma {:induction false} SomeWay(env: Env, c: Cluster, i: string, g: Course, node: Node, hints: set<Hint>, left: nat)
    returns (acts: seq<Action>, c': Cluster)
    requires OnTrack(g, node) && Holder(env, c, i, g) && left <= Left(g, node.pulls[g.k].phase)
    ensures Reach(FaultlessOf(env, i, g.k), With(c, i, node, hints), acts, c')
    ensures |acts| == Left(g, node.pulls[g.k].phase) - left
    decreases Left(g, node.pulls[g.k].phase)
  {
    if left == Left(g, node.pulls[g.k].phase) {
      return [], With(c, i, node, hints);
    }
    var a := NeverStuck(env, c, i, g, node, hints);
    WithStep(env, c, i, node, hints, a);
    var node1, hints1 := After(env, i, node, a), hints + Sent(env, i, node, a);
    if a.PullRelease? {
      acts, c' := [a], With(c, i, node1, hints1);
      assert acts[1..] == [];
    } else {
      StepAdvances(env, c, i, g, node, hints, a);
      var rest;
      rest, c' := SomeWay(env, c, i, g, node1, hints1, left);
      acts := [a] + rest;
      assert acts[1..] == rest;
    }
  }

  function EventsOf(i: string, acts: seq<Action>): (es: seq<Event>)
    ensures |es| == |acts|
  {
    if acts == [] then [] else [Event(i, acts[0])] + EventsOf(i, acts[1..])
  }

  lemma {:induction false} FaultlessLeads(env: Env, i: string, k: nat, c: Cluster, acts: seq<Action>, c': Cluster)
    requires Reach(FaultlessOf(env, i, k), c, acts, c')
    ensures Leads(env, c, EventsOf(i, acts), c')
    decreases |acts|
  {
    if acts != [] {
      FaultlessLeads(env, i, k, Protocol.Step(env, c, i, acts[0]), acts[1..], c');
    }
  }

  /** The course of a claimed pull. */
  ghost function CourseOf(c: Cluster, i: string, k: nat, q: nat): Course
    requires i in c.nodes && k in c.nodes[i].pulls
    requires FirstWith(c, c.nodes[i].pulls[k].peers, c.nodes[i].pulls[k].file, q)
  {
    var node := c.nodes[i];
    var file := node.pulls[k].file;
    Course(node, k, Local(node, file), q, c.nodes[node.pulls[k].peers[q]].meta[file])
  }

  /** Total correctness of the fault-free pull. Take any steps of a claimed pull that meet no fault, with any
      order of chunks and workers. They are at most as many as the numbers of peers passed over, of chunks
      missing and of chunks to write add up to; while there are fewer there is another; and when there are
      that many the pull is over, the first listed holder's metadata is stored and its content on disk, or,
      if the roots agreed, nothing has changed. */
  lemma EveryFaultlessPull(env: Env, c: Cluster, i: string, k: nat, q: nat, acts: seq<Action>, c': Cluster)
    requires ClusterInv(env, c) && i in c.nodes && k in c.nodes[i].pulls
    requires c.nodes[i].pulls[k].phase == Claimed && i !in c.nodes[i].pulls[k].peers
    requires FirstWith(c, c.nodes[i].pulls[k].peers, c.nodes[i].pulls[k].file, q)
    requires Reach(FaultlessOf(env, i, k), c, acts, c')
    ensures i in c'.nodes && c'.nodes == c.nodes[i := c'.nodes[i]] && ClusterInv(env, c')
    ensures var g := CourseOf(c, i, k, q);
      var steps := if InSync(g) then q + 4 else q + |Wanted(g)| + |g.remote.chunkHashes| + 8;
      && |acts| <= steps
      && (|acts| < steps ==> k in c'.nodes[i].pulls && exists a :: Faultless(env, c', i, k, a))
      && (|acts| == steps ==> Ends(g, c'.nodes[i]) && (!InSync(g) ==> OnDisk(c'.nodes[i], FileOf(g))))
  {
    var g := CourseOf(c, i, k, q);
    ClaimedOnTrack(env, c, i, k, q);
    assert With(c, i, g.base, c.hints) == c by { assert c.nodes[i := g.base] == c.nodes; }
    var node', hints' := EveryWay(env, c, i, g, g.base, c.hints, acts, c');
    FaultlessLeads(env, i, k, c, acts, c');
    LeadsKeepsInv(env, c, EventsOf(i, acts), c');
    assert NodeInv(env, c'.nodes[i]);
    if |acts| < Left(g, Claimed) {
      var a := NeverStuck(env, c, i, g, node', hints');
    }
  }

  lemma ClaimedOnTrack(env: Env, c: Cluster, i: string, k: nat, q: nat)
    requires ClusterInv(env, c) && i in c.nodes && k in c.nodes[i].pulls
    requires c.nodes[i].pulls[k].phase == Claimed && i !in c.nodes[i].pulls[k].peers
    requires FirstWith(c, c.nodes[i].pulls[k].peers, c.nodes[i].pulls[k].file, q)
    ensures OnTrack(CourseOf(c, i, k, q), c.nodes[i]) && Holder(env, c, i, CourseOf(c, i, k, q))
  {
    var g := CourseOf(c, i, k, q);
    var file, peer := FileOf(g), c.nodes[g.base.pulls[k].peers[q]];
    assert NodeInv(env, g.base) && NodeInv(env, peer);
    assert Stored(env, peer.cas, file, peer.meta[file]);
    if file in g.base.meta {
      assert Stored(env, g.base.cas, file, g.base.meta[file]);
    }
  }
}
