/** internal/orchestrator/sync.go: one pull, from the peer loop to the announcement, as the program runs it.
    Everything outside the node (dials, answers, fetched bytes, clock and disk failures) is a script the pull
    runs against. Every effect of the pull is recorded as an action of the protocol, so that each pull is a
    path of the step system. Workers run one after the other. */
module Engine {
  import opened Base
  import opened Merkle
  import opened Control
  import opened Assembler
  import opened Store
  import opened Scheduler
  import P = Protocol
  import I = Integrity
  import Safety
  import Runs

  /** What asking one peer gives: the connection, the diff answer and the metadata answer. */
  datatype Ask = Ask(dialled: bool, diff: Option<DiffResponse>, meta: Option<FileMeta>)

  datatype Script = Script(
    ask: nat -> Ask,                     // peer number
    answers: seq<Answer>,                // availability answers, in recording order
    worker: (nat, Hash) -> Outside,      // worker number and chunk
    putOk: nat -> bool,                  // worker number
    mkdirOk: bool,                       // the directory could be made
    createOk: bool,                      // and the file
    truncateOk: bool,                    // and the file given its size; otherwise it is left empty
    torn: nat -> Option<nat>,            // a failing write of chunk i: how many bytes reached the disk
    closeOk: bool,
    saveOk: bool)

  datatype Reason =
    | NoCandidates | NoPeerHadFile | Unavailable | ExhaustedPeers | CannotCreate | ChunkMissing | WriteFailed
    | CloseFailed | SaveFailed

  datatype Outcome = InSync | Assembled(remote: FileMeta) | Failed(reason: Reason)

  ghost predicate HonestFetch(env: P.Env, data: Option<Bytes>, h: Hash) {
    data.Some? && env.sha(data.value) == h ==> env.world(data.value)
  }

  /** Peers hand out genuine metadata of the file they are asked for. Their chunk bytes may be wrong. */
  ghost predicate HonestScript(env: P.Env, s: Script, fileId: string) {
    && (forall p: nat | Usable(s.ask(p)) :: s.ask(p).meta.value.fileId == fileId && I.Genuine(env, s.ask(p).meta.value))
    && (forall w: nat, h: Hash, p: nat, a: nat :: HonestFetch(env, s.worker(w, h).fetch(p, a), h))
  }

  /** A peer ends the peer loop if it answers everything and has the file. */
  predicate Usable(a: Ask) {
    a.dialled && a.diff.Some? && a.diff.value.remoteRoot != [] && a.meta.Some?
  }

  /** A peer that answers from its store is usable exactly if the file is in it, and the calls succeed. */
  lemma UsableIff(store: map<string, FileMeta>, fileId: string, localRoot: Bytes, known: seq<Bytes>, dialled: bool,
                  meta: Option<FileMeta>)
    ensures var stored := if fileId in store then Some(store[fileId]) else None;
      Usable(Ask(dialled, Some(DiffAnswer(stored, localRoot, known)), meta)) <==>
      dialled && fileId in store && meta.Some?
  {
  }

  ghost function AfterAsking(a: Ask): P.Phase
    requires Usable(a)
  {
    if a.diff.value.isSynced then P.Returned else P.Planned(a.meta.value, a.diff.value.missing)
  }

  /** The first usable peer among the first n. */
  ghost predicate Chosen(s: Script, n: nat, q: nat) {
    q < n && Usable(s.ask(q)) && forall p | 0 <= p < q :: !Usable(s.ask(p))
  }

  lemma OneChosen(s: Script, n: nat, q: nat)
    requires Chosen(s, n, q)
    ensures forall p | Chosen(s, n, p) :: p == q
  {
  }

  /** The action takes the node from one state to the other and, if peers are honest, learned nothing wrong. */
  ghost function Link(env: P.Env, name: string, honest: bool): (P.Node, P.Action, P.Node) -> bool {
    (before: P.Node, a: P.Action, after: P.Node) =>
      P.Enabled(env, name, before, a) && after == P.After(env, name, before, a) &&
      (honest ==> I.Sincere(env, before, a))
  }

  /** The actions, taken one after the other, lead along the path. */
  ghost predicate Drives<S(!new), A(!new)>(link: (S, A, S) -> bool, path: seq<S>, acts: seq<A>) {
    && |path| == |acts| + 1
    && forall i {:trigger acts[i]} | 0 <= i < |acts| :: link(path[i], acts[i], path[i + 1])
  }

  lemma DrivesNext<S(!new), A(!new)>(link: (S, A, S) -> bool, path: seq<S>, acts: seq<A>, a: A, next: S)
    requires Drives(link, path, acts) && link(path[|path| - 1], a, next)
    ensures Drives(link, path + [next], acts + [a])
  {
    forall i | 0 <= i < |acts| + 1 ensures link((path + [next])[i], (acts + [a])[i], (path + [next])[i + 1]) {
      if i < |acts| {
        assert (acts + [a])[i] == acts[i];
      }
    }
  }

  ghost predicate DrawsOk(s: Script) {
    forall w, h :: Draws(s.worker(w, h))
  }

  /** Worker w's holders all let it through and all send the right bytes. */
  ghost predicate Sound(sha: HashFn, s: Script, w: nat, e: ChunkRarity) {
    && s.putOk(w) && e.peers != []
    && var o := s.worker(w, e.hash);
       && (forall p: nat | p < |e.peers| :: e.peers[p] in o.http && o.available(p))
       && (forall p: nat, a: nat :: o.fetch(p, a).Some? && sha(o.fetch(p, a).value) == e.hash)
  }

  ghost predicate GivesUp(s: Script, w: nat, e: ChunkRarity) {
    forall p | 0 <= p < |e.peers| :: Fails(s.worker(w, e.hash), e.peers, p)
  }

  /** Of the first w workers: none gave up exactly if there are no errors, and the sound ones stored their chunk. */
  ghost predicate Tally(sha: HashFn, s: Script, rarity: seq<ChunkRarity>, w: nat, objects: map<Hash, Bytes>,
                        errors: nat) {
    && errors <= w <= |rarity|
    && (errors == 0 <==> forall j | 0 <= j < w :: !GivesUp(s, j, rarity[j]))
    && (forall j | 0 <= j < w && Sound(sha, s, j, rarity[j]) :: rarity[j].hash in objects)
  }

  lemma TallyNext(sha: HashFn, s: Script, rarity: seq<ChunkRarity>, w: nat,
                  before: map<Hash, Bytes>, after: map<Hash, Bytes>, errors: nat)
    requires Tally(sha, s, rarity, w, before, errors) && w < |rarity| && Extends(before, after)
    requires Sound(sha, s, w, rarity[w]) ==> rarity[w].hash in after
    ensures Tally(sha, s, rarity, w + 1, after, errors + if GivesUp(s, w, rarity[w]) then 1 else 0)
  {
  }

  /** The launching loop. Because the entries are in ascending order of holders, the "unavailable" return
      happens before any worker has started, or not at all. */
  method Launch(rarity: seq<ChunkRarity>) returns (unavailable: bool, started: nat)
    requires Ascending(rarity)
    ensures unavailable <==> exists e | e in rarity :: e.peers == []
    ensures started == if unavailable then 0 else |rarity|
  {
    started := 0;
    for i := 0 to |rarity|
      invariant started == i
      invariant forall j | 0 <= j < i :: |rarity[j].peers| > 0
    {
      assert |rarity[0].peers| <= |rarity[i].peers|;
      if |rarity[i].peers| == 0 {
        assert rarity[i] in rarity;
        return true, started;
      }
      started := started + 1;
    }
    unavailable := false;
  }

  /** Peer q holds the file with metadata m and blobs `source`, is the first usable peer, and every call,
      fetch and write of this pull succeeds with what that peer has. */
  ghost predicate Ideal(sha: HashFn, s: Script, peers: seq<string>, local: Option<FileMeta>, objects: map<Hash, Bytes>,
                        q: nat, m: FileMeta, source: map<Hash, Bytes>) {
    && q < |peers| && (forall p | 0 <= p < q :: !Usable(s.ask(p)))
    && s.ask(q) == Ask(true, Some(DiffAnswer(Some(m), P.LocalRoot(local), P.Known(local))), Some(m))
    && HashChecked(sha, source) && Holds(source, m.chunkHashes) && Holds(objects, P.Known(local))
    && Served(sha, s, Missing(m.chunkHashes, P.Known(local)), peers[q], source)
    && s.saveOk && Writable(s)
  }

  /** Once the peer is chosen nothing can go wrong. */
  ghost predicate Promising(sha: HashFn, s: Script, peers: seq<string>, remote: FileMeta, missing: seq<Hash>,
                            known: seq<Hash>, objects: map<Hash, Bytes>, q: nat, source: map<Hash, Bytes>) {
    && s.saveOk && Writable(s) && missing == Missing(remote.chunkHashes, known) && Holds(objects, known)
    && q < |peers| && Served(sha, s, missing, peers[q], source)
  }

  lemma IdealChoice(sha: HashFn, s: Script, peers: seq<string>, local: Option<FileMeta>, objects: map<Hash, Bytes>,
                    q: nat, m: FileMeta, source: map<Hash, Bytes>, p: nat)
    requires Ideal(sha, s, peers, local, objects, q, m, source) && Chosen(s, |peers|, p)
    ensures p == q && s.ask(p).meta == Some(m)
    ensures s.ask(p).diff.value.isSynced <==> P.LocalRoot(local) == m.merkleRoot
    ensures !s.ask(p).diff.value.isSynced ==>
              Promising(sha, s, peers, m, s.ask(p).diff.value.missing, P.Known(local), objects, q, source)
  {
    assert Usable(s.ask(q));
  }

  /** One worker's fetches: it gives up exactly if all its holders fail, a sound one gets the right bytes, and
      with honest peers right bytes are of this world. */
  method FetchChunk(s: Script, w: nat, e: ChunkRarity, ghost sha: HashFn, ghost env: P.Env, ghost fileId: string)
    returns (data: Option<Bytes>)
    requires DrawsOk(s)
    ensures data.None? <==> GivesUp(s, w, e)
    ensures Sound(sha, s, w, e) ==> data.Some? && sha(data.value) == e.hash
    ensures HonestScript(env, s, fileId) ==> HonestFetch(env, data, e.hash)
  {
    var answer, _, _ := RunWorker(s.worker(w, e.hash), e.peers);
    data := answer;
    SoundSucceeds(sha, s, w, e);
    if data.Some? {
      HonestWorker(env, s, fileId, w, e, data);
    }
  }

  class Engine {
    const cas: CasBlobStore
    const nodeId: string
    var meta: map<string, FileMeta>
    var disk: map<string, Bytes>
    var announced: seq<P.Hint>
    var quieted: seq<string>             // files marked quiet
    var syncing: set<string>             // files with a pull claimed or running

    /** The protocol's picture of this node, the actions it took and the states it went through; and whether
        peers answer honestly, for the results that need it. */
    ghost const env: P.Env
    ghost const honest: bool
    ghost var node: P.Node
    ghost var trace: seq<P.Action>
    ghost var path: seq<P.Node>

    constructor (nodeId: string, cas: CasBlobStore, ghost env: P.Env, ghost honest: bool)
      requires cas.Valid() && env.sha == cas.sha && cas.objects == map[]
      ensures this.cas == cas && this.nodeId == nodeId && this.env == env && this.honest == honest
      ensures Traced() && meta == map[] && disk == map[] && announced == [] && quieted == [] && syncing == {}
      ensures trace == []
      ensures P.EmptyNode(path[0])
    {
      this.nodeId, this.cas, this.env, this.honest := nodeId, cas, env, honest;
      meta, disk, announced, quieted, syncing := map[], map[], [], [], {};
      var blank := P.Node(map[], map[], 0, {}, map[], map[], map[], {});
      node, trace, path := blank, [], [blank];
    }

    /** The fields are what the recorded actions make of them. */
    ghost predicate Traced()
      reads this, cas
    {
      && env.sha == cas.sha
      && node.meta == meta && node.disk == disk && node.cas == cas.objects && node.syncing == syncing
      && Recorded()
    }

    ghost predicate Recorded()
      reads this
    {
      Drives(Link(env, nodeId, honest), path, trace) && path[|path| - 1] == node
    }

    ghost predicate Trusted(s: Script, fileId: string) {
      honest ==> HonestScript(env, s, fileId)
    }

    /** The phase of pull k. */
    ghost function At(k: nat): P.Phase
      requires k in node.pulls
      reads this
    {
      node.pulls[k].phase
    }

    /** The pull of number k is under way. */
    ghost predicate Pulling(k: nat, fileId: string, peers: seq<string>)
      reads this
    {
      k in node.pulls && node.pulls[k].file == fileId && node.pulls[k].peers == peers
    }

    ghost method Do(a: P.Action)
      requires Recorded() && P.Enabled(env, nodeId, node, a) && (honest ==> I.Sincere(env, node, a))
      modifies this`node, this`trace, this`path
      ensures Recorded() && node == P.After(env, nodeId, old(node), a)
      ensures trace == old(trace) + [a] && path == old(path) + [node]
    {
      var next := P.After(env, nodeId, node, a);
      DrivesNext(Link(env, nodeId, honest), path, trace, a, next);
      node, trace, path := next, trace + [a], path + [next];
    }

    // One method per action of a pull, so that callers see only what it does to the node.

    ghost method DoLocal(k: nat)
      requires Recorded() && k in node.pulls && At(k).Claimed?
      modifies this`node, this`trace, this`path
      ensures Recorded() && old(path) <= path
      ensures var pull := old(node).pulls[k];
        node == P.Move(old(node), k,
                       if pull.peers == [] then P.Returned else P.Querying(P.Local(old(node), pull.file), 0))
    {
      Do(P.PullLocal(k));
    }

    ghost method DoSkip(k: nat)
      requires Recorded() && P.Asking(node, k)
      modifies this`node, this`trace, this`path
      ensures Recorded() && old(path) <= path
      ensures node == P.Move(old(node), k, P.Querying(old(At(k)).local, old(At(k)).next + 1))
    {
      Do(P.PullSkip(k));
    }

    ghost method DoDiff(k: nat, synced: bool, missing: seq<Hash>)
      requires Recorded() && P.Asking(node, k)
      modifies this`node, this`trace, this`path
      ensures Recorded() && old(path) <= path
      ensures node == P.Move(old(node), k, P.Diffed(old(At(k)).local, old(At(k)).next, synced, missing))
    {
      Do(P.PullDiff(k, synced, missing));
    }

    ghost method DoMetaFail(k: nat)
      requires Recorded() && k in node.pulls && At(k).Diffed?
      modifies this`node, this`trace, this`path
      ensures Recorded() && old(path) <= path
      ensures node == P.Move(old(node), k, P.Querying(old(At(k)).local, old(At(k)).next + 1))
    {
      Do(P.PullMetaFail(k));
    }

    ghost method DoMeta(k: nat, remote: FileMeta)
      requires Recorded() && k in node.pulls && At(k).Diffed?
      requires honest ==> remote.fileId == node.pulls[k].file && I.Genuine(env, remote)
      modifies this`node, this`trace, this`path
      ensures Recorded() && old(path) <= path
      ensures node == P.Move(old(node), k,
                             if old(At(k)).synced then P.Returned else P.Planned(remote, old(At(k)).missing))
    {
      Do(P.PullMeta(k, remote));
    }

    ghost method DoNoPeer(k: nat)
      requires Recorded() && k in node.pulls && At(k).Querying? && At(k).next >= |node.pulls[k].peers|
      modifies this`node, this`trace, this`path
      ensures Recorded() && old(path) <= path
      ensures node == P.Move(old(node), k, P.Returned)
    {
      Do(P.PullNoPeer(k));
    }

    ghost method DoUnavailable(k: nat)
      requires Recorded() && k in node.pulls && At(k).Planned?
      modifies this`node, this`trace, this`path
      ensures Recorded() && old(path) <= path
      ensures node == P.Move(old(node), k, P.Returned)
    {
      Do(P.PullUnavailable(k));
    }

    ghost method DoStart(k: nat, order: seq<Hash>)
      requires Recorded() && k in node.pulls && At(k).Planned? && multiset(order) == multiset(At(k).missing)
      modifies this`node, this`trace, this`path
      ensures Recorded() && old(path) <= path
      ensures node == P.Move(old(node), k, P.Fetching(old(At(k)).remote, order, seq(|order|, _ => P.Running)))
    {
      Do(P.PullStart(k, order));
    }

    ghost method DoFetched(k: nat, w: nat, data: Bytes, ioOk: bool)
      requires Recorded() && P.AtWork(node, k, w)
      requires honest && env.sha(data) == At(k).missing[w] ==> env.world(data)
      modifies this`node, this`trace, this`path
      ensures Recorded() && old(path) <= path
      ensures node == P.StoreFetched(env, old(node), k, w, data, ioOk)
    {
      Do(P.WorkerDone(k, w, data, ioOk));
    }

    ghost method DoGiveUp(k: nat, w: nat)
      requires Recorded() && P.AtWork(node, k, w)
      modifies this`node, this`trace, this`path
      ensures Recorded() && old(path) <= path
      ensures var phase := old(node).pulls[k].phase;
        node == P.Move(old(node), k, phase.(workers := phase.workers[w := P.Exhausted]))
    {
      Do(P.WorkerGiveUp(k, w));
    }

    ghost method DoExhausted(k: nat)
      requires Recorded() && k in node.pulls && At(k).Fetching? && P.AllDone(At(k).workers)
      requires !P.NoneExhausted(At(k).workers)
      modifies this`node, this`trace, this`path
      ensures Recorded() && old(path) <= path
      ensures node == P.Move(old(node), k, P.Returned)
    {
      Do(P.PullExhausted(k));
    }

    ghost method DoCannotCreate(k: nat)
      requires Recorded() && P.Fetched(node, k)
      modifies this`node, this`trace, this`path
      ensures Recorded() && old(path) <= path
      ensures node == P.Move(old(node), k, P.Returned)
    {
      Do(P.PullCannotCreate(k));
    }

    ghost method DoAssemble(k: nat)
      requires Recorded() && P.Fetched(node, k)
      modifies this`node, this`trace, this`path
      ensures Recorded() && old(path) <= path
      ensures var remote := old(At(k)).remote;
        node == P.Rewrite(old(node), k, Zeros(remote.sizeBytes), P.Assembling(remote, 0, 0, true))
    {
      Do(P.PullAssemble(k));
    }

    ghost method DoWrite(k: nat)
      requires Recorded() && P.CanWrite(node, k)
      modifies this`node, this`trace, this`path
      ensures Recorded() && old(path) <= path
      ensures node == P.WriteNextChunk(old(node), k)
    {
      Do(P.PullWrite(k));
    }

    ghost method DoBroken(k: nat, damage: P.Damage)
      requires Recorded() && P.CanBreak(node, k, damage)
      modifies this`node, this`trace, this`path
      ensures Recorded() && old(path) <= path
      ensures node == P.Rewrite(old(node), k, P.Remains(old(node), k, damage), P.Returned)
    {
      Do(P.PullBroken(k, damage));
    }

    ghost method DoCommit(k: nat)
      requires Recorded() && P.CanCommit(node, k)
      modifies this`node, this`trace, this`path
      ensures Recorded() && old(path) <= path
      ensures node == P.Commit(old(node), k)
    {
      Do(P.PullCommit(k));
    }

    ghost method DoAnnounce(k: nat)
      requires Recorded() && k in node.pulls && At(k).Committed?
      modifies this`node, this`trace, this`path
      ensures Recorded() && old(path) <= path
      ensures node == P.Move(old(node), k, P.Returned)
    {
      Do(P.PullAnnounce(k));
    }

    ghost method DoClaim(fileId: string, k: nat, peers: seq<string>)
      requires Recorded() && fileId != "" && fileId !in node.syncing && k !in node.pulls && nodeId !in peers
      modifies this`node, this`trace, this`path
      ensures Recorded() && old(path) <= path
      ensures var before := old(node);
        node == before.(syncing := before.syncing + {fileId},
                        pulls := before.pulls[k := P.Pull(fileId, peers, P.Claimed)])
    {
      Do(P.ManualSync(fileId, k, peers));
    }

    ghost method DoRelease(k: nat)
      requires Recorded() && k in node.pulls && At(k).Returned?
      modifies this`node, this`trace, this`path
      ensures Recorded() && old(path) <= path && node == P.Release(old(node), k)
    {
      Do(P.PullRelease(k));
    }

    /** The file was made but could not be given its size. */
    ghost method DoEmptied(k: nat)
      requires Recorded() && P.Fetched(node, k)
      modifies this`node, this`trace, this`path
      ensures Recorded() && old(path) <= path && k in node.pulls && At(k).Returned?
      ensures node == P.Rewrite(old(node), k, [], P.Returned)
    {
      DoAssemble(k);
      DoBroken(k, P.Emptied);
      assert node.pulls == old(node).pulls[k := node.pulls[k]];
    }

    /** Only the first bytes of the next chunk were written. */
    ghost method DoTorn(k: nat, written: nat, data: Bytes, offset: nat)
      requires Recorded() && P.CanWrite(node, k) && P.NextChunk(node, k) == data && written <= |data|
      requires At(k).offset == offset
      modifies this`node, this`trace, this`path
      ensures Recorded() && old(path) <= path
      ensures var file := old(node).pulls[k].file;
        node == P.Rewrite(old(node), k, WriteAt(old(node).disk[file], offset, data[..written]), P.Returned)
    {
      DoBroken(k, P.Torn(written));
    }

    ghost function LocalMeta(fileId: string): Option<FileMeta>
      reads this
    {
      P.Local(node, fileId)
    }

    /** The peer loop: the first peer that answers everything and has the file ends it. */
    method AskPeers(s: Script, n: nat, ghost k: nat, ghost fileId: string, ghost peers: seq<string>)
      returns (q: Option<nat>)
      requires Traced() && Pulling(k, fileId, peers) && n == |peers|
      requires node.pulls[k].phase.Querying? && node.pulls[k].phase.next == 0 && Trusted(s, fileId)
      modifies this`node, this`trace, this`path
      ensures Traced() && Pulling(k, fileId, peers) && old(path) <= path
      ensures q.Some? ==> Chosen(s, n, q.value)
      ensures q.Some? ==> node.pulls[k].phase == AfterAsking(s.ask(q.value))
      ensures q.None? ==> (forall p | 0 <= p < n :: !Usable(s.ask(p))) && node.pulls[k].phase.Returned?
    {
      for p := 0 to n
        invariant Traced() && Pulling(k, fileId, peers) && old(path) <= path
        invariant node.pulls[k].phase.Querying? && node.pulls[k].phase.next == p
        invariant forall o | 0 <= o < p :: !Usable(s.ask(o))
      {
        var usable := AskPeer(s, p, k, fileId, peers);
        if usable {
          return Some(p);
        }
      }
      DoNoPeer(k);
      q := None;
    }

    /** One turn of the peer loop. */
    method AskPeer(s: Script, p: nat, ghost k: nat, ghost fileId: string, ghost peers: seq<string>)
      returns (usable: bool)
      requires Traced() && Pulling(k, fileId, peers) && p < |peers| && Trusted(s, fileId)
      requires node.pulls[k].phase.Querying? && node.pulls[k].phase.next == p
      modifies this`node, this`trace, this`path
      ensures Traced() && Pulling(k, fileId, peers) && old(path) <= path
      ensures usable <==> Usable(s.ask(p))
      ensures var phase := node.pulls[k].phase;
        if usable then phase == AfterAsking(s.ask(p)) else phase.Querying? && phase.next == p + 1
    {
      var a := s.ask(p);
      if !a.dialled || a.diff.None? || |a.diff.value.remoteRoot| == 0 {
        DoSkip(k);
        return false;
      }
      DoDiff(k, a.diff.value.isSynced, a.diff.value.missing);
      usable := TakeMeta(a, p, k, fileId, peers);
    }

    /** The peer has the file: fetch its metadata. */
    method TakeMeta(a: Ask, ghost p: nat, ghost k: nat, ghost fileId: string, ghost peers: seq<string>)
      returns (usable: bool)
      requires Traced() && Pulling(k, fileId, peers) && node.pulls[k].phase.Diffed? && node.pulls[k].phase.next == p
      requires a.diff.Some?
      requires honest && a.meta.Some? ==> a.meta.value.fileId == fileId && I.Genuine(env, a.meta.value)
      requires node.pulls[k].phase.synced == a.diff.value.isSynced
      requires node.pulls[k].phase.missing == a.diff.value.missing
      modifies this`node, this`trace, this`path
      ensures Traced() && Pulling(k, fileId, peers) && old(path) <= path
      ensures usable <==> a.meta.Some?
      ensures if usable then
          node.pulls[k].phase ==
            if a.diff.value.isSynced then P.Returned else P.Planned(a.meta.value, a.diff.value.missing)
        else node.pulls[k].phase.Querying? && node.pulls[k].phase.next == p + 1
    {
      if a.meta.None? {
        DoMetaFail(k);
        return false;
      }
      DoMeta(k, a.meta.value);
      usable := true;
    }

    /** Start one worker per entry, then wait for all. Every worker sends at most one error, so the channel
        (one slot per entry) never blocks. */
    method RunWorkers(s: Script, rarity: seq<ChunkRarity>, ghost k: nat, ghost fileId: string, ghost peers: seq<string>)
      returns (unavailable: bool, started: nat, errors: nat)
      requires Traced() && Pulling(k, fileId, peers) && cas.Valid() && DrawsOk(s) && Trusted(s, fileId)
      requires Ascending(rarity)
      requires node.pulls[k].phase.Planned? && multiset(HashesOf(rarity)) == multiset(node.pulls[k].phase.missing)
      modifies cas, this`node, this`trace, this`path
      ensures Traced() && Pulling(k, fileId, peers) && old(path) <= path
      ensures cas.Valid() && Extends(old(cas.objects), cas.objects)
      ensures unavailable <==> exists e | e in rarity :: e.peers == []
      ensures unavailable ==> started == 0 && cas.objects == old(cas.objects) && node.pulls[k].phase.Returned?
      ensures !unavailable ==>
        && started == |rarity| && Tally(cas.sha, s, rarity, |rarity|, cas.objects, errors)
        && (errors > 0 ==> node.pulls[k].phase.Returned?)
        && (errors == 0 ==> P.Fetched(node, k) && node.pulls[k].phase.remote == old(node.pulls[k].phase.remote))
    {
      errors := 0;
      unavailable, started := Launch(rarity);
      if unavailable {
        DoUnavailable(k);
        return;
      }
      errors := Work(s, rarity, k, fileId, peers);
    }

    /** The workers at work, and the check of the error channel. */
    method Work(s: Script, rarity: seq<ChunkRarity>, ghost k: nat, ghost fileId: string, ghost peers: seq<string>)
      returns (errors: nat)
      requires Traced() && Pulling(k, fileId, peers) && cas.Valid() && DrawsOk(s) && Trusted(s, fileId)
      requires node.pulls[k].phase.Planned? && multiset(HashesOf(rarity)) == multiset(node.pulls[k].phase.missing)
      modifies cas, this`node, this`trace, this`path
      ensures Traced() && Pulling(k, fileId, peers) && old(path) <= path
      ensures cas.Valid() && Extends(old(cas.objects), cas.objects)
      ensures Tally(cas.sha, s, rarity, |rarity|, cas.objects, errors)
      ensures errors > 0 ==> node.pulls[k].phase.Returned?
      ensures errors == 0 ==> P.Fetched(node, k) && node.pulls[k].phase.remote == old(node.pulls[k].phase.remote)
    {
      ghost var remote := node.pulls[k].phase.remote;
      StartWorkers(rarity, k, fileId, peers);
      errors := RunAll(s, rarity, remote, k, fileId, peers);
      WorkingEnd(node.pulls[k].phase, remote, rarity, errors);
      if errors > 0 {
        DoExhausted(k);
      }
    }

    ghost method StartWorkers(rarity: seq<ChunkRarity>, k: nat, fileId: string, peers: seq<string>)
      requires Traced() && Pulling(k, fileId, peers)
      requires node.pulls[k].phase.Planned? && multiset(HashesOf(rarity)) == multiset(node.pulls[k].phase.missing)
      modifies this`node, this`trace, this`path
      ensures Traced() && Pulling(k, fileId, peers) && old(path) <= path
      ensures Working(node.pulls[k].phase, old(node.pulls[k].phase.remote), rarity, 0, 0)
    {
      ghost var remote := node.pulls[k].phase.remote;
      DoStart(k, HashesOf(rarity));
      WorkingStart(node.pulls[k].phase, remote, rarity);
    }

    method RunAll(s: Script, rarity: seq<ChunkRarity>, ghost remote: FileMeta,
                  ghost k: nat, ghost fileId: string, ghost peers: seq<string>)
      returns (errors: nat)
      requires Traced() && Pulling(k, fileId, peers) && cas.Valid() && DrawsOk(s) && Trusted(s, fileId)
      requires Working(node.pulls[k].phase, remote, rarity, 0, 0)
      modifies cas, this`node, this`trace, this`path
      ensures Traced() && Pulling(k, fileId, peers) && old(path) <= path && cas.Valid()
      ensures Working(node.pulls[k].phase, remote, rarity, |rarity|, errors)
      ensures Extends(old(cas.objects), cas.objects)
      ensures Tally(cas.sha, s, rarity, |rarity|, cas.objects, errors)
    {
      errors := 0;
      for w := 0 to |rarity|
        invariant Traced() && Pulling(k, fileId, peers) && old(path) <= path && cas.Valid()
        invariant Working(node.pulls[k].phase, remote, rarity, w, errors)
        invariant Extends(old(cas.objects), cas.objects)
        invariant Tally(cas.sha, s, rarity, w, cas.objects, errors)
      {
        ghost var objects, before := cas.objects, errors;
        errors := RunOne(s, rarity, w, errors, remote, k, fileId, peers);
        TallyNext(cas.sha, s, rarity, w, objects, cas.objects, before);
      }
    }

    /** One worker: at most one put, whose error is dropped, or one error. */
    method RunOne(s: Script, rarity: seq<ChunkRarity>, w: nat, before: nat, ghost remote: FileMeta,
                  ghost k: nat, ghost fileId: string, ghost peers: seq<string>)
      returns (errors: nat)
      requires Traced() && Pulling(k, fileId, peers) && cas.Valid() && DrawsOk(s) && Trusted(s, fileId) && w < |rarity|
      requires Working(node.pulls[k].phase, remote, rarity, w, before)
      modifies cas, this`node, this`trace, this`path
      ensures Traced() && Pulling(k, fileId, peers) && old(path) <= path && cas.Valid()
      ensures Working(node.pulls[k].phase, remote, rarity, w + 1, errors)
      ensures Extends(old(cas.objects), cas.objects)
      ensures errors == before + if GivesUp(s, w, rarity[w]) then 1 else 0
      ensures Sound(cas.sha, s, w, rarity[w]) ==> rarity[w].hash in cas.objects
    {
      var e := rarity[w];
      var data := FetchChunk(s, w, e, cas.sha, env, fileId);
      HashAt(rarity, w);
      WorkingNext(node.pulls[k].phase, remote, rarity, w, before, if data.Some? then P.Finished else P.Exhausted);
      if data.Some? {
        StoreChunk(e.hash, data.value, s.putOk(w), k, w);
        errors := before;
      } else {
        DoGiveUp(k, w);
        errors := before + 1;
      }
    }

    /** The error of the store is dropped. */
    method StoreChunk(h: Hash, data: Bytes, ioOk: bool, ghost k: nat, ghost w: nat)
      requires Traced() && cas.Valid() && P.AtWork(node, k, w) && At(k).missing[w] == h
      requires honest && cas.sha(data) == h ==> env.world(data)
      modifies cas, this`node, this`trace, this`path
      ensures Traced() && cas.Valid() && old(path) <= path && Extends(old(cas.objects), cas.objects)
      ensures node == P.StoreFetched(env, old(node), k, w, data, ioOk)
      ensures ioOk && cas.sha(data) == h ==> h in cas.objects
    {
      var _ := cas.Put(h, data, ioOk);
      DoFetched(k, w, data, ioOk);
    }

    /** The first i chunks are in place. */
    ghost predicate Writing(sparse: SparseFile, i: nat, offset: nat, remote: FileMeta, k: nat, fileId: string,
                            peers: seq<string>)
      reads this, cas, sparse
    {
      && sparse.Valid() && Partial(sparse.View(), cas.objects, remote.chunkHashes, remote.sizeBytes, i, offset)
      && fileId in disk && disk[fileId] == sparse.file
      && Traced() && Pulling(k, fileId, peers) && node.pulls[k].phase == P.Assembling(remote, i, offset, true)
    }

    /** Write the blobs one after the other at running offsets. */
    method AssembleFile(s: Script, fileId: string, remote: FileMeta, ghost k: nat, ghost peers: seq<string>)
      returns (failure: Option<Reason>)
      requires Traced() && Pulling(k, fileId, peers) && cas.Valid()
      requires P.Fetched(node, k) && node.pulls[k].phase.remote == remote
      modifies this`disk, this`node, this`trace, this`path
      ensures Traced() && Pulling(k, fileId, peers) && old(path) <= path
      ensures failure.Some? ==>
        && failure.value in {CannotCreate, ChunkMissing, WriteFailed, CloseFailed} && node.pulls[k].phase.Returned?
        && Blamed(s, failure.value, remote, cas.objects)
      ensures failure.None? ==> s.truncateOk && s.closeOk
      ensures failure.None? ==>
        && Stored(fileId, remote) && P.CanCommit(node, k) && node.pulls[k].phase.remote == remote
      ensures OnlyFile(old(disk), disk, fileId)
      ensures Writable(s) && Holds(cas.objects, remote.chunkHashes) ==> failure.None?
    {
      var created := CreateFile(s, fileId, remote, k, peers);
      if created.None? {
        return Some(CannotCreate);
      }
      failure := FillFile(s, created.value, remote, fileId, k, peers);
    }

    method FillFile(s: Script, sparse: SparseFile, remote: FileMeta, fileId: string, ghost k: nat,
                    ghost peers: seq<string>)
      returns (failure: Option<Reason>)
      requires cas.Valid() && Writing(sparse, 0, 0, remote, k, fileId, peers)
      modifies this`disk, this`node, this`trace, this`path, sparse
      ensures Traced() && Pulling(k, fileId, peers) && old(path) <= path && OnlyFile(old(disk), disk, fileId)
      ensures failure.Some? ==>
        && failure.value in {ChunkMissing, WriteFailed, CloseFailed} && node.pulls[k].phase.Returned?
        && Blamed(s, failure.value, remote, cas.objects)
      ensures failure.None? ==>
        s.closeOk && Stored(fileId, remote) && P.CanCommit(node, k) && node.pulls[k].phase.remote == remote
      ensures Writable(s) && Holds(cas.objects, remote.chunkHashes) ==> failure.None?
    {
      failure := WriteAll(s, sparse, remote, fileId, k, peers);
      if failure.Some? {
        return;
      }
      failure := CloseFile(s, sparse, remote, fileId, k, peers);
    }

    method CloseFile(s: Script, sparse: SparseFile, ghost remote: FileMeta, ghost fileId: string, ghost k: nat,
                     ghost peers: seq<string>)
      returns (failure: Option<Reason>)
      requires exists offset :: Writing(sparse, |remote.chunkHashes|, offset, remote, k, fileId, peers)
      modifies this`node, this`trace, this`path
      ensures Traced() && Pulling(k, fileId, peers) && old(path) <= path
      ensures failure == if s.closeOk then None else Some(CloseFailed)
      ensures failure.Some? ==> node.pulls[k].phase.Returned?
      ensures failure.None? ==> Stored(fileId, remote) && P.CanCommit(node, k) && node.pulls[k].phase.remote == remote
    {
      assert remote.chunkHashes[..|remote.chunkHashes|] == remote.chunkHashes;
      if !s.closeOk {
        DoBroken(k, P.Kept);
        return Some(CloseFailed);
      }
      failure := None;
    }

    /** Make the directory, mark the file quiet, make the file. */
    method PrepareFile(s: Script, fileId: string, ghost k: nat, ghost peers: seq<string>) returns (ready: bool)
      requires Traced() && Pulling(k, fileId, peers) && P.Fetched(node, k)
      modifies this`quieted, this`node, this`trace, this`path
      ensures Traced() && Pulling(k, fileId, peers) && old(path) <= path
      ensures ready <==> s.mkdirOk && s.createOk
      ensures quieted == if s.mkdirOk then old(quieted) + [fileId] else old(quieted)
      ensures if ready then node == old(node) else node.pulls[k].phase.Returned?
    {
      if !s.mkdirOk {
        DoCannotCreate(k);
        return false;
      }
      quieted := quieted + [fileId];
      if !s.createOk {
        DoCannotCreate(k);
        return false;
      }
      ready := true;
    }

    method CreateFile(s: Script, fileId: string, remote: FileMeta, ghost k: nat, ghost peers: seq<string>)
      returns (created: Option<SparseFile>)
      requires Traced() && Pulling(k, fileId, peers) && P.Fetched(node, k) && node.pulls[k].phase.remote == remote
      modifies this`disk, this`node, this`trace, this`path
      ensures created.Some? <==> s.truncateOk
      ensures created.Some? ==> fresh(created.value) && Writing(created.value, 0, 0, remote, k, fileId, peers)
      ensures created.None? ==> Traced() && Pulling(k, fileId, peers) && node.pulls[k].phase.Returned?
      ensures old(path) <= path && OnlyFile(old(disk), disk, fileId)
    {
      if !s.truncateOk {
        disk := disk[fileId := []];
        DoEmptied(k);
        return None;
      }
      DoAssemble(k);
      var sparse := new SparseFile(remote.sizeBytes, |remote.chunkHashes|);
      disk := disk[fileId := sparse.file];
      PartialStart(cas.objects, remote.chunkHashes, remote.sizeBytes);
      created := Some(sparse);
    }

    method WriteAll(s: Script, sparse: SparseFile, remote: FileMeta, fileId: string, ghost k: nat,
                    ghost peers: seq<string>)
      returns (failure: Option<Reason>)
      requires cas.Valid() && Writing(sparse, 0, 0, remote, k, fileId, peers)
      modifies this`disk, this`node, this`trace, this`path, sparse
      ensures old(path) <= path && OnlyFile(old(disk), disk, fileId)
      ensures failure.None? ==> exists offset :: Writing(sparse, |remote.chunkHashes|, offset, remote, k, fileId, peers)
      ensures failure.Some? ==>
        && failure.value in {ChunkMissing, WriteFailed}
        && Traced() && Pulling(k, fileId, peers) && node.pulls[k].phase.Returned?
        && Blamed(s, failure.value, remote, cas.objects)
      ensures Writable(s) && Holds(cas.objects, remote.chunkHashes) ==> failure.None?
    {
      var currentOffset := 0;
      for i := 0 to |remote.chunkHashes|
        invariant Writing(sparse, i, currentOffset, remote, k, fileId, peers)
        invariant old(path) <= path && OnlyFile(old(disk), disk, fileId)
      {
        failure, currentOffset := WriteOne(s, sparse, i, currentOffset, remote, fileId, k, peers);
        if failure.Some? {
          assert remote.chunkHashes[i] in remote.chunkHashes;
          return;
        }
      }
      failure := None;
    }

    /** One turn of the assembly loop: read the blob back from the store and write it at the offset. */
    method WriteOne(s: Script, sparse: SparseFile, i: nat, offset: nat, remote: FileMeta, fileId: string,
                    ghost k: nat, ghost peers: seq<string>)
      returns (failure: Option<Reason>, next: nat)
      requires cas.Valid() && i < |remote.chunkHashes| && Writing(sparse, i, offset, remote, k, fileId, peers)
      modifies this`disk, this`node, this`trace, this`path, sparse
      ensures old(path) <= path && OnlyFile(old(disk), disk, fileId)
      ensures failure.None? ==> Writing(sparse, i + 1, next, remote, k, fileId, peers)
      ensures failure.Some? ==>
        && failure.value in {ChunkMissing, WriteFailed}
        && Traced() && Pulling(k, fileId, peers) && node.pulls[k].phase.Returned?
      ensures remote.chunkHashes[i] in cas.objects && s.torn(i).None? ==> failure.None?
      ensures failure == Some(ChunkMissing) ==> remote.chunkHashes[i] !in cas.objects
      ensures failure == Some(WriteFailed) ==> s.torn(i).Some?
    {
      next := offset;
      var data := cas.Get(remote.chunkHashes[i]);
      if data.None? {
        DoBroken(k, P.Kept);
        return Some(ChunkMissing), next;
      }
      var ok := WriteBlob(s, sparse, i, offset, data.value, remote, fileId, k, peers);
      if !ok {
        return Some(WriteFailed), next;
      }
      failure, next := None, offset + |data.value|;
    }

    method WriteBlob(s: Script, sparse: SparseFile, i: nat, offset: nat, data: Bytes, ghost remote: FileMeta,
                     fileId: string, ghost k: nat, ghost peers: seq<string>)
      returns (ok: bool)
      requires i < |remote.chunkHashes| && Writing(sparse, i, offset, remote, k, fileId, peers)
      requires remote.chunkHashes[i] in cas.objects && cas.objects[remote.chunkHashes[i]] == data
      modifies this`disk, this`node, this`trace, this`path, sparse
      ensures old(path) <= path && OnlyFile(old(disk), disk, fileId)
      ensures ok ==> Writing(sparse, i + 1, offset + |data|, remote, k, fileId, peers)
      ensures !ok ==> Traced() && Pulling(k, fileId, peers) && node.pulls[k].phase.Returned?
      ensures s.torn(i).None? ==> ok
    {
      PartialNext(sparse.View(), cas.objects, remote.chunkHashes, remote.sizeBytes, i, offset, s.torn(i));
      var written := if s.torn(i).None? then |data| else s.torn(i).value;
      ok := sparse.WriteChunk(i, offset, data, written);
      disk := disk[fileId := sparse.file];
      if ok {
        DoWrite(k);
      } else {
        DoTorn(k, written, data, offset);
      }
    }

    ghost predicate FaultFree(fileId: string, peers: seq<string>, s: Script, q: nat, m: FileMeta,
                              source: map<Hash, Bytes>)
      reads this, cas
    {
      Ideal(cas.sha, s, peers, LocalMeta(fileId), cas.objects, q, m, source)
    }

    /** One pull. On success after assembly the file is the concatenation of the verified blobs named by the
        metadata (zero-filled to the announced size), that metadata is stored, and it is announced once.
        In sync, nothing changes. Every error stores no metadata and announces nothing. Whatever happens,
        blobs are only added, each under its own hash, other files are left alone, the file is touched only
        after it was marked quiet, once, and the pull is a path of protocol actions from claimed to returned.

        `q`, `m` and `source` describe a peer for the last clause: when that peer is the first usable one,
        answers from its own state and meets no fault, the pull ends with its metadata and content. */
    method Pull(fileId: string, peers: seq<string>, s: Script,
                ghost k: nat, ghost q: nat, ghost m: FileMeta, ghost source: map<Hash, Bytes>)
      returns (outcome: Outcome)
      requires cas.Valid() && DrawsOk(s) && Trusted(s, fileId)
      requires Traced() && Pulling(k, fileId, peers) && node.pulls[k].phase.Claimed?
      modifies this, cas
      ensures Traced() && Pulling(k, fileId, peers) && node.pulls[k].phase.Returned? && old(path) <= path
      ensures syncing == old(syncing)
      ensures cas.Valid() && Extends(old(cas.objects), cas.objects)
      ensures OnlyFile(old(disk), disk, fileId)
      ensures quieted == old(quieted) + [fileId] ||
        (!outcome.Assembled? && quieted == old(quieted) && disk == old(disk))
      ensures outcome.Failed? ==> meta == old(meta) && announced == old(announced)
      ensures outcome.Failed? && outcome.reason in {NoCandidates, NoPeerHadFile, Unavailable} ==>
        disk == old(disk) && cas.objects == old(cas.objects)
      ensures outcome.InSync? ==>
        && meta == old(meta) && announced == old(announced) && disk == old(disk) && cas.objects == old(cas.objects)
        && exists p :: Chosen(s, |peers|, p) && s.ask(p).diff.value.isSynced
      ensures Explained(s, |peers|, outcome, cas.objects)
      ensures outcome.Assembled? ==>
        && (exists p :: Chosen(s, |peers|, p) && s.ask(p).meta == Some(outcome.remote) && !s.ask(p).diff.value.isSynced)
        && Stored(fileId, outcome.remote) && meta == old(meta)[outcome.remote.fileId := outcome.remote]
        && announced == old(announced) +
             [P.Announced(outcome.remote.fileId, outcome.remote.merkleRoot, outcome.remote.lamportTs, nodeId)]
      ensures old(FaultFree(fileId, peers, s, q, m, source)) ==>
        outcome == if P.LocalRoot(old(LocalMeta(fileId))) == m.merkleRoot then InSync else Assembled(m)
    {
      ghost var fine, local := FaultFree(fileId, peers, s, q, m, source), LocalMeta(fileId);
      var chosen := Choose(s, fileId, peers, k);
      if chosen.None? {
        return Failed(if |peers| == 0 then NoCandidates else NoPeerHadFile);
      }
      if fine {
        IdealChoice(cas.sha, s, peers, local, cas.objects, q, m, source, chosen.value);
      }
      var diff, remote := s.ask(chosen.value).diff.value, s.ask(chosen.value).meta.value;
      if diff.isSynced {
        return InSync;
      }
      outcome := Transfer(s, fileId, remote, diff.missing, k, peers, q, P.Known(local), source);
    }

    /** Look up the own metadata and ask the peers. */
    method Choose(s: Script, ghost fileId: string, peers: seq<string>, ghost k: nat) returns (chosen: Option<nat>)
      requires Traced() && Pulling(k, fileId, peers) && node.pulls[k].phase.Claimed? && Trusted(s, fileId)
      modifies this`node, this`trace, this`path
      ensures Traced() && Pulling(k, fileId, peers) && old(path) <= path
      ensures chosen.Some? ==> Chosen(s, |peers|, chosen.value)
      ensures chosen.Some? ==> node.pulls[k].phase == AfterAsking(s.ask(chosen.value))
      ensures chosen.None? ==> (forall p | 0 <= p < |peers| :: !Usable(s.ask(p))) && node.pulls[k].phase.Returned?
    {
      DoLocal(k);
      if |peers| == 0 {
        return None;
      }
      chosen := AskPeers(s, |peers|, k, fileId, peers);
    }

    /** Claim the file, pull it, release it. A file that is already being pulled is left to that pull. Together with
        the constructor this is how an engine comes to run pulls: what it needs it also leaves behind. */
    method Sync(fileId: string, peers: seq<string>, s: Script, ghost q: nat, ghost m: FileMeta,
                ghost source: map<Hash, Bytes>)
      returns (outcome: Option<Outcome>)
      requires cas.Valid() && Traced() && DrawsOk(s) && Trusted(s, fileId) && fileId != "" && nodeId !in peers
      modifies this, cas
      ensures cas.Valid() && Traced() && old(path) <= path && syncing == old(syncing)
      ensures Extends(old(cas.objects), cas.objects) && OnlyFile(old(disk), disk, fileId)
      ensures outcome.None? <==> fileId in old(syncing)
      ensures outcome.Some? ==> Explained(s, |peers|, outcome.value, cas.objects)
      ensures outcome.None? || outcome.value.InSync? || outcome.value.Failed? ==>
        meta == old(meta) && announced == old(announced)
      ensures outcome.Some? && outcome.value.Assembled? ==>
        var remote := outcome.value.remote;
        && Stored(fileId, remote) && meta == old(meta)[remote.fileId := remote]
        && announced == old(announced) + [P.Announced(remote.fileId, remote.merkleRoot, remote.lamportTs, nodeId)]
      ensures outcome.Some? && old(FaultFree(fileId, peers, s, q, m, source)) ==>
        outcome.value == if P.LocalRoot(old(LocalMeta(fileId))) == m.merkleRoot then InSync else Assembled(m)
    {
      if fileId in syncing {
        return None;
      }
      ghost var k := Runs.FreshId(node.pulls.Keys);
      Claim(fileId, peers, k);
      var result := Pull(fileId, peers, s, k, q, m, source);
      Release(fileId, peers, k);
      outcome := Some(result);
    }

    method Claim(fileId: string, ghost peers: seq<string>, ghost k: nat)
      requires Traced() && fileId != "" && fileId !in syncing && k !in node.pulls && nodeId !in peers
      modifies this`syncing, this`node, this`trace, this`path
      ensures Traced() && Pulling(k, fileId, peers) && node.pulls[k].phase.Claimed? && old(path) <= path
      ensures syncing == old(syncing) + {fileId}
    {
      syncing := syncing + {fileId};
      DoClaim(fileId, k, peers);
    }

    method Release(fileId: string, ghost peers: seq<string>, ghost k: nat)
      requires Traced() && Pulling(k, fileId, peers) && node.pulls[k].phase.Returned?
      modifies this`syncing, this`node, this`trace, this`path
      ensures Traced() && old(path) <= path && syncing == old(syncing) - {fileId}
    {
      syncing := syncing - {fileId};
      DoRelease(k);
    }

    /** The rest of a pull, once a peer has been chosen. */
    method Transfer(s: Script, fileId: string, remote: FileMeta, missing: seq<Hash>, ghost k: nat,
                    ghost peers: seq<string>, ghost q: nat, ghost known: seq<Hash>, ghost source: map<Hash, Bytes>)
      returns (outcome: Outcome)
      requires cas.Valid() && DrawsOk(s) && Trusted(s, fileId)
      requires Traced() && Pulling(k, fileId, peers) && node.pulls[k].phase == P.Planned(remote, missing)
      modifies this, cas
      ensures Traced() && Pulling(k, fileId, peers) && node.pulls[k].phase.Returned? && old(path) <= path
      ensures syncing == old(syncing)
      ensures cas.Valid() && Extends(old(cas.objects), cas.objects) && OnlyFile(old(disk), disk, fileId)
      ensures quieted == old(quieted) + [fileId] || (outcome.Failed? && quieted == old(quieted) && disk == old(disk))
      ensures outcome == Assembled(remote) || (outcome.Failed? && outcome.reason !in {NoCandidates, NoPeerHadFile})
      ensures outcome.Failed? ==> meta == old(meta) && announced == old(announced)
      ensures outcome == Failed(Unavailable) ==> disk == old(disk) && cas.objects == old(cas.objects)
      ensures Ended(s, outcome, remote, missing, cas.objects)
      ensures outcome.Assembled? ==> Stored(fileId, remote) && meta == old(meta)[remote.fileId := remote]
      ensures outcome.Assembled? ==>
        announced == old(announced) + [P.Announced(remote.fileId, remote.merkleRoot, remote.lamportTs, nodeId)]
      ensures Promising(cas.sha, s, peers, remote, missing, known, old(cas.objects), q, source) ==> outcome.Assembled?
    {
      var failure := FetchChunks(s, missing, k, fileId, peers, q, source);
      if failure.Some? {
        return Failed(failure.value);
      }
      if Holds(cas.objects, known) && missing == Missing(remote.chunkHashes, known) && Holds(cas.objects, missing) {
        AllChunksHeld(remote.chunkHashes, known, cas.objects);
      }
      outcome := StoreFile(s, fileId, remote, k, peers);
    }

    /** The file is the concatenation of the verified blobs the metadata names, zero-filled to its size. */
    ghost predicate Stored(fileId: string, remote: FileMeta)
      reads this, cas
    {
      && Holds(cas.objects, remote.chunkHashes) && fileId in disk
      && disk[fileId] == Image(Blobs(cas.objects, remote.chunkHashes), remote.sizeBytes)
    }

    /** The scheduling half of a pull: rarity map and workers. */
    method FetchChunks(s: Script, missing: seq<Hash>, ghost k: nat, ghost fileId: string, ghost peers: seq<string>,
                       ghost q: nat, ghost source: map<Hash, Bytes>)
      returns (failure: Option<Reason>)
      requires Traced() && Pulling(k, fileId, peers) && cas.Valid() && DrawsOk(s) && Trusted(s, fileId)
      requires node.pulls[k].phase.Planned? && node.pulls[k].phase.missing == missing
      modifies cas, this`node, this`trace, this`path
      ensures Traced() && Pulling(k, fileId, peers) && old(path) <= path
      ensures cas.Valid() && Extends(old(cas.objects), cas.objects)
      ensures failure.Some? ==> failure.value in {Unavailable, ExhaustedPeers} && node.pulls[k].phase.Returned?
      ensures failure == Some(Unavailable) ==> cas.objects == old(cas.objects)
      ensures failure == Some(Unavailable) <==> NobodyHas(s, missing)
      ensures failure == Some(ExhaustedPeers) ==> SomeoneGaveUp(s, missing)
      ensures failure.None? ==> P.Fetched(node, k) && node.pulls[k].phase.remote == old(node.pulls[k].phase.remote)
      ensures q < |peers| && Served(cas.sha, s, missing, peers[q], source) ==>
        failure.None? && Holds(cas.objects, missing)
    {
      var rarity := BuildRarityMap(missing, s.answers);
      RarityHashes(missing, s.answers, rarity);
      ghost var served := q < |peers| && Served(cas.sha, s, missing, peers[q], source);
      if served {
        RarityIsSound(cas.sha, s, missing, peers[q], source, rarity);
      }
      UnlistedIff(s, missing, rarity);
      var unavailable, _, errors := RunWorkers(s, rarity, k, fileId, peers);
      if unavailable {
        return Some(Unavailable);
      }
      if errors > 0 {
        GaveUp(s, missing, rarity, cas.sha, cas.objects, errors);
        return Some(ExhaustedPeers);
      }
      if served {
        RarityCovers(s.answers, missing, rarity, cas.objects);
      }
      failure := None;
    }

    /** The storing half of a pull: assembly, metadata, announcement. */
    method StoreFile(s: Script, fileId: string, remote: FileMeta, ghost k: nat, ghost peers: seq<string>)
      returns (outcome: Outcome)
      requires Traced() && Pulling(k, fileId, peers) && cas.Valid()
      requires P.Fetched(node, k) && node.pulls[k].phase.remote == remote
      modifies this
      ensures Traced() && Pulling(k, fileId, peers) && node.pulls[k].phase.Returned? && old(path) <= path
      ensures syncing == old(syncing)
      ensures OnlyFile(old(disk), disk, fileId)
      ensures quieted == old(quieted) + [fileId] || (outcome.Failed? && quieted == old(quieted) && disk == old(disk))
      ensures outcome == Assembled(remote) ||
        (outcome.Failed? && Blamed(s, outcome.reason, remote, cas.objects))
      ensures outcome.Assembled? ==> s.mkdirOk && s.createOk && s.truncateOk && s.closeOk && s.saveOk
      ensures outcome.Failed? ==> meta == old(meta) && announced == old(announced)
      ensures outcome.Assembled? ==>
        && Stored(fileId, remote) && meta == old(meta)[remote.fileId := remote]
        && announced == old(announced) + [P.Announced(remote.fileId, remote.merkleRoot, remote.lamportTs, nodeId)]
      ensures s.saveOk && Writable(s) && Holds(cas.objects, remote.chunkHashes) ==> outcome.Assembled?
    {
      var failure := MakeFile(s, fileId, remote, k, peers);
      if failure.Some? {
        return Failed(failure.value);
      }
      outcome := SaveMeta(s, fileId, remote, k, peers);
    }

    method MakeFile(s: Script, fileId: string, remote: FileMeta, ghost k: nat, ghost peers: seq<string>)
      returns (failure: Option<Reason>)
      requires Traced() && Pulling(k, fileId, peers) && cas.Valid()
      requires P.Fetched(node, k) && node.pulls[k].phase.remote == remote
      modifies this`disk, this`quieted, this`node, this`trace, this`path
      ensures Traced() && Pulling(k, fileId, peers) && old(path) <= path && OnlyFile(old(disk), disk, fileId)
      ensures quieted == old(quieted) + [fileId] || (failure.Some? && quieted == old(quieted) && disk == old(disk))
      ensures failure.Some? ==> Blamed(s, failure.value, remote, cas.objects) && node.pulls[k].phase.Returned?
      ensures failure.None? ==> s.mkdirOk && s.createOk && s.truncateOk && s.closeOk
      ensures failure.None? ==> Stored(fileId, remote) && P.CanCommit(node, k) && node.pulls[k].phase.remote == remote
      ensures Writable(s) && Holds(cas.objects, remote.chunkHashes) ==> failure.None?
    {
      var ready := PrepareFile(s, fileId, k, peers);
      if !ready {
        return Some(CannotCreate);
      }
      failure := AssembleFile(s, fileId, remote, k, peers);
    }

    /** Store the metadata as it came and announce it. */
    method SaveMeta(s: Script, fileId: string, remote: FileMeta, ghost k: nat, ghost peers: seq<string>)
      returns (outcome: Outcome)
      requires Traced() && Pulling(k, fileId, peers) && P.CanCommit(node, k) && node.pulls[k].phase.remote == remote
      requires fileId in disk
      modifies this`meta, this`announced, this`node, this`trace, this`path
      ensures Traced() && Pulling(k, fileId, peers) && node.pulls[k].phase.Returned? && old(path) <= path
      ensures outcome == if s.saveOk then Assembled(remote) else Failed(SaveFailed)
      ensures !s.saveOk ==> meta == old(meta) && announced == old(announced)
      ensures s.saveOk ==>
        && meta == old(meta)[remote.fileId := remote]
        && announced == old(announced) + [P.Announced(remote.fileId, remote.merkleRoot, remote.lamportTs, nodeId)]
    {
      if !s.saveOk {
        DoBroken(k, P.Kept);
        return Failed(SaveFailed);
      }
      meta := meta[remote.fileId := remote];
      DoCommit(k);
      announced := announced + [P.Announced(remote.fileId, remote.merkleRoot, remote.lamportTs, nodeId)];
      DoAnnounce(k);
      outcome := Assembled(remote);
    }
  }

  /** The file can be made and every write reaches the disk whole. */
  ghost predicate Writable(s: Script) {
    s.mkdirOk && s.createOk && s.truncateOk && s.closeOk && Untorn(s)
  }

  ghost predicate Untorn(s: Script) {
    forall i: nat :: s.torn(i).None?
  }

  /** What went wrong on the node itself, for each way of failing after the transfer. */
  ghost predicate Blamed(s: Script, reason: Reason, remote: FileMeta, objects: map<Hash, Bytes>) {
    match reason
    case CannotCreate => !(s.mkdirOk && s.createOk && s.truncateOk)
    case ChunkMissing => !Holds(objects, remote.chunkHashes)
    case WriteFailed => !Untorn(s)
    case CloseFailed => !s.closeOk
    case SaveFailed => !s.saveOk
    case _ => false
  }

  /** Some chunk is in no availability answer. */
  ghost predicate NobodyHas(s: Script, missing: seq<Hash>) {
    exists h | h in missing :: Unlisted(s.answers, h)
  }

  /** Some worker gives up. */
  ghost predicate SomeoneGaveUp(s: Script, missing: seq<Hash>) {
    exists w: nat, e :: e in Entries(missing, s.answers) && GivesUp(s, w, e)
  }

  lemma GaveUp(s: Script, missing: seq<Hash>, rarity: seq<ChunkRarity>, sha: HashFn, objects: map<Hash, Bytes>,
               errors: nat)
    requires multiset(rarity) == multiset(Entries(missing, s.answers))
    requires Tally(sha, s, rarity, |rarity|, objects, errors) && errors > 0
    ensures SomeoneGaveUp(s, missing)
  {
    var w :| 0 <= w < |rarity| && GivesUp(s, w, rarity[w]);
    assert rarity[w] in multiset(rarity);
    assert rarity[w] in Entries(missing, s.answers);
  }

  lemma UnlistedIff(s: Script, missing: seq<Hash>, rarity: seq<ChunkRarity>)
    requires multiset(rarity) == multiset(Entries(missing, s.answers))
    ensures (exists e | e in rarity :: e.peers == []) <==> NobodyHas(s, missing)
  {
    if NobodyHas(s, missing) {
      var h :| h in missing && Unlisted(s.answers, h);
      NoHolderIff(s.answers, h);
      var i :| 0 <= i < |missing| && missing[i] == h;
      var e := Entries(missing, s.answers)[i];
      assert e in multiset(rarity);
      assert e in rarity && e.peers == [];
    } else {
      forall e | e in rarity ensures e.peers != [] {
        assert e in multiset(rarity);
        assert e in Entries(missing, s.answers);
        var i :| 0 <= i < |missing| && Entries(missing, s.answers)[i] == e;
        NoHolderIff(s.answers, missing[i]);
        assert missing[i] in missing;
      }
    }
  }

  /** How the pull ended, once it had this metadata and this list of missing chunks, is what the script says. */
  ghost predicate Ended(s: Script, outcome: Outcome, remote: FileMeta, missing: seq<Hash>, objects: map<Hash, Bytes>) {
    (outcome == Failed(Unavailable) <==> NobodyHas(s, missing)) &&
    match outcome
    case InSync => false
    case Assembled(_) => s.mkdirOk && s.createOk && s.truncateOk && s.closeOk && s.saveOk
    case Failed(reason) =>
      reason == Unavailable || (reason == ExhaustedPeers && SomeoneGaveUp(s, missing)) ||
      Blamed(s, reason, remote, objects)
  }

  /** How the pull ended is what the script says. */
  ghost predicate Explained(s: Script, n: nat, outcome: Outcome, objects: map<Hash, Bytes>) {
    if n == 0 then outcome == Failed(NoCandidates)
    else if forall p | 0 <= p < n :: !Usable(s.ask(p)) then outcome == Failed(NoPeerHadFile)
    else
      exists q :: Chosen(s, n, q) &&
        if s.ask(q).diff.value.isSynced then outcome == InSync
        else Ended(s, outcome, s.ask(q).meta.value, s.ask(q).diff.value.missing, objects)
  }

  /** So the outcome tells what happened, and it could not have been another: every way of failing but giving up is
      reported if and only if it occurred first. */
  lemma OutcomeIff(s: Script, n: nat, outcome: Outcome, objects: map<Hash, Bytes>)
    requires Explained(s, n, outcome, objects)
    ensures outcome == Failed(NoCandidates) <==> n == 0
    ensures outcome == Failed(NoPeerHadFile) <==> n > 0 && forall p | 0 <= p < n :: !Usable(s.ask(p))
    ensures outcome.InSync? <==> exists q :: Chosen(s, n, q) && s.ask(q).diff.value.isSynced
    ensures outcome == Failed(Unavailable) <==>
      exists q :: Chosen(s, n, q) && !s.ask(q).diff.value.isSynced && NobodyHas(s, s.ask(q).diff.value.missing)
    ensures outcome == Failed(ExhaustedPeers) ==>
      exists q :: Chosen(s, n, q) && SomeoneGaveUp(s, s.ask(q).diff.value.missing)
    ensures outcome.Failed? && outcome.reason !in {NoCandidates, NoPeerHadFile, Unavailable, ExhaustedPeers} ==>
      exists q :: Chosen(s, n, q) && Blamed(s, outcome.reason, s.ask(q).meta.value, objects)
    ensures outcome.Assembled? ==> s.mkdirOk && s.createOk && s.truncateOk && s.closeOk && s.saveOk
  {
    if n > 0 && exists p | 0 <= p < n :: Usable(s.ask(p)) {
      var q :| Chosen(s, n, q) &&
        if s.ask(q).diff.value.isSynced then outcome == InSync
        else Ended(s, outcome, s.ask(q).meta.value, s.ask(q).diff.value.missing, objects);
      OneChosen(s, n, q);
    }
  }

  /** Only this file may have changed. */
  ghost predicate OnlyFile(before: map<string, Bytes>, after: map<string, Bytes>, fileId: string) {
    forall f | f != fileId :: (f in before <==> f in after) && (f in before ==> before[f] == after[f])
  }

  /** The peer at this address holds everything missing and answered so, and every worker runs smoothly. */
  ghost predicate Served(sha: HashFn, s: Script, missing: seq<Hash>, addr: string, source: map<Hash, Bytes>) {
    && DistinctAddrs(s.answers) && Holds(source, missing)
    && (exists k | 0 <= k < |s.answers| :: s.answers[k] == Answer(addr, AvailabilityAnswer(source, missing)))
    && (forall w, h | h in missing :: Smooth(sha, s, w, h))
  }

  ghost function HashesOf(rarity: seq<ChunkRarity>): (hs: seq<Hash>)
    ensures |hs| == |rarity|
  {
    if rarity == [] then [] else [rarity[0].hash] + HashesOf(rarity[1..])
  }

  lemma {:induction false} HashAt(rarity: seq<ChunkRarity>, i: nat)
    requires i < |rarity|
    ensures HashesOf(rarity)[i] == rarity[i].hash
  {
    if i > 0 {
      HashAt(rarity[1..], i - 1);
    }
  }

  lemma HashesWithout(rarity: seq<ChunkRarity>, k: nat)
    requires k < |rarity|
    ensures HashesOf(Without(rarity, k)) == Without(HashesOf(rarity), k)
  {
    forall i | 0 <= i < |rarity| - 1 ensures HashesOf(Without(rarity, k))[i] == Without(HashesOf(rarity), k)[i] {
      HashWithoutAt(rarity, k, i);
    }
  }

  lemma HashWithoutAt(rarity: seq<ChunkRarity>, k: nat, i: nat)
    requires k < |rarity| && i < |rarity| - 1
    ensures HashesOf(Without(rarity, k))[i] == Without(HashesOf(rarity), k)[i]
  {
    HashAt(Without(rarity, k), i);
    HashAt(rarity, if i < k then i else i + 1);
  }

  lemma HashOut(rarity: seq<ChunkRarity>, k: nat)
    requires k < |rarity|
    ensures multiset(HashesOf(rarity)) == multiset(HashesOf(Without(rarity, k))) + multiset{rarity[k].hash}
  {
    HashesWithout(rarity, k);
    WithoutOne(HashesOf(rarity), k);
    HashAt(rarity, k);
  }

  /** The first w workers are through, `errors` of them without a chunk. */
  ghost predicate Working(phase: P.Phase, remote: FileMeta, rarity: seq<ChunkRarity>, w: nat, errors: nat) {
    && w <= |rarity| && phase.Fetching? && phase.remote == remote && phase.missing == HashesOf(rarity)
    && |phase.workers| == |rarity|
    && (forall j | w <= j < |rarity| :: phase.workers[j] == P.Running)
    && (forall j | 0 <= j < w :: phase.workers[j] != P.Running)
    && (errors == 0 <==> P.Exhausted !in phase.workers[..w])
  }

  lemma WorkingStart(phase: P.Phase, remote: FileMeta, rarity: seq<ChunkRarity>)
    requires phase == P.Fetching(remote, HashesOf(rarity), seq(|HashesOf(rarity)|, _ => P.Running))
    ensures Working(phase, remote, rarity, 0, 0)
  {
  }

  lemma WorkingEnd(phase: P.Phase, remote: FileMeta, rarity: seq<ChunkRarity>, errors: nat)
    requires Working(phase, remote, rarity, |rarity|, errors)
    ensures P.AllDone(phase.workers) && (errors == 0 <==> P.NoneExhausted(phase.workers))
  {
    assert phase.workers[..|rarity|] == phase.workers;
  }

  lemma WorkingNext(phase: P.Phase, remote: FileMeta, rarity: seq<ChunkRarity>, w: nat, errors: nat, result: P.Worker)
    requires Working(phase, remote, rarity, w, errors) && w < |rarity| && result != P.Running
    ensures Working(phase.(workers := phase.workers[w := result]), remote, rarity, w + 1,
                    errors + if result == P.Exhausted then 1 else 0)
  {
    var after := phase.workers[w := result];
    assert after[..w + 1] == phase.workers[..w] + [result];
  }

  /** The rarity list is a reordering of the missing list. */
  lemma RarityHashes(missing: seq<Hash>, answers: seq<Answer>, rarity: seq<ChunkRarity>)
    requires multiset(rarity) == multiset(Entries(missing, answers))
    ensures multiset(HashesOf(rarity)) == multiset(missing)
  {
    var entries := Entries(missing, answers);
    HashesPermute(rarity, entries);
    forall i | 0 <= i < |missing| ensures HashesOf(entries)[i] == missing[i] {
      HashAt(entries, i);
    }
    assert HashesOf(entries) == missing;
  }

  lemma {:induction false} HashesPermute(a: seq<ChunkRarity>, b: seq<ChunkRarity>)
    requires multiset(a) == multiset(b)
    ensures multiset(HashesOf(a)) == multiset(HashesOf(b))
    decreases |a|
  {
    if a == [] {
      assert |multiset(b)| == 0;
      assert HashesOf(b) == [];
    } else {
      var e := a[0];
      assert e in multiset(b);
      var k :| 0 <= k < |b| && b[k] == e;
      WithoutOne(a, 0);
      WithoutOne(b, k);
      HashesPermute(Without(a, 0), Without(b, k));
      HashOut(a, 0);
      HashOut(b, k);
    }
  }

  /** Worker w of chunk h: every listed address is known, nobody is cooling down, every answer is right. */
  ghost predicate Smooth(sha: HashFn, s: Script, w: nat, h: Hash) {
    && s.putOk(w)
    && var o := s.worker(w, h);
       && (forall k | 0 <= k < |s.answers| :: s.answers[k].addr in o.http)
       && (forall p: nat :: o.available(p))
       && (forall p: nat, a: nat :: o.fetch(p, a).Some? && sha(o.fetch(p, a).value) == h)
  }

  lemma AllChunksHeld(chunkHashes: seq<Hash>, known: seq<Hash>, objects: map<Hash, Bytes>)
    requires Holds(objects, known) && Holds(objects, Missing(chunkHashes, known))
    ensures Holds(objects, chunkHashes)
  {
    KnownPlusMissingCovers(chunkHashes, known);
  }

  /** With an answering holder of everything missing, every entry has a holder, and with smooth workers every
      worker is sound. */
  lemma RarityIsSound(sha: HashFn, s: Script, missing: seq<Hash>, addr: string, source: map<Hash, Bytes>,
                      rarity: seq<ChunkRarity>)
    requires Served(sha, s, missing, addr, source)
    requires multiset(rarity) == multiset(Entries(missing, s.answers))
    ensures forall w | 0 <= w < |rarity| :: Sound(sha, s, w, rarity[w]) && !GivesUp(s, w, rarity[w])
  {
    var k :| 0 <= k < |s.answers| && s.answers[k] == Answer(addr, AvailabilityAnswer(source, missing));
    forall w | 0 <= w < |rarity| ensures Sound(sha, s, w, rarity[w]) && !GivesUp(s, w, rarity[w]) {
      var e := rarity[w];
      HoldersExact(missing, s.answers, k, source, rarity, w);
      assert multiset(e.peers)[addr] > 0;
      assert addr in e.peers;
      assert Smooth(sha, s, w, e.hash);
      assert e in multiset(rarity);
      assert e in Entries(missing, s.answers);
      forall p: nat | p < |e.peers| ensures e.peers[p] in s.worker(w, e.hash).http {
        HoldersAnswered(s.answers, e.hash, e.peers[p]);
      }
      SoundSucceeds(sha, s, w, e);
    }
  }

  /** Only peers that answered are listed. */
  lemma HoldersAnswered(answers: seq<Answer>, h: Hash, addr: string)
    requires addr in Who(AllMentions(answers), h)
    ensures exists k | 0 <= k < |answers| :: answers[k].addr == addr
  {
    WhoCount(AllMentions(answers), h, addr);
    assert multiset(Who(AllMentions(answers), h))[addr] > 0;
    if forall k | 0 <= k < |answers| :: answers[k].addr != addr {
      Unmentioned(answers, addr, h);
    }
  }

  /** Every missing chunk has its worker. */
  lemma RarityCovers(answers: seq<Answer>, missing: seq<Hash>, rarity: seq<ChunkRarity>, objects: map<Hash, Bytes>)
    requires multiset(rarity) == multiset(Entries(missing, answers))
    requires forall w | 0 <= w < |rarity| :: rarity[w].hash in objects
    ensures Holds(objects, missing)
  {
    forall h | h in missing ensures h in objects {
      var i :| 0 <= i < |missing| && missing[i] == h;
      var e := Entries(missing, answers)[i];
      assert e in multiset(rarity);
      assert e in rarity;
    }
  }

  /** The first i blobs have been written into a file of the given size, and nothing else. */
  ghost predicate Partial(st: Sparse, objects: map<Hash, Bytes>, hs: seq<Hash>, size: nat, i: nat, offset: nat) {
    && i <= |hs| == |st.bitmap| && (forall j | i <= j < |hs| :: !st.bitmap[j])
    && Holds(objects, hs[..i]) && offset == |Concat(Blobs(objects, hs[..i]))|
    && st.file == Image(Blobs(objects, hs[..i]), size)
  }

  lemma PartialStart(objects: map<Hash, Bytes>, hs: seq<Hash>, size: nat)
    ensures Partial(Fresh(size, |hs|), objects, hs, size, 0, 0)
  {
    assert Blobs(objects, hs[..0]) == [];
  }

  /** Writing the next blob succeeds unless the write is torn, and then does what the protocol's write does. */
  lemma PartialNext(st: Sparse, objects: map<Hash, Bytes>, hs: seq<Hash>, size: nat, i: nat, offset: nat,
                    torn: Option<nat>)
    requires Partial(st, objects, hs, size, i, offset) && i < |hs| && hs[i] in objects
    ensures var data := objects[hs[i]];
      var call := Call(i, offset, data, if torn.None? then |data| else torn.value);
      var next := Apply(st, call);
      && (torn.None? ==> Succeeds(st, call))
      && (Succeeds(st, call) ==>
            Partial(next, objects, hs, size, i + 1, offset + |data|) && next.file == WriteAt(st.file, offset, data))
      && (!Succeeds(st, call) ==> call.written < |data| && next.file == WriteAt(st.file, offset, data[..call.written]))
  {
    NextBlob(objects, hs, i, size);
  }

  lemma NextBlob(objects: map<Hash, Bytes>, hs: seq<Hash>, i: nat, size: nat)
    requires i < |hs| && Holds(objects, hs[..i]) && hs[i] in objects
    ensures Holds(objects, hs[..i + 1])
    ensures var blobs := Blobs(objects, hs[..i]);
      && |Concat(Blobs(objects, hs[..i + 1]))| == |Concat(blobs)| + |objects[hs[i]]|
      && Image(Blobs(objects, hs[..i + 1]), size) == WriteAt(Image(blobs, size), |Concat(blobs)|, objects[hs[i]])
  {
    assert hs[..i + 1] == hs[..i] + [hs[i]];
    assert Blobs(objects, hs[..i + 1]) == Blobs(objects, hs[..i]) + [objects[hs[i]]];
    ImageNext(Blobs(objects, hs[..i]), objects[hs[i]], size);
  }

  /** What an honest worker got belongs to the world if its hash is right. */
  lemma HonestWorker(env: P.Env, s: Script, fileId: string, w: nat, e: ChunkRarity, data: Option<Bytes>)
    requires exists p: nat, a: nat :: s.worker(w, e.hash).fetch(p, a) == data
    ensures HonestScript(env, s, fileId) ==> HonestFetch(env, data, e.hash)
  {
    var p: nat, a: nat :| s.worker(w, e.hash).fetch(p, a) == data;
    if HonestScript(env, s, fileId) {
      assert HonestFetch(env, s.worker(w, e.hash).fetch(p, a), e.hash);
    }
  }

  // ---- What the pulls of one node keep ----

  lemma {:induction false} PathKeepsInv(env: P.Env, name: string, path: seq<P.Node>, acts: seq<P.Action>, i: nat)
    requires Drives(Link(env, name, true), path, acts) && i < |path| && I.NodeInv(env, path[0])
    ensures I.NodeInv(env, path[i])
  {
    if i > 0 {
      PathKeepsInv(env, name, path, acts, i - 1);
      assert Link(env, name, true)(path[i - 1], acts[i - 1], path[i]);
      I.NodeStepKeeps(env, name, path[i - 1], acts[i - 1]);
    }
  }

  /** With honest peers, whatever pulls an engine ran and however they ended, all metadata it stores is genuine,
      has its root, and names only blobs the engine holds, each of which hashes to its name. */
  lemma EngineIntegrity(e: Engine)
    requires e.Traced() && e.honest && P.EmptyNode(e.path[0])
    ensures forall h | h in e.cas.objects :: e.cas.sha(e.cas.objects[h]) == h
    ensures forall f | f in e.meta ::
      && e.meta[f].fileId == f && I.Genuine(e.env, e.meta[f])
      && e.meta[f].merkleRoot == Root(e.cas.sha, e.meta[f].chunkHashes) && Holds(e.cas.objects, e.meta[f].chunkHashes)
  {
    assert I.NodeInv(e.env, e.path[0]);
    PathKeepsInv(e.env, e.nodeId, e.path, e.trace, |e.path| - 1);
    assert forall f | f in e.meta :: I.Stored(e.env, e.node.cas, f, e.node.meta[f]);
  }

  /** And a file such a pull has just left is the content its metadata was made from, collisions aside. */
  lemma EngineContent(e: Engine, f: string) returns (content: Bytes)
    requires e.Traced() && e.honest && P.EmptyNode(e.path[0]) && P.ValidEnv(e.env) && P.NoCollisions(e.env)
    requires f in e.meta && e.Stored(f, e.meta[f])
    ensures e.meta[f] == P.Version(e.env, f, content, e.meta[f].lamportTs)
    ensures e.disk[f] == content && |content| == e.meta[f].sizeBytes
  {
    assert I.NodeInv(e.env, e.path[0]);
    PathKeepsInv(e.env, e.nodeId, e.path, e.trace, |e.path| - 1);
    assert I.Stored(e.env, e.node.cas, f, e.node.meta[f]);
    content := Safety.GenuineContent(e.env, e.cas.objects, e.meta[f]);
  }

  lemma SoundSucceeds(sha: HashFn, s: Script, w: nat, e: ChunkRarity)
    ensures Sound(sha, s, w, e) ==> !GivesUp(s, w, e)
  {
    if Sound(sha, s, w, e) {
      assert !Fails(s.worker(w, e.hash), e.peers, 0);
    }
  }
}
