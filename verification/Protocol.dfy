/** The synchronisation protocol as a step system: any number of nodes, each running
    `HandleFileChange`, `handleAnnouncement`, `reconcileWithPeer`, `triggerSync` and `Engine.Pull`
    concurrently, with unreliable gossip, restarts, failing calls and peers that send wrong bytes.

    A pull is split where the program can be interrupted by something else. Gossip and catalogue
    answers go into a pool from which they may be delivered any number of times, late, or never. */
module Protocol {
  import opened Base
  import opened Merkle
  import opened Conflict
  import opened Control
  import opened Assembler
  import opened Store

  /** The foreign code: the hash, the content-defined chunker, and the set of blobs that ever occur.
      `world` restricts nothing when it is always true; collision freedom is assumed over it where a
      lemma says so. */
  datatype Env = Env(sha: HashFn, split: Bytes -> seq<Bytes>, world: Bytes -> bool)

  /** The chunker is a function of the content and loses nothing. */
  ghost predicate ValidEnv(env: Env) {
    forall content: Bytes :: Concat(env.split(content)) == content
  }

  ghost predicate NoCollisions(env: Env) {
    forall a, b | env.world(a) && env.world(b) && env.sha(a) == env.sha(b) :: a == b
  }

  function Version(env: Env, file: string, content: Bytes, ts: nat): FileMeta {
    var parts := env.split(content);
    var hashes := Digests(env.sha, parts);
    FileMeta(file, Root(env.sha, hashes), ts, hashes, |Concat(parts)|)
  }

  ghost predicate InWorld(env: Env, content: Bytes) {
    forall p | p in env.split(content) :: env.world(p)
  }

  // ---- State ----

  datatype Worker = Running | Finished | Exhausted

  datatype Phase =
    | Claimed                                                    // entered in `syncing`
    | Querying(local: Option<FileMeta>, next: nat)                // about to ask peer number next
    | Diffed(local: Option<FileMeta>, next: nat, synced: bool, missing: seq<Hash>)
    | Planned(remote: FileMeta, missing: seq<Hash>)               // peer loop left
    | Fetching(remote: FileMeta, missing: seq<Hash>, workers: seq<Worker>)
    | Assembling(remote: FileMeta, written: nat, offset: nat, clean: bool)
    | Committed(remote: FileMeta)                                 // metadata stored
    | Returned                                                    // `syncing` entry not yet deleted

  datatype Pull = Pull(file: string, peers: seq<string>, phase: Phase)

  /** A `HandleFileChange` under way: the file has been read; its root differs from the indexed one; its chunks are
      stored and the version is stamped. */
  datatype Ingest =
    | Read(file: string, content: Bytes)
    | Differs(file: string, content: Bytes)
    | Stamped(file: string, content: Bytes, ts: nat)

  /** `clean` and `pristine` are history: no user wrote to the file since the pull started writing it,
      respectively since a pull committed it. */
  datatype Node = Node(
    meta: map<string, FileMeta>,
    cas: map<Hash, Bytes>,
    clock: nat,
    syncing: set<string>,
    pulls: map<nat, Pull>,
    ingests: map<nat, Ingest>,
    disk: map<string, Bytes>,
    pristine: set<string>)

  /** A gossip announcement, or an entry of a catalogue answer. */
  datatype Hint =
    | Announced(file: string, root: Hash, ts: nat, source: string)
    | Listed(file: string, root: Hash, ts: nat, source: string)

  datatype Cluster = Cluster(nodes: map<string, Node>, hints: set<Hint>)

  /** How a pull that breaks off leaves its file: made but without its size, as it was, or with the first bytes of one
      more chunk. */
  datatype Damage = Emptied | Kept | Torn(bytes: nat)

  // ---- Actions of one node ----

  datatype Action =
    | UserWrite(file: string, content: Bytes)
    | IngestBegin(k: nat, file: string)
    | IngestCompare(k: nat)
    | IngestStamp(k: nat)
    | IngestPublish(k: nat)
    | Deliver(hint: Hint, k: nat, peers: seq<string>)
    | ManualSync(file: string, k: nat, peers: seq<string>)
    | ServeEntry(file: string)
    | PullLocal(k: nat)
    | PullSkip(k: nat)
    | PullDiff(k: nat, synced: bool, missing: seq<Hash>)
    | PullMetaFail(k: nat)
    | PullMeta(k: nat, remote: FileMeta)
    | PullNoPeer(k: nat)
    | PullUnavailable(k: nat)
    | PullStart(k: nat, order: seq<Hash>)
    | WorkerDone(k: nat, w: nat, data: Bytes, ioOk: bool)
    | WorkerGiveUp(k: nat, w: nat)
    | PullExhausted(k: nat)
    | PullCannotCreate(k: nat)
    | PullAssemble(k: nat)
    | PullWrite(k: nat)
    | PullBroken(k: nat, damage: Damage)
    | PullCommit(k: nat)
    | PullAnnounce(k: nat)
    | PullRelease(k: nat)
    | Restart

  predicate HasDbExt(file: string) {
    |file| >= 3 && file[|file| - 3..] == ".db"
  }

  function Local(node: Node, file: string): Option<FileMeta> {
    if file in node.meta then Some(node.meta[file]) else None
  }

  /** What a pull tells the peers it asks: its root, if it has the file, and its chunks. */
  function LocalRoot(local: Option<FileMeta>): Bytes {
    if local.Some? then local.value.merkleRoot else []
  }

  function Known(local: Option<FileMeta>): seq<Hash> {
    if local.Some? then local.value.chunkHashes else []
  }

  predicate AllDone(workers: seq<Worker>) {
    forall w | 0 <= w < |workers| :: workers[w] != Running
  }

  predicate NoneExhausted(workers: seq<Worker>) {
    forall w | 0 <= w < |workers| :: workers[w] != Exhausted
  }

  predicate Enabled(env: Env, name: string, node: Node, a: Action) {
    match a
    case UserWrite(_, _) => true
    case IngestBegin(k, file) => k !in node.ingests && file in node.disk && !HasDbExt(file)
    case IngestCompare(k) => k in node.ingests && node.ingests[k].Read?
    case IngestStamp(k) => k in node.ingests && node.ingests[k].Differs?
    case IngestPublish(k) => k in node.ingests && node.ingests[k].Stamped?
    case Deliver(hint, k, peers) =>
      k !in node.pulls && name !in peers && (if hint.Announced? then hint.source != name else !HasDbExt(hint.file))
    case ManualSync(file, k, peers) => file != "" && k !in node.pulls && name !in peers
    case ServeEntry(file) => file in node.meta
    case PullLocal(k) => k in node.pulls && node.pulls[k].phase.Claimed?
    case PullSkip(k) => Asking(node, k)
    case PullDiff(k, _, _) => Asking(node, k)
    case PullMetaFail(k) => k in node.pulls && node.pulls[k].phase.Diffed?
    case PullMeta(k, _) => k in node.pulls && node.pulls[k].phase.Diffed?
    case PullNoPeer(k) =>
      k in node.pulls && node.pulls[k].phase.Querying? && node.pulls[k].phase.next >= |node.pulls[k].peers|
    case PullUnavailable(k) => k in node.pulls && node.pulls[k].phase.Planned?
    case PullStart(k, order) =>
      k in node.pulls && node.pulls[k].phase.Planned? && multiset(order) == multiset(node.pulls[k].phase.missing)
    case WorkerDone(k, w, _, _) => AtWork(node, k, w)
    case WorkerGiveUp(k, w) => AtWork(node, k, w)
    case PullExhausted(k) =>
      k in node.pulls && node.pulls[k].phase.Fetching? && AllDone(node.pulls[k].phase.workers) &&
      !NoneExhausted(node.pulls[k].phase.workers)
    case PullCannotCreate(k) => Fetched(node, k)
    case PullAssemble(k) => Fetched(node, k)
    case PullWrite(k) => CanWrite(node, k)
    case PullBroken(k, damage) => CanBreak(node, k, damage)
    case PullCommit(k) => CanCommit(node, k)
    case PullAnnounce(k) => k in node.pulls && node.pulls[k].phase.Committed?
    case PullRelease(k) => k in node.pulls && node.pulls[k].phase.Returned?
    case Restart => true
  }

  predicate Asking(node: Node, k: nat) {
    k in node.pulls && node.pulls[k].phase.Querying? && node.pulls[k].phase.next < |node.pulls[k].peers|
  }

  predicate AtWork(node: Node, k: nat, w: nat) {
    k in node.pulls && node.pulls[k].phase.Fetching? &&
    w < |node.pulls[k].phase.workers| && w < |node.pulls[k].phase.missing| &&
    node.pulls[k].phase.workers[w] == Running
  }

  predicate Fetched(node: Node, k: nat) {
    k in node.pulls && node.pulls[k].phase.Fetching? &&
    AllDone(node.pulls[k].phase.workers) && NoneExhausted(node.pulls[k].phase.workers)
  }

  predicate CanWrite(node: Node, k: nat) {
    k in node.pulls && node.pulls[k].phase.Assembling? && node.pulls[k].file in node.disk &&
    node.pulls[k].phase.written < |node.pulls[k].phase.remote.chunkHashes| &&
    node.pulls[k].phase.remote.chunkHashes[node.pulls[k].phase.written] in node.cas
  }

  /** A file that could not be given its size is empty; a write is torn inside the next chunk. */
  predicate CanBreak(node: Node, k: nat, damage: Damage) {
    k in node.pulls && node.pulls[k].phase.Assembling? && node.pulls[k].file in node.disk &&
    match damage
    case Emptied => node.pulls[k].phase.written == 0
    case Kept => true
    case Torn(bytes) => CanWrite(node, k) && bytes <= |NextChunk(node, k)|
  }

  function NextChunk(node: Node, k: nat): Bytes
    requires CanWrite(node, k)
  {
    node.cas[node.pulls[k].phase.remote.chunkHashes[node.pulls[k].phase.written]]
  }

  predicate CanCommit(node: Node, k: nat) {
    k in node.pulls && node.pulls[k].phase.Assembling? &&
    node.pulls[k].phase.written >= |node.pulls[k].phase.remote.chunkHashes|
  }

  function Observe(node: Node, ts: nat): Node {
    if ts <= node.clock then node else node.(clock := ts)
  }

  /** `triggerSync`: at most one pull per file, claimed by an atomic LoadOrStore. */
  function Trigger(node: Node, file: string, k: nat, peers: seq<string>): Node {
    if file in node.syncing then node
    else node.(syncing := node.syncing + {file}, pulls := node.pulls[k := Pull(file, peers, Claimed)])
  }

  /** `handleAnnouncement`, for another node's announcement: the clock always hears of it. */
  function HandleAnnouncement(name: string, node: Node, hint: Hint, k: nat, peers: seq<string>): Node {
    var heard := Observe(node, hint.ts);
    if StartsSync(Local(node, hint.file), name, hint.root, hint.ts, hint.source)
    then Trigger(heard, hint.file, k, peers)
    else heard
  }

  /** One turn of the loop of `reconcileWithPeer`: the clock hears only of entries that start a sync. */
  function ReconcileEntry(name: string, node: Node, hint: Hint, k: nat, peers: seq<string>): Node {
    if StartsSync(Local(node, hint.file), name, hint.root, hint.ts, hint.source)
    then Trigger(Observe(node, hint.ts), hint.file, k, peers)
    else node
  }

  function Move(node: Node, k: nat, phase: Phase): Node
    requires k in node.pulls
  {
    node.(pulls := node.pulls[k := node.pulls[k].(phase := phase)])
  }

  /** The pull changes the file it is writing. */
  function Rewrite(node: Node, k: nat, content: Bytes, phase: Phase): Node
    requires k in node.pulls
  {
    var file := node.pulls[k].file;
    node.(disk := node.disk[file := content], pristine := node.pristine - {file},
          pulls := node.pulls[k := node.pulls[k].(phase := phase)])
  }

  function WriteNextChunk(node: Node, k: nat): Node
    requires CanWrite(node, k)
  {
    var p, data := node.pulls[k].phase, NextChunk(node, k);
    Rewrite(node, k, WriteAt(node.disk[node.pulls[k].file], p.offset, data),
            p.(written := p.written + 1, offset := p.offset + |data|))
  }

  /** What is on disk after the pull broke off. */
  function Remains(node: Node, k: nat, damage: Damage): Bytes
    requires CanBreak(node, k, damage)
  {
    var now := node.disk[node.pulls[k].file];
    match damage
    case Emptied => []
    case Kept => now
    case Torn(bytes) => WriteAt(now, node.pulls[k].phase.offset, NextChunk(node, k)[..bytes])
  }

  /** The metadata fetched from the peer is stored as it came. */
  function Commit(node: Node, k: nat): Node
    requires CanCommit(node, k)
  {
    var p, file := node.pulls[k].phase, node.pulls[k].file;
    node.(meta := node.meta[p.remote.fileId := p.remote],
          pristine := if p.clean then node.pristine + {file} else node.pristine - {file},
          pulls := node.pulls[k := node.pulls[k].(phase := Committed(p.remote))])
  }

  function Soil(pull: Pull, file: string): Pull {
    if pull.file == file && pull.phase.Assembling? then pull.(phase := pull.phase.(clean := false)) else pull
  }

  /** Somebody edits the file. */
  function UserWrites(node: Node, file: string, content: Bytes): Node {
    node.(disk := node.disk[file := content], pristine := node.pristine - {file},
          pulls := map k | k in node.pulls :: Soil(node.pulls[k], file))
  }

  /** `HandleFileChange` reads and chunks the file. The file may change again, and other steps may run, before the
      root is compared, before the chunks are stored and before the metadata is written. */
  function BeginIngest(node: Node, k: nat, file: string): Node
    requires file in node.disk
  {
    node.(ingests := node.ingests[k := Read(file, node.disk[file])])
  }

  /** The content is what the node has indexed. */
  predicate Indexed(env: Env, node: Node, file: string, content: Bytes) {
    file in node.meta && node.meta[file].merkleRoot == Version(env, file, content, 0).merkleRoot
  }

  /** It looks up the indexed root: unchanged content ends it. */
  function CompareIngest(env: Env, node: Node, k: nat): Node
    requires k in node.ingests
  {
    var i := node.ingests[k];
    if Indexed(env, node, i.file, i.content) then node.(ingests := node.ingests - {k})
    else node.(ingests := node.ingests[k := Differs(i.file, i.content)])
  }

  function StampIngest(env: Env, node: Node, k: nat): Node
    requires k in node.ingests
  {
    var i := node.ingests[k];
    node.(cas := PutAll(env.sha, node.cas, env.split(i.content)), clock := node.clock + 1,
          ingests := node.ingests[k := Stamped(i.file, i.content, node.clock + 1)])
  }

  function PublishIngest(env: Env, node: Node, k: nat): Node
    requires k in node.ingests && node.ingests[k].Stamped?
  {
    var i := node.ingests[k];
    node.(meta := node.meta[i.file := Version(env, i.file, i.content, i.ts)],
          ingests := node.ingests - {k}, pristine := node.pristine - {i.file})
  }

  /** A worker got an answer. The error of `CAS.Put` is dropped: the worker counts as finished even if
      the bytes were wrong. */
  function StoreFetched(env: Env, node: Node, k: nat, w: nat, data: Bytes, ioOk: bool): Node
    requires AtWork(node, k, w)
  {
    var p := node.pulls[k].phase;
    var cas := if ioOk then PutBlob(env.sha, node.cas, p.missing[w], data) else node.cas;
    Move(node.(cas := cas), k, p.(workers := p.workers[w := Finished]))
  }

  function Release(node: Node, k: nat): Node
    requires k in node.pulls
  {
    node.(pulls := node.pulls - {k}, syncing := node.syncing - {node.pulls[k].file})
  }

  /** Blobs, metadata and files survive; everything in memory is gone and the clock is at zero. */
  function Restarted(node: Node): Node {
    node.(clock := 0, syncing := {}, pulls := map[], ingests := map[])
  }

  /** The actions that only move one pull to another phase. */
  predicate PhaseOnly(a: Action) {
    a.PullLocal? || a.PullSkip? || a.PullDiff? || a.PullMetaFail? || a.PullMeta? || a.PullNoPeer? ||
    a.PullUnavailable? || a.PullStart? || a.WorkerGiveUp? || a.PullExhausted? || a.PullCannotCreate? || a.PullAnnounce?
  }

  function NextPhase(env: Env, name: string, node: Node, a: Action): Phase
    requires PhaseOnly(a) && Enabled(env, name, node, a)
  {
    var pull := node.pulls[a.k];
    var p := pull.phase;
    match a
    case PullLocal(_) => if pull.peers == [] then Returned else Querying(Local(node, pull.file), 0)
    case PullSkip(_) => Querying(p.local, p.next + 1)
    case PullDiff(_, synced, missing) => Diffed(p.local, p.next, synced, missing)
    case PullMetaFail(_) => Querying(p.local, p.next + 1)
    case PullMeta(_, remote) => if p.synced then Returned else Planned(remote, p.missing)
    case PullStart(_, order) => Fetching(p.remote, order, seq(|order|, _ => Running)) // rarest first
    case WorkerGiveUp(_, w) => p.(workers := p.workers[w := Exhausted])
    case _ => Returned
  }

  /** The node after one of its actions. */
  function After(env: Env, name: string, node: Node, a: Action): Node
    requires Enabled(env, name, node, a)
  {
    if PhaseOnly(a) then Move(node, a.k, NextPhase(env, name, node, a))
    else
      match a
      case UserWrite(file, content) => UserWrites(node, file, content)
      case IngestBegin(k, file) => BeginIngest(node, k, file)
      case IngestCompare(k) => CompareIngest(env, node, k)
      case IngestStamp(k) => StampIngest(env, node, k)
      case IngestPublish(k) => PublishIngest(env, node, k)
      case Deliver(hint, k, peers) =>
        if hint.Announced? then HandleAnnouncement(name, node, hint, k, peers)
        else ReconcileEntry(name, node, hint, k, peers)
      case ManualSync(file, k, peers) => Trigger(node, file, k, peers)
      case WorkerDone(k, w, data, ioOk) => StoreFetched(env, node, k, w, data, ioOk)
      case PullAssemble(k) =>
        var remote := node.pulls[k].phase.remote;
        Rewrite(node, k, Zeros(remote.sizeBytes), Assembling(remote, 0, 0, true))
      case PullWrite(k) => WriteNextChunk(node, k)
      case PullBroken(k, damage) => Rewrite(node, k, Remains(node, k, damage), Returned)
      case PullCommit(k) => Commit(node, k)
      case PullRelease(k) => Release(node, k)
      case Restart => Restarted(node)
      case _ => node
  }

  /** What the action puts into the pool. */
  function Sent(env: Env, name: string, node: Node, a: Action): set<Hint>
    requires Enabled(env, name, node, a)
  {
    match a
    case IngestPublish(k) =>
      var i := node.ingests[k];
      {Announced(i.file, Version(env, i.file, i.content, i.ts).merkleRoot, i.ts, name)}
    case PullAnnounce(k) =>
      var m := node.pulls[k].phase.remote;
      {Announced(m.fileId, m.merkleRoot, m.lamportTs, name)}
    case ServeEntry(file) =>
      {Listed(file, node.meta[file].merkleRoot, node.meta[file].lamportTs, name)}
    case _ => {}
  }

  // ---- Cluster steps ----

  /** What an action learns from elsewhere is what is there: hints were sent, diffs and metadata are
      the asked peer's at that moment. Chunk bytes may be anything. */
  ghost predicate Answered(env: Env, c: Cluster, node: Node, a: Action) {
    match a
    case IngestBegin(_, file) => file in node.disk ==> InWorld(env, node.disk[file])
    case Deliver(hint, _, _) => hint in c.hints
    case PullDiff(k, synced, missing) =>
      Asking(node, k) ==>
        var p := node.pulls[k];
        var peer := p.peers[p.phase.next];
        peer in c.nodes && p.file in c.nodes[peer].meta &&
        DiffAnswer(Some(c.nodes[peer].meta[p.file]), LocalRoot(p.phase.local), Known(p.phase.local)) ==
        DiffResponse(c.nodes[peer].meta[p.file].merkleRoot, synced, missing)
    case PullMeta(k, remote) =>
      k in node.pulls && node.pulls[k].phase.Diffed? && node.pulls[k].phase.next < |node.pulls[k].peers| &&
      var p := node.pulls[k];
      var peer := p.peers[p.phase.next];
      peer in c.nodes && p.file in c.nodes[peer].meta && remote == c.nodes[peer].meta[p.file]
    case WorkerDone(k, w, data, _) =>
      AtWork(node, k, w) && env.sha(data) == node.pulls[k].phase.missing[w] ==> env.world(data)
    case _ => true
  }

  ghost predicate Possible(env: Env, c: Cluster, name: string, a: Action) {
    name in c.nodes && Enabled(env, name, c.nodes[name], a) && Answered(env, c, c.nodes[name], a)
  }

  ghost function Step(env: Env, c: Cluster, name: string, a: Action): Cluster
    requires Possible(env, c, name, a)
  {
    Cluster(c.nodes[name := After(env, name, c.nodes[name], a)], c.hints + Sent(env, name, c.nodes[name], a))
  }

  ghost predicate EmptyNode(node: Node) {
    node.meta == map[] && node.cas == map[] && node.clock == 0 && node.syncing == {} && node.pulls == map[] &&
    node.ingests == map[] && node.pristine == {}
  }

  ghost predicate Init(c: Cluster) {
    c.hints == {} && forall n | n in c.nodes :: EmptyNode(c.nodes[n])
  }

  datatype Event = Event(name: string, action: Action)

  /** Event i can happen in state i, and leads to state i + 1. */
  ghost predicate Taken(env: Env, states: seq<Cluster>, events: seq<Event>, i: nat)
    requires |states| == |events| + 1 && i < |events|
  {
    && Possible(env, states[i], events[i].name, events[i].action)
    && states[i + 1] == Step(env, states[i], events[i].name, events[i].action)
  }

  ghost predicate Steps(env: Env, states: seq<Cluster>, events: seq<Event>) {
    |states| == |events| + 1 && forall i | 0 <= i < |events| :: Taken(env, states, events, i)
  }

  ghost predicate Run(env: Env, states: seq<Cluster>, events: seq<Event>) {
    Steps(env, states, events) && Init(states[0])
  }
}
