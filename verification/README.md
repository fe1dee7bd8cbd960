# NuSync, verified

NuSync keeps a directory in step across any number of machines. A node chunks every changed file, stores the chunks under their hashes, stamps the version with a Lamport timestamp and a Merkle root, and gossips it. A node that hears of a version that beats its own pulls it: it asks its peers for a diff, fetches the missing chunks rarest first, assembles the file, stores the peer's metadata and announces it in turn. Anti-entropy between random pairs makes up for lost gossip.

This project models that protocol in Dafny 4.11 and proves what it keeps and where it ends. `dafny verify dfyconfig.toml` checks everything.

## How it is laid out

| file | what it holds |
|---|---|
| `Base`, `Conflict`, `Store`, `Control`, `Quiet` | hashes and byte strings; last-writer-wins; the blob store; the diff and availability answers; the quiet set |
| `Merkle` | the Merkle root: loops against recursive tree, and when equal roots mean equal chunk lists |
| `Assembler` | out-of-order writes into a sparse file, and sequential assembly |
| `Backoff`, `Scheduler` | jittered backoff, peer health, the rarity map and the chunk workers |
| `Clock`, `Watcher` | the lock-free clock and the debouncer, as step systems over all interleavings |
| `Protocol` | the whole protocol as a step system: 27 kinds of action on any number of nodes |
| `Integrity`, `Safety` | the invariant every action keeps, and what follows for every reachable state |
| `Content` | what equal roots say about chunk lists and contents in reachable states |
| `Exchange`, `Convergence`, `FirstPeer` | rounds of pairwise reconciliation on the nodes' versions alone, and when they end in agreement |
| `Runs`, `Progress`, `Rounds` | stretches of runs; every pull that meets no fault, step by step to its end; every exchange and round made of such pulls |
| `Writes`, `Outcome` | local writes as runs; convergence and divergence on runs from the initial states |
| `Interference`, `Overlap` | a pull among everything else that goes on: never stuck, bounded, and what it stores; and how overlapping pulls end in agreement |
| `History`, `Changes` | what a pull and what a file change did earlier in a run, read off the events |
| `Gossip` | what is in the pool of hints, and what hearing of it does |
| `Timestamps`, `Provenance` | when a stored timestamp falls, when a change is dropped, and where published content comes from, exactly |
| `Overwrite`, `Lapses` | runs from the initial state in which newer writes are lost |
| `Engine`, `Daemon` | `Engine.Pull` and the daemon's handlers as imperative classes, tied to the protocol's actions |

In the protocol a pull is cut wherever something else may come between: claim, local metadata, each diff, each metadata fetch, each worker, each chunk written, commit, announcement, release. A file change is cut the same way: read, compared, stamped, published. Gossip and catalogue answers go into a pool from which they are delivered late, twice or never. Chunk answers may be any bytes. A restart keeps blobs, metadata and files and forgets everything else, the clock included.

## What turned out not to hold

The code was kept as it is; each of these has a counterexample and the exact condition.

* **Convergence.** The peer loop of a pull takes the first listed peer that has the file at all, not the one whose version started the sync. A group of nodes that list each other first and hold one version finds itself in sync within the group and keeps that version, whatever the others hold or do (`FirstPeer.GroupKeepsStep`, `FirstPeer.GroupStaysBehind`). With fixed peer lists the cluster converges, from every reachable idle state and in whatever faultless way the rounds are gone through, if and only if the first-listed peers form one ring (`Outcome.RunsConvergeIffOneRing`). Otherwise there is a run from the initial state, a few local writes long, after which the cluster is divided for ever (`Outcome.NoRingDiverges`); three nodes are enough (`Outcome.ThreeNodesDiverge`). If a pull adopted the version that started it, n nodes holding d timestamps would agree after n * (n * d + 1) rounds (`Convergence.Convergence`); with two nodes the list leaves no other choice (`FirstPeer.TwoNodesFormARing`); with lists that change, the newest version spreads if every node once meets it first (`Exchange.NewestSpreads`). Pulls may also overlap with each other and with anything else, as long as nobody publishes a change of the file or asks for it by hand: a node that has the newest version and no pull that could replace it stays so, whatever anybody does (`Overlap.SettledStays`), a pull from such a node makes its node one (`Overlap.PullFromSettled`), and once every node has been one, all roots are equal until somebody publishes a change (`Overlap.SettledSpreads`, `Overlap.TwoNodesAgree`).
* **Timestamps only grow, local writes survive.** Two kinds of event store a version, and neither looks at what is stored. A commit lowers the timestamp if and only if the node's own version is newer than the captured one; that version is the one the node published last since the pull read its metadata, or, if it published none, the one the pull read (`Timestamps.CommitFallsIff`). A publication lowers it if and only if the own version is newer than the clock at the stamp plus one; that version is the one stored last since the stamp, by a pull or another change, or, if none was, the one stored already (`Timestamps.PublicationFallsIff`). Over any stretch of any run the timestamp never falls if and only if no such commit and no such publication occurs (`Timestamps.NeverFallsIff`). All of it happens: an older version of the first listed holder (`Overwrite.TimestampFalls`), a local write published and announced while a pull was running, after which no node has that version (`Overwrite.LostLocalWrite`), a write after a restart, which loses to the version it was made on (`Lapses.RestartLosesEdit`), two changes published in the wrong order (`Lapses.PublishedOutOfOrder`), and a write on a version the clock never heard of (`Lapses.WriteBelowPulled`).
* **Only changes are published.** The root is compared some time after the file was read. A change that read the indexed content is dropped if and only if no version of the file was stored in between or the last one stored has that root again (`Timestamps.DroppedIff`). So a file event on a pulled, unedited file is dropped if nothing disturbs the file between the commit and the comparison (`Changes.NoEchoAfterPull`); but a change that read the file before a pull replaced it is published afterwards, as the newest version (`Lapses.OldContentWins`).
* **Only what somebody wrote is published.** A pull writes in place. What a change reads, and so what is published, is exactly what a user wrote last, or exactly what a pull has written so far over what was there: zeros of the announced size, nothing if the file could not be given that size, or a user's edit. In the second case it is the pulled content if and only if the bytes not written by the pull are already as they should be; if nobody edited the file since the pull made it, if and only if the bytes still to come are zero, so a pull that fails after its last chunk has done no harm (`Provenance.PulledIsWholeIff`, `Provenance.PublishedIsWholeIff`). Whenever a pull has written some chunks, these and zeros for the rest can be published (`Lapses.HalfPublished`), and win: a file of zeros replaces what the user wrote (`Lapses.NobodyWroteIt`). As long as no node reads such a file, every version anywhere in the cluster was made from a content some user wrote (`Provenance.EveryVersionAuthored`).
* **Equal roots mean equal files.** Leaves and inner nodes are hashed alike and the empty list has the zero root. A file of two chunks and the file that consists of their two hashes, if that is one chunk, have the same root, without any collision (`Content.TwoFilesOneRoot`). Roots decide equality if and only if no chunk hash is also an inner node and no root is zero (`Merkle.RootsDecideEqualityIff`); lists of one length need no such condition. Where it holds, "in sync" means the same chunks and agreement means one content (`Content.SyncedMeansSame`, `Content.AgreementIsContent`, `Outcome.RingRunContent`).
* **A path is reported once it is quiet.** A callback starts at least a quiet period after the latest event of its path, and a burst of events is reported once, as long as no event falls between the expiry of a timer and the deletion of its map entry by that callback (`Watcher.Debounced`, `Watcher.ReportedOnce`). Such an event re-arms a timer that the deletion then makes unreachable; a callback is early if and only if its timer was orphaned so and an event less than a quiet period old came after that (`Watcher.EarlyIff`, `Watcher.OrphanNeedsRace`), and that happens (`Watcher.RaceReportsEarly`). No event is lost either way (`Watcher.EveryWriteReported`).
* **A complete sparse file is the concatenation.** That holds if and only if the size announced beforehand is not larger (`Assembler.OutOfOrderAssembly`); otherwise the tail is zeros.
* **Backoff stays below its maximum.** For all draws, if and only if the maximum is at least a millisecond (`Backoff.StaysBelowMaxIff`).

## Assumptions

* The hash is an arbitrary function into 32 bytes. Freedom from collisions is assumed only where a lemma says so, and only over the blobs of one world (`Protocol.NoCollisions`) or over the tree hashes of lists up to a length (`Merkle.CollisionFree`); injectivity on all byte strings would be unsatisfiable.
* The chunker is a function of the content whose parts concatenate to it.
* In the step system storing blobs and metadata while a file is indexed does not fail; `Daemon.Daemon.Change` models those failures and `Daemon.Daemon.HandleFileChange` ties the two together when they do not occur. `Put` is atomic.
* A restart comes between two steps: a crash inside one write of a file is not modelled, a write that fails part-way is.
* Timestamps, counters and sizes do not overflow. Node names are distinct. File ids are clean relative paths. Clock readings do not go back.
* The floating-point arithmetic of the backoff is real arithmetic.
* In `Exchange`, `Convergence` and `FirstPeer` an exchange is one step: a pull there is atomic, meets no fault and always ends. `Rounds` proves that every faultless way a pull can take through the protocol, with nothing else going on, has the effect of that step. What holds of a pull whatever else goes on is in `Interference`, `Overlap`, `Safety` and `Timestamps`.
* In `FirstPeer`, `Rounds` and `Outcome` every node has one complete peer list, which does not change; the membership library may reorder it. `Exchange.NewestSpreads` and `Outcome.NewestSpreadsInRuns` take a list per exchange, and in `Protocol` every pull brings its own.
* `Outcome` lets rounds start when no pull of the file is running, and lets nothing else happen until they end.

## Model

| member | source | states |
|---|---|---|
| `Merkle.LevelKeepsRoot` | internal/merkle/tree.go:20-34 | one pass of pairing, odd last hash promoted, leaves the tree hash unchanged, for every length |
| `Merkle.RootByLevels` | internal/merkle/tree.go:9-37 | the root of no hash is 32 zero bytes, of one hash that hash, and of more the root of the next level, whose hash i is the hash of hashes 2i and 2i + 1 one after the other, or the odd last one |
| `Merkle.PairUp` | internal/merkle/tree.go:23-31 | the inner loop computes exactly one level, place by place |
| `Merkle.ComputeRoot` | internal/merkle/tree.go:9-37 | the loops end and compute the recursive tree hash split at the largest power of two (the shape of section 2.1 of RFC 6962), zero for the empty list |
| `Merkle.EqualRootsEqualLists` | internal/merkle/tree.go:9-37 | without collisions and clashes equal roots mean equal chunk lists, of any lengths |
| `Merkle.RootsDecideEqualityIff` | internal/merkle/tree.go:9-37 | root comparison decides list equality if and only if no chunk hash is an inner node and no root is zero |
| `Merkle.SameLengthRoots` | internal/merkle/tree.go:9-37 | for lists of one length roots are equal exactly when the lists are |
| `Conflict.BelowIff` | internal/daemon/daemon.go:247-247 | a name is below another if and only if at the first place where they part it has ended and the other has not, or has the smaller character |
| `Conflict.RemoteWinsIff` | internal/daemon/daemon.go:243-248 | the remote version wins if and only if its timestamp is greater, or equal and its holder's name greater in that sense |
| `Conflict.WinnerIsAntisymmetric` | internal/daemon/daemon.go:243-248 | of two differently named holders exactly one wins |
| `Conflict.WinnerIsTransitive` | internal/daemon/daemon.go:243-248 | winning is transitive, so every cluster has one node nobody wins against |
| `Store.PutAllStores` | internal/store/cas.go:28-49 | storing a list of blobs keeps every blob under its own hash, loses nothing, and adds nothing else |
| `Store.CasBlobStore.Put` | internal/store/cas.go:28-49 | the blob is added exactly if its hash is right, its name new and the disk willing; success exactly when the name is present afterwards |
| `Store.CasBlobStore.Get` | internal/store/cas.go:51-66 | present blobs come back, and hash to what was asked for |
| `Control.DiffMerkleTree` | internal/control/service.go:29-75 | an empty root exactly for an unknown file, with nothing missing; the stored root otherwise; synced exactly for the same 32-byte root; otherwise each chunk the requester does not know, as often as the file has it |
| `Control.MissingOrder` | internal/control/service.go:49-74 | the missing chunks are listed in the order of the file, repeats included |
| `Control.KnownPlusMissingCovers` | internal/control/service.go:49-74 | what the requester knows and what it is told is missing cover the list, and nothing missing is known |
| `Control.GetChunkAvailability` | internal/control/service.go:77-97 | the loop drops malformed hashes and keeps exactly the asked chunks the store holds, in order and with repeats |
| `Control.AvailabilityOrder` | internal/control/service.go:77-97 | the answered entries stand in the order of the request, and are those that are 32 bytes long and held |
| `Control.AvailableCount` | internal/control/service.go:80-92 | a held chunk is answered as often as it was asked for, others never |
| `Control.HashesAnswered` | internal/control/service.go:80-92 | a request made of hashes is answered with exactly those of them that are held |
| `Assembler.SparseFile.constructor` | internal/assembler/sparse.go:17-33 | a file of zeros, no chunk set |
| `Assembler.ApplyExact` | internal/assembler/sparse.go:35-56 | one call: a wrong index and a negative offset are refused, a chunk that is done is left alone, a write that fails part-way leaves its first bytes and sets nothing, one that goes through sets the chunk and counts |
| `Assembler.SparseFile.WriteChunk` | internal/assembler/sparse.go:35-56 | one call, refused, repeated, failing part-way or succeeding, is one step of the value model, and the counter stays the number of set bits |
| `Assembler.SparseFile.IsComplete` | internal/assembler/sparse.go:58-63 | true exactly when every chunk is set |
| `Assembler.ApplyAllRepresents` | internal/assembler/sparse.go:35-56 | any sequence of calls keeps every set chunk in its place, others untouched, and sets exactly the chunks one of whose writes went through |
| `Assembler.OutOfOrderAssembly` | internal/assembler/sparse.go:35-63 | calls in any order with repeats and failures: a complete file is the concatenation zero-filled to the announced size, and the concatenation exactly when that size is not larger |
| `Assembler.ImageNext` | internal/orchestrator/sync.go:192-207 | writing the next chunk where the previous ones end turns one image into the next |
| `Assembler.Assemble` | internal/assembler/assembler.go:11-33 | sequential assembly succeeds exactly when the file can be made, all blobs are held and every copy succeeds, and then yields their concatenation; otherwise that of the blobs before the first failure |
| `Backoff.BackoffBounds` | internal/scheduler/backoff.go:63-89 | the backoff lies within a quarter of min(base * 2^min(attempt, 10), max), clamped to [1 ms, max]; the powers are written out |
| `Backoff.BackoffExact` | internal/scheduler/backoff.go:63-89 | for all inputs, exactly: a draw u makes it 3/4 + u/2 of that, rounded towards zero, then clamped |
| `Backoff.PowersDouble` | internal/scheduler/backoff.go:68-68 | 2^0 is 1 and each power is twice the one before |
| `Backoff.StaysBelowMaxIff` | internal/scheduler/backoff.go:63-89 | no draw exceeds the maximum if and only if it is at least a millisecond |
| `Backoff.HealthTracker.MarkHot` | internal/scheduler/backoff.go:26-39 | the latest deadline and the number of marks are recorded |
| `Backoff.HealthTracker.IsAvailable` | internal/scheduler/backoff.go:41-61 | unavailable exactly until the latest mark's deadline has passed, in spite of lazy resets |
| `Quiet.QuietSet.Mark` | internal/daemon/quiet.go:49-53 | the latest mark of a path counts |
| `Quiet.QuietSet.IsQuiet` | internal/daemon/quiet.go:55-70 | quiet exactly while the latest mark is no older than the time to live, in spite of lazy deletion |
| `Scheduler.Collect` | internal/scheduler/rarest.go:24-57 | recording the answers gives every chunk its holders in recording order |
| `Scheduler.WhoOrder` | internal/scheduler/rarest.go:24-57 | the holders of a chunk stand in the order in which they were recorded |
| `Scheduler.NoHolderIff` | internal/scheduler/rarest.go:39-66 | a chunk has no holder exactly if no answer lists it |
| `Scheduler.BuildRarityMap` | internal/scheduler/rarest.go:18-73 | the result is a permutation of the missing chunks with their holders, ascending in the number of holders |
| `Scheduler.ScheduleIndependent` | internal/scheduler/rarest.go:24-57 | in whatever order the answers arrive, a chunk has the same holders equally often, and so the same rarity |
| `Scheduler.HoldersExact` | internal/scheduler/rarest.go:39-66 | an answering peer is listed for a chunk exactly as often as the chunk is missing, if it holds it, and else never |
| `Scheduler.RunWorker` | internal/orchestrator/sync.go:141-170 | gives up exactly when every holder fails; else returns the first answer in holder order; fetches and sleeps exactly what the entries up to the answering one make it: at most three fetches and 3.75 s per holder, and exactly three and at least 2.25 s at each holder that is let through and fails |
| `Scheduler.SleepBounds` | internal/orchestrator/sync.go:146-163 | every fetch but the first at a holder comes after a sleep of at least 0.75 s |
| `Clock.PerformKeepsInv` | internal/daemon/daemon.go:130-146 | every atomic step keeps the clock's invariant and never lowers it |
| `Clock.LockFreeClock` | internal/daemon/daemon.go:130-146 | in every interleaving issued timestamps exceed everything issued or observed before, observes end at or above their remote, and retry at most remote minus first reading times |
| `Clock.ClockExact` | internal/daemon/daemon.go:130-146 | in every interleaving the clock is what the completed operations make of it one at a time: exactly the greatest timestamp logged; every issued timestamp is exactly one more than the greatest logged before |
| `Clock.LoggedOnce` | internal/daemon/daemon.go:130-146 | every operation is logged once, when it completes, an observe with the timestamp it began with; a step that does not complete one moves no clock |
| `Daemon.ClockIsProtocols` | internal/daemon/daemon.go:130-146 | taken one at a time, these operations are the step system's observe and stamp |
| `Clock.ClockNeverFalls` | internal/daemon/daemon.go:130-146 | within one process lifetime |
| `Watcher.StepRemembers` | internal/watcher/watcher.go:69-112 | no step, an expiry racing with a reset included, forgets a path's latest event |
| `Watcher.NoWriteLost` | internal/watcher/watcher.go:69-112 | once timers have caught up, every path was reported by a callback that started a quiet period after its latest event |
| `Watcher.EventLeavesTimer` | internal/watcher/watcher.go:106-112 | until then a timer or callback is pending, due no later than a quiet period after the event |
| `Watcher.WorkEnds` | internal/watcher/watcher.go:69-112 | without new events, expiries and callbacks, however they interleave, are as many as there is work: two for every armed timer, one for every callback |
| `Watcher.BusyIff` | internal/watcher/watcher.go:69-112 | there is one to come exactly as long as the timers have not caught up |
| `Watcher.CanCatchUp` | internal/watcher/watcher.go:69-112 | from every state, expiries and callbacks alone lead to one in which the timers have caught up |
| `Watcher.EveryWriteReported` | internal/watcher/watcher.go:69-112 | so in every run, once a quiet period has passed since the latest event of a path, letting timers and callbacks run until none is left reports the path |
| `Watcher.Debounced` | internal/watcher/watcher.go:106-112 | in every run in which no event of the path falls between an expiry and that callback's deletion: at most one armed timer, due exactly a quiet period after the latest event, and no callback that started earlier |
| `Watcher.ReportedOnce` | internal/watcher/watcher.go:69-112 | in such runs there is an event between any two expiries, so a burst is reported once |
| `Watcher.EarlyIff` | internal/watcher/watcher.go:69-112 | in every run, a callback starts less than a quiet period after the latest event if and only if its timer was orphaned and an event less than a quiet period old came after that |
| `Watcher.OrphanNeedsRace` | internal/watcher/watcher.go:69-112 | a timer is orphaned only if an event fell between an expiry and that callback's deletion |
| `Watcher.RaceReportsEarly` | internal/watcher/watcher.go:69-112 | a run with such an event, two armed timers and a report 200 ms after the latest event |
| `Integrity.StepKeepsInv` | internal/orchestrator/sync.go:51-227 | every action of every node keeps the invariant: verified blobs, genuine and backed metadata, single flight, images in step with the chunks written |
| `Integrity.NodeStepKeeps` | internal/orchestrator/sync.go:84-223 | on one node alone: every action that learned nothing wrong from elsewhere keeps the node's invariant |
| `Integrity.RunInv` | internal/daemon/daemon.go:158-332 | the invariant holds in every reachable state |
| `Integrity.WorkerKeeps` | internal/orchestrator/sync.go:141-170 | a worker that stores what it got, right or wrong, keeps the invariant |
| `Integrity.CommitKeeps` | internal/orchestrator/sync.go:217-219 | storing the peer's metadata after assembly keeps the invariant |
| `Integrity.PublishKeeps` | internal/daemon/daemon.go:197-215 | so does publishing a local version, whatever happened since the file was read |
| `Safety.ClusterIntegrity` | internal/store/cas.go:28-49 | in every reachable state all stored metadata names blobs the node holds, blobs hash to their names, the root is the root of the chunk list, and the size is the length of the blobs |
| `Safety.AtMostOnePull` | internal/daemon/daemon.go:253-271 | in every reachable state a file is in `syncing` exactly while one pull of it is claimed or running |
| `Safety.CommitLeavesContent` | internal/orchestrator/sync.go:182-219 | a commit stores metadata some content was chunked into, and unless somebody edited the file meanwhile leaves exactly that content on disk |
| `Safety.NoEcho` | internal/daemon/daemon.go:174-186 | in every reachable state a file that is as a pull left it re-chunks to the indexed root |
| `History.FindStart` | internal/orchestrator/sync.go:182-215 | every pull that is writing a file started to at some event, and counts the file as clean exactly if nobody has edited it since |
| `History.PristineStep` | internal/daemon/daemon.go:158-216 | a file stays as a pull left it under every action of its node except an edit, another assembly or a publication of that file |
| `History.StaysPristine` | internal/daemon/daemon.go:158-216 | and over any stretch of a run without those |
| `Changes.FindStory` | internal/daemon/daemon.go:174-207 | every stamped change was read, found to differ and stamped at three events, in this order, with what was on disk at the first and the clock's next value at the last |
| `Changes.NoRestartInStory` | internal/daemon/daemon.go:158-216 | and its node has not restarted between the reading and the publication |
| `Changes.NoEchoAfterPull` | internal/daemon/daemon.go:163-186 | in events alone: a change that reads a pulled file after the commit, with no edit since the pull started to write and nothing disturbing it until the comparison, is dropped, and that is all |
| `Safety.StepInventsNothing` | internal/orchestrator/sync.go:84-126 | no step but a publication of this file brings in a version of it that was not stored or captured somewhere |
| `Safety.NoVersionInvented` | internal/daemon/daemon.go:221-271 | nor does any stretch of a run without publications of that file |
| `Safety.AgreementStays` | internal/daemon/daemon.go:221-332 | once one version is left, every node that stores the file later stores that one, until somebody publishes a change of it |
| `Content.RootsAreLists` | internal/merkle/tree.go:9-37 | of two versions some content was chunked into, the roots are equal exactly when the chunk lists are |
| `Content.OneRootOneContent` | internal/merkle/tree.go:9-37 | and then one content was chunked into both |
| `Content.SyncedMeansSame` | internal/control/service.go:41-47 | in every run, a diff answer says "in sync" exactly if the pull had read metadata and the chunk list it read is the peer's; then both come from one content |
| `Content.DiffExact` | internal/orchestrator/sync.go:66-97 | in every run, a diff answer says "in sync" exactly if the pull had read metadata with the peer's root, and otherwise lists exactly the peer's chunks that metadata does not name |
| `Content.AgreementIsContent` | internal/daemon/daemon.go:305-332 | in an agreed cluster every node that has the file indexes one content, and its blobs concatenate to it |
| `Content.TwoFilesOneRoot` | internal/merkle/tree.go:9-37 | two different files with one root, without a collision |
| `Gossip.AnnouncementExact` | internal/daemon/daemon.go:221-238 | another node's announcement: the clock takes the greater timestamp, always; one pull is claimed exactly if none of the file is and the file is unknown, or has another root and an older timestamp, or the same one and a smaller name; nothing else changes |
| `Gossip.ListingExact` | internal/daemon/daemon.go:314-331 | a catalogue entry: the same, but the clock hears only of one that wins |
| `Gossip.PublicationReaches` | internal/daemon/daemon.go:209-238 | in every later state of every run the announcement of a publication can be delivered to every other node and to no one else, and claims a pull exactly at those it beats |
| `Gossip.PublicationTold` | internal/daemon/daemon.go:197-215 | a publication adds exactly the announcement of the version it has stored |
| `Gossip.PullTold` | internal/orchestrator/sync.go:217-223 | a pull adds exactly the announcement of the version its commit stored |
| `Gossip.HintsAreTrue` | internal/daemon/daemon.go:209-332 | in every run, every hint names a version its source had stored |
| `Gossip.DatabasesStayHome` | internal/daemon/daemon.go:158-162 | in no reachable state does any node have a version of a database, captured one, or is there a hint about one |
| `Daemon.DbExtIff` | internal/daemon/daemon.go:159-159 | the files left out are those whose last element has the suffix ".db", those that end in it |
| `Exchange.QuiescentIffAgree` | internal/daemon/daemon.go:221-248 | no pairwise exchange starts a sync if and only if all roots are equal |
| `Exchange.AgreementIsAbsorbing` | internal/daemon/daemon.go:305-332 | under either policy, rounds from agreement change nothing |
| `Exchange.RoundsFlatten` | internal/daemon/daemon.go:276-303 | rounds one after the other are one long round |
| `Exchange.NewestStays` | internal/orchestrator/sync.go:84-114 | with any peer list at each exchange, a node that has the greatest timestamp keeps it while it has one root |
| `Exchange.NewestSpreads` | internal/orchestrator/sync.go:84-114 | with any peer list at each exchange: if every node has the newest version at some time or once starts a sync while its first listed holder has it, all roots end up equal |
| `Convergence.Convergence` | internal/daemon/daemon.go:240-248 | if pulls adopted the version that started them: agreement after n * (n * d + 1) complete rounds in any order |
| `FirstPeer.RingConverges` | internal/orchestrator/sync.go:84-114 | with one ring, n rounds for each name that may still take the top lead to agreement |
| `FirstPeer.OneRingConverges` | internal/orchestrator/sync.go:84-114 | with one ring every state agrees after n * n + 1 rounds |
| `FirstPeer.GroupKeepsStep` | internal/orchestrator/sync.go:84-126 | a group that lists itself first and holds one version keeps it, whatever the others hold or do |
| `FirstPeer.LeftBehindStep` | internal/orchestrator/sync.go:84-126 | under either policy, while a version is behind the greatest timestamp, that timestamp is never lost |
| `FirstPeer.GroupStaysBehind` | internal/orchestrator/sync.go:84-126 | so such a group with an older version stays behind in any number of rounds |
| `FirstPeer.ConvergesIffOneRing` | internal/orchestrator/sync.go:84-126 | among any kind of versions with an older and a newer one, the versions converge from every state, within n * n + 1 rounds or within any bound, if and only if the first-listed peers form one ring |
| `FirstPeer.TwoNodesFormARing` | internal/discovery/gossip.go:130-151 | two nodes always form one ring |
| `Progress.StepAdvances` | internal/orchestrator/sync.go:51-227 | every faultless step of a pull, in any order of chunks and workers, keeps it on its way to the end and one step nearer |
| `Progress.NeverStuck` | internal/orchestrator/sync.go:51-227 | anywhere on the way there is a faultless step |
| `Progress.CanGoOn` | internal/orchestrator/sync.go:51-227 | wherever a pull can be, whatever else has happened, there is a faultless step |
| `Progress.WorkersDecide` | internal/orchestrator/sync.go:141-177 | the file is made exactly if every worker has finished, the pull gives up exactly if all are done and one found no holder; an answer ends a worker, right or wrong |
| `Progress.EveryFaultlessPull` | internal/orchestrator/sync.go:51-227 | every sequence of faultless steps of a claimed pull is at most as long as peers passed over, missing chunks and chunks to write add up to; shorter ones can go on; one of that length has ended with the first holder's metadata stored and its content on disk, or with no change if the roots agreed |
| `Interference.OthersKeepGoing` | internal/orchestrator/sync.go:51-227 | whatever another node, the user, another pull or a file change does, short of a restart of the node, leaves the pull where it was |
| `Interference.OwnKeepsGoing` | internal/orchestrator/sync.go:51-227 | every faultless step of its own brings it one step nearer to its end, whatever has happened in between |
| `Interference.EveryPullAmongOthers` | internal/orchestrator/sync.go:51-227 | in every run: if none of its calls fails, its node does not restart and its peer has one version at the diff and at the metadata, the pull's own steps are bounded by the same number as if it were alone, one is always possible, and at the end it has stored that version, unless the roots agreed |
| `Overlap.ToppedStays` | internal/daemon/daemon.go:221-332 | in every run without publications of the file and manual syncs of it, the greatest timestamp of all versions stored, captured or on their way in gossip stays a bound, with one root |
| `Overlap.SettledStays` | internal/orchestrator/sync.go:51-227 | and a node that has it, with no pull of the file before its commit, keeps its version and starts no pull of the file, whatever is delivered, fails or restarts |
| `Overlap.PullFromSettled` | internal/orchestrator/sync.go:51-227 | a faultless pull from such a node, among any other steps: its own steps are bounded, one is always possible, and at its end its node is such a node too, or has kept what it had because the roots were equal |
| `Overlap.UnanimousStays` | internal/daemon/daemon.go:221-332 | equal roots, none different captured, stay so in every run until somebody publishes a change, manual syncs included |
| `Overlap.SettledSpreads` | internal/orchestrator/sync.go:84-126 | in every interleaving without publications and manual syncs of the file: if every node was such a node at some time, all roots are equal at the end, and until somebody publishes a change |
| `Overlap.TwoNodesAgree` | internal/orchestrator/sync.go:84-126 | of two nodes one has the newest version and the other pulls from it without a failure: they agree when that is done, and until somebody publishes a change, whatever else goes on |
| `Rounds.EveryExchange` | internal/daemon/daemon.go:305-332 | every exchange made of such a pull is a run and has the effect of the one-step exchange on the nodes' versions |
| `Rounds.SomeExchange` | internal/daemon/daemon.go:305-332 | and there is one |
| `Rounds.EveryRounds` | internal/daemon/daemon.go:276-332 | the same for any sequence of complete rounds |
| `Rounds.EveryMeeting` | internal/daemon/daemon.go:276-332 | and for any sequence of exchanges with a list of its own for each |
| `Rounds.SomeMeeting` | internal/daemon/daemon.go:276-332 | and from every idle state in order there is a faultless way through any such sequence |
| `Outcome.RingRunAgrees` | internal/daemon/daemon.go:273-332 | with one ring, n * n + 1 complete rounds from any idle cluster in order, gone through in any faultless way, end with one root everywhere |
| `Outcome.RingRunContent` | internal/daemon/daemon.go:273-332 | and, where roots tell chunk lists apart, with one content everywhere |
| `Outcome.NewestSpreadsInRuns` | internal/orchestrator/sync.go:84-114 | with any list at each exchange and any faultless pulls: if every node has the newest version at some time or once starts a sync while its first listed holder has it, all roots end up equal |
| `Writes.WriteLeads` | internal/daemon/daemon.go:158-216 | from any state in which the file is not being assembled, an edit with another root is read, stamped, stored and announced |
| `Outcome.DividedCluster` | internal/daemon/daemon.go:158-216 | for any group of nodes and two contents with different roots there is a run from the initial state to an idle cluster in which the group holds one and everybody else the other, newer one |
| `Outcome.NoRingDiverges` | internal/orchestrator/sync.go:84-126 | without one ring there is a run from the initial state after which no faultless way through any complete rounds ends in agreement |
| `Outcome.ThreeNodesDiverge` | internal/orchestrator/sync.go:84-126 | three nodes, two of which list each other first, are enough |
| `Outcome.RunsConvergeIffOneRing` | internal/orchestrator/sync.go:84-126 | on reachable states and faultless runs: convergence within n * n + 1 rounds, or within any bound, if and only if the first-listed peers form one ring |
| `History.FindRead` | internal/orchestrator/sync.go:66-79 | every pull past its claim and before its commit read the node's metadata at one event, and has been under way since |
| `History.NoRestartUnderWay` | internal/daemon/daemon.go:253-271 | and its node has not restarted since |
| `History.FindCapture` | internal/orchestrator/sync.go:84-114 | metadata a pull carries was captured at one event and was the asked peer's then |
| `Timestamps.LatestHolds` | internal/daemon/daemon.go:188-207 | in every run, what a node has of a file is what an event stored last since any earlier state or, if none did, what it had then; only commits and publications store |
| `Timestamps.CommitFallsIff` | internal/orchestrator/sync.go:217-219 | in every run, a commit puts the captured version in place of the node's own and lowers the timestamp if and only if that own version, the last published since the pull read or the one it read, is newer |
| `Timestamps.PublicationFallsIff` | internal/daemon/daemon.go:197-207 | in every run, a publication lowers the timestamp if and only if the own version, the last stored since the stamp or the one stored then, is newer than the clock at the stamp plus one |
| `Timestamps.NeverFallsIff` | internal/daemon/daemon.go:134-146 | over any stretch of any run a node's timestamp of a file never falls if and only if no such commit and no such publication occurs |
| `Lapses.RestartLosesEdit` | internal/daemon/daemon.go:52-52 | a run in which a node restarts and its user writes once more; the edit is stored below the version it was made on, and every faultless exchange brings that version back |
| `Lapses.PublishedOutOfOrder` | internal/daemon/daemon.go:197-207 | a run of local writes alone at whose end the index has the first and the disk the second |
| `Lapses.WriteBelowPulled` | internal/daemon/daemon.go:253-271 | a run without restart in which a user asks for a file, gets timestamp 2 and writes at timestamp 1 |
| `Lapses.OldContentWins` | internal/daemon/daemon.go:174-186 | a run in which an unchanged file is read, a pull replaces it, and the old content is published as the newest |
| `Timestamps.DroppedIff` | internal/daemon/daemon.go:174-186 | in every run, a comparison drops a change if and only if the version stored last since the reading, or the one stored then, has the root of what was read; one that read the indexed content, if and only if nothing was stored since or the last one stored has that root |
| `Provenance.FindGround` | internal/orchestrator/sync.go:182-215 | in every run, a file a pull is writing is, byte for byte, the chunks written since the pull made it or a user last edited it, over the zeros or the edit |
| `Provenance.PulledIsWholeIff` | internal/orchestrator/sync.go:192-215 | a file last written by a pull is the pulled content if and only if the bytes the pull has not written are already right; if the pull made it and nobody edited it since, if and only if the bytes still to come are zero |
| `Provenance.ReadIsWholeIff` | internal/orchestrator/sync.go:192-215 | in every run, what a change reads is what a user wrote last, or what a pull has written over what was there, and in that case it is the pulled content under exactly those conditions |
| `Provenance.PublishedIsWholeIff` | internal/daemon/daemon.go:174-207 | and so with what is published |
| `Provenance.EveryVersionAuthored` | internal/daemon/daemon.go:158-332 | in every run in which no change reads a half-written file, every version stored or captured by any node was made from a content some user wrote or had at the start |
| `Lapses.HalfPublished` | internal/orchestrator/sync.go:192-215 | in every reachable state in which a pull has written the first chunks of a file, its node can publish exactly these, zero-filled to the announced size, though nobody writes and no call fails |
| `Lapses.NobodyWroteIt` | internal/orchestrator/sync.go:192-215 | in any cluster of two or more nodes, a run in which users write one content only, a pull of it breaks off, and as many zeros are published as the newest version and taken over by a node that has the content |
| `Overwrite.TimestampFalls` | internal/orchestrator/sync.go:84-114 | a run from the initial state after which every faultless exchange with a newer node leaves a node with an older version than it had |
| `Overwrite.LostLocalWrite` | internal/orchestrator/sync.go:217-219 | in any cluster of two or more nodes, a run in which a node publishes and announces a change that no node has at its end |
| `Engine.Launch` | internal/orchestrator/sync.go:132-140 | the "unavailable" return happens before any worker starts, exactly when some chunk has no holder; otherwise one worker per entry starts |
| `Engine.RarityHashes` | internal/scheduler/rarest.go:59-70 | the rarity list is a reordering of the missing list |
| `Engine.RarityIsSound` | internal/orchestrator/sync.go:141-170 | with a holder of everything missing that answers, and no fault, every worker has a holder and succeeds |
| `Engine.UsableIff` | internal/orchestrator/sync.go:85-109 | a peer that answers from its store ends the peer loop exactly if it can be dialled, has the file and hands out its metadata |
| `Engine.Engine.AskPeers` | internal/orchestrator/sync.go:84-121 | the loop ends at the first peer that answers everything and has the file, or at none |
| `Engine.FetchChunk` | internal/orchestrator/sync.go:146-169 | a worker gives up exactly if all its holders fail, and a sound one gets bytes with the right hash |
| `Engine.Engine.RunOne` | internal/orchestrator/sync.go:141-170 | a worker either stores at most one blob or sends one error; the error of the store is dropped |
| `Engine.Engine.RunWorkers` | internal/orchestrator/sync.go:132-177 | at most one error per entry, so sends never block; the check passes exactly when no worker gave up; stored blobs are only added to |
| `Engine.Engine.AssembleFile` | internal/orchestrator/sync.go:182-215 | on success the file is the concatenation of the verified blobs, zero-filled to the announced size |
| `Engine.Engine.Transfer` | internal/orchestrator/sync.go:130-223 | from a chosen peer to the end; what each kind of failure leaves untouched |
| `Engine.Engine.Pull` | internal/orchestrator/sync.go:51-227 | success after assembly: file, stored metadata and one announcement as the chosen peer's metadata says; in sync: no change; error: no metadata, no announcement; other files and blobs untouched; the file touched only after one quiet mark; the pull is a path of protocol actions from claimed to returned; without fault it ends with the first usable peer's metadata |
| `Engine.OutcomeIff` | internal/orchestrator/sync.go:51-227 | how a pull ended tells why: no candidates, no usable peer, in sync and unavailable chunks if and only if that is what happened; every later error only with its cause; success only if nothing failed |
| `Engine.Engine.Sync` | internal/daemon/daemon.go:253-271 | claim, pull, release: a file in `syncing` is left alone, the set is afterwards what it was, other files and blobs too, and the outcomes are those of the pull |
| `Engine.PathKeepsInv` | internal/orchestrator/sync.go:51-227 | along every recorded path of honest pulls the node keeps its invariant |
| `Engine.EngineIntegrity` | internal/orchestrator/sync.go:165-219 | with honest peers that may still send wrong chunk bytes, whatever pulls an engine ran and however they ended, its metadata is genuine, has its root and names only blobs it holds, each hashing to its name |
| `Engine.EngineContent` | internal/orchestrator/sync.go:182-219 | and a file such a pull left is the content its metadata was made from, of the announced size |
| `Daemon.ChunkFile` | internal/chunker/chunker.go:34-75 | all parts in order with their hashes, or nothing, exactly if the file cannot be opened or reading a part fails |
| `Daemon.Daemon.StoreChunks` | internal/daemon/daemon.go:188-195 | hashes and total size of the parts; every blob stored unless the store fails |
| `Daemon.Daemon.Change` | internal/daemon/daemon.go:158-216 | the clock stays exactly for databases, quiet paths, unreadable files and unchanged content, which leave no trace; otherwise blobs, the next timestamp, the index entry and one announcement |
| `Daemon.IngestedByActions` | internal/daemon/daemon.go:158-216 | the specification of a file change is the protocol's read, compare, stamp and publish |
| `Daemon.IngestedIs` | internal/daemon/daemon.go:181-207 | taken together they store the blobs, advance the clock by one and index the version, or do nothing |
| `Daemon.ChangeIsIngest` | internal/daemon/daemon.go:158-216 | what a change that meets no failure leaves in index, clock and store is what the protocol's actions leave |
| `Daemon.Daemon.HandleFileChange` | internal/daemon/daemon.go:158-216 | the handler does to the node what those actions do |
| `Daemon.Daemon.TriggerSync` | internal/daemon/daemon.go:253-271 | the file is in `syncing` afterwards, and one pull is started exactly if it was not before |
| `Daemon.Daemon.HandleAnnouncement` | internal/daemon/daemon.go:221-238 | one's own announcement is dropped; of another's the clock always hears, and one pull is started exactly if it beats the node's version and none is under way; that is the protocol's delivery |
| `Daemon.TakeIsDelivery` | internal/daemon/daemon.go:314-331 | one catalogue entry is a delivery of the protocol |
| `Daemon.ReconcileExact` | internal/daemon/daemon.go:314-331 | after a catalogue exactly the files it wins have joined `syncing`, and the clock is the greatest of its own and the winning timestamps |
| `Daemon.ReconcileOnce` | internal/daemon/daemon.go:314-331 | each file that joined got exactly one pull, however often it is listed |
| `Daemon.Daemon.ReconcileWithPeer` | internal/daemon/daemon.go:305-332 | the loop over the catalogue computes that outcome |

## Left out

- Engine.Engine.RunWorkers: runs the workers one after the other; their interleavings are in the step system, where every order of worker steps is allowed.
- Scheduler.RunWorker: whether the health tracker lets a peer through is an input, because other workers change it meanwhile, and the marks the worker leaves there are not recorded; the tracker itself is in `Backoff`.
- Daemon.Daemon.HandleAnnouncement: a single goroutine; the races on the clock are in `Clock`, those on `syncing` in the step system, where claiming is one step.
- Engine.Engine.Pull: nothing else happens on the node during the pull; what may happen in between is in the step system, of which the pull is a path.
- Daemon.Daemon.ReconcileWithPeer: the index does not change while the catalogue is walked; in the step system each entry is delivered on its own.
- Daemon.ReconcileExact: the same.
- Engine.Engine.Sync: the same between claim and release.
- Progress.EveryFaultlessPull: nothing else moves while the pull runs; `Interference.EveryPullAmongOthers` drops that, for pulls whose list has a holder.
- Rounds.EveryExchange: nothing else moves during the exchange.
- Rounds.EveryRounds: exchanges run one after the other.
- Rounds.EveryMeeting: the same.
- Outcome.RingRunAgrees: exchanges run one after the other, with fixed lists; overlapping pulls may commit versions captured earlier. `Overlap.SettledSpreads` says when they agree all the same.
- Outcome.RingRunContent: the same.
- Outcome.RunsConvergeIffOneRing: the same.
- Outcome.NewestSpreadsInRuns: exchanges run one after the other; `Overlap.SettledSpreads` is the statement for pulls that overlap.
- FirstPeer.ConvergesIffOneRing: the same, on versions alone.
- Exchange.NewestSpreads: pulls are atomic; `Outcome.NewestSpreadsInRuns` says what it means for runs.
- FirstPeer.RingConverges: pulls are atomic and lists are fixed; `Outcome.RingRunAgrees` says what it means for runs.
- FirstPeer.OneRingConverges: the same.
- Store.CasBlobStore.Put: does not model the shared temporary file name; the write and the rename are one step.
- Watcher.NoWriteLost: speaks of states in which the timers have caught up, which `Watcher.EveryWriteReported` shows to come; does not model shutdown, and the callback's check that the path is still a regular file.
- Watcher.EveryWriteReported: does not model that check either, so a path that is no longer a regular file counts as reported.
- Changes.NoEchoAfterPull: gives a condition in events that is enough for a change to be dropped; the exact one is in `Timestamps.DroppedIff`.
- Rounds.SomeMeeting: the exchanges of the way it finds run one after the other.
- Deleting files: the program does not propagate deletions and neither does the model.
- The quiet set in the step system: a file event there may always be taken or not, which covers both answers; the set itself is in `Quiet`.
- HTTP, gRPC, authentication, membership and the bodies of the gossip messages: peers are lists, calls answer or fail.
- The random choice of peers for anti-entropy: rounds are arbitrary sequences of pairs.
- The metadata store as a database, and the catalogue listing: a map keyed by file id.
- `GetFile` of the blob store, the command line, the local HTTP interface (its ingest uses the raw path as file id), and the check that the data directory is not watched: not modelled.
- Chunk offsets and sizes reported by the chunking library: nothing reads them.
