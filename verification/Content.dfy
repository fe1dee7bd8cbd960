/** What equal roots say about content. Roots of genuine metadata are equal exactly when the chunk lists are, as
    long as no chunk hash doubles as an inner node; and equal chunk lists are equal content, collisions aside. */
module Content {
  import opened Base
  import opened Merkle
  import opened Control
  import opened Assembler
  import opened Protocol
  import opened Integrity
  import opened Runs
  import Exchange

  /** The hashes of the world's chunks. */
  ghost function ChunkHash(env: Env): Hash -> bool {
    (h: Hash) => exists part :: env.world(part) && env.sha(part) == h
  }

  /** Among files of at most n chunks a root belongs to one chunk list (`Merkle.RootsDecideEqualityIff` says when). */
  ghost predicate RootsTell(env: Env, n: nat) {
    CollisionFree(env.sha, ChunkHash(env), n) && NoClash(env.sha, ChunkHash(env), n)
  }

  ghost predicate Short(m: FileMeta, n: nat) {
    |m.chunkHashes| <= n
  }

  lemma GenuineList(env: Env, m: FileMeta, n: nat)
    requires Genuine(env, m) && Short(m, n)
    ensures ListOver(ChunkHash(env), n, m.chunkHashes) && m.merkleRoot == Root(env.sha, m.chunkHashes)
  {
    var content :| InWorld(env, content) && m == Version(env, m.fileId, content, m.lamportTs);
    var parts := env.split(content);
    forall h | h in m.chunkHashes ensures ChunkHash(env)(h) {
      var i :| 0 <= i < |parts| && m.chunkHashes[i] == h;
      assert parts[i] in parts;
      assert env.world(parts[i]) && env.sha(parts[i]) == h;
    }
  }

  lemma RootsAreLists(env: Env, n: nat, a: FileMeta, b: FileMeta)
    requires RootsTell(env, n) && Genuine(env, a) && Genuine(env, b) && Short(a, n) && Short(b, n)
    ensures a.merkleRoot == b.merkleRoot <==> a.chunkHashes == b.chunkHashes
  {
    GenuineList(env, a, n);
    GenuineList(env, b, n);
    if a.merkleRoot == b.merkleRoot {
      EqualRootsEqualLists(env.sha, ChunkHash(env), n, a.chunkHashes, b.chunkHashes);
    }
  }

  lemma SameParts(env: Env, x: Bytes, y: Bytes)
    requires NoCollisions(env) && InWorld(env, x) && InWorld(env, y)
    requires Digests(env.sha, env.split(x)) == Digests(env.sha, env.split(y))
    ensures env.split(x) == env.split(y)
  {
    var p, q := env.split(x), env.split(y);
    assert |p| == |q|;
    forall i | 0 <= i < |p| ensures p[i] == q[i] {
      assert p[i] in p && q[i] in q;
      assert env.sha(p[i]) == Digests(env.sha, p)[i] == Digests(env.sha, q)[i] == env.sha(q[i]);
    }
  }

  /** Two genuine versions with one root were made from one content. */
  lemma OneRootOneContent(env: Env, n: nat, a: FileMeta, b: FileMeta) returns (content: Bytes)
    requires ValidEnv(env) && NoCollisions(env) && RootsTell(env, n)
    requires Genuine(env, a) && Genuine(env, b) && Short(a, n) && Short(b, n) && a.merkleRoot == b.merkleRoot
    ensures a == Version(env, a.fileId, content, a.lamportTs) && b == Version(env, b.fileId, content, b.lamportTs)
  {
    RootsAreLists(env, n, a, b);
    content :| InWorld(env, content) && a == Version(env, a.fileId, content, a.lamportTs);
    var other :| InWorld(env, other) && b == Version(env, b.fileId, other, b.lamportTs);
    SameParts(env, content, other);
    assert Concat(env.split(content)) == content && Concat(env.split(other)) == other;
  }

  /** "In sync" means the same chunks: in every reachable state, whenever a pull takes in a diff answer, that answer
      says "synced" exactly if the pull read metadata at its start and the asked peer's chunk list equals the one
      it read; and then both were made from one content. */
  lemma SyncedMeansSame(env: Env, states: seq<Cluster>, events: seq<Event>, i: nat, n: nat)
    requires Run(env, states, events) && i < |events| && Taken(env, states, events, i)
    requires events[i].action.PullDiff? && RootsTell(env, n)
    requires var node := states[i].nodes[events[i].name];
      var p := node.pulls[events[i].action.k];
      (p.phase.local.Some? ==> Short(p.phase.local.value, n)) &&
      Short(states[i].nodes[p.peers[p.phase.next]].meta[p.file], n)
    ensures var node := states[i].nodes[events[i].name];
      var p := node.pulls[events[i].action.k];
      var local, remote := p.phase.local, states[i].nodes[p.peers[p.phase.next]].meta[p.file];
      && (events[i].action.synced <==> local.Some? && local.value.chunkHashes == remote.chunkHashes)
      && (events[i].action.synced && ValidEnv(env) && NoCollisions(env) ==> exists content ::
            local.value == Version(env, p.file, content, local.value.lamportTs) &&
            remote == Version(env, p.file, content, remote.lamportTs))
  {
    RunInv(env, states, events, i);
    var node := states[i].nodes[events[i].name];
    assert Taken(env, states, events, i);
    var p := node.pulls[events[i].action.k];
    var peer := states[i].nodes[p.peers[p.phase.next]];
    assert NodeInv(env, node) && PullOk(env, node, p);
    assert NodeInv(env, peer) && Stored(env, peer.cas, p.file, peer.meta[p.file]);
    if p.phase.local.Some? {
      RootsAreLists(env, n, p.phase.local.value, peer.meta[p.file]);
      if events[i].action.synced && ValidEnv(env) && NoCollisions(env) {
        var content := OneRootOneContent(env, n, p.phase.local.value, peer.meta[p.file]);
      }
    }
  }

  /** A pull asks for what it lacks: in every run, a diff answer says "synced" exactly if the pull had read metadata
      with the asked peer's root; and otherwise lists each chunk of the peer's file as often as the file has it, if
      the metadata read does not name it, and never if it does. */
  lemma DiffExact(env: Env, states: seq<Cluster>, events: seq<Event>, i: nat, h: Hash)
    requires Run(env, states, events) && i < |events| && Taken(env, states, events, i) && events[i].action.PullDiff?
    ensures var p := states[i].nodes[events[i].name].pulls[events[i].action.k];
      var local, remote := p.phase.local, states[i].nodes[p.peers[p.phase.next]].meta[p.file];
      && (events[i].action.synced <==> local.Some? && local.value.merkleRoot == remote.merkleRoot)
      && multiset(events[i].action.missing)[h] ==
           if events[i].action.synced || (local.Some? && h in local.value.chunkHashes) then 0
           else multiset(remote.chunkHashes)[h]
  {
    var p := states[i].nodes[events[i].name].pulls[events[i].action.k];
    KnownPlusMissingCovers(states[i].nodes[p.peers[p.phase.next]].meta[p.file].chunkHashes, Known(p.phase.local));
  }

  ghost predicate AllShort(c: Cluster, f: string, n: nat) {
    forall k | k in c.nodes && f in c.nodes[k].meta :: Short(c.nodes[k].meta[f], n)
  }

  /** The node's metadata is of this content, and its blobs together are the content. */
  ghost predicate Has(env: Env, node: Node, f: string, content: Bytes) {
    && f in node.meta && node.meta[f] == Version(env, f, content, node.meta[f].lamportTs)
    && Holds(node.cas, node.meta[f].chunkHashes) && Concat(Blobs(node.cas, node.meta[f].chunkHashes)) == content
  }

  /** Every node that has the file has this content. */
  ghost predicate AllHave(env: Env, c: Cluster, f: string, content: Bytes) {
    forall k | k in c.nodes && f in c.nodes[k].meta :: Has(env, c.nodes[k], f, content)
  }

  lemma HasContent(env: Env, n: nat, node: Node, f: string, v: FileMeta, content: Bytes)
    requires ValidEnv(env) && NoCollisions(env) && RootsTell(env, n) && BlobsOk(env, node.cas)
    requires f in node.meta && Stored(env, node.cas, f, node.meta[f]) && Short(node.meta[f], n)
    requires InWorld(env, content) && v == Version(env, f, content, v.lamportTs) && Short(v, n)
    requires node.meta[f].merkleRoot == v.merkleRoot
    ensures Has(env, node, f, content)
  {
    var m := node.meta[f];
    RootsAreLists(env, n, m, v);
    var made :| InWorld(env, made) && m == Version(env, f, made, m.lamportTs);
    SameParts(env, made, content);
    assert Concat(env.split(made)) == made && Concat(env.split(content)) == content;
    SameBlobs(env, node.cas, m, content);
  }

  /** The blobs a node holds for a version are the chunks of the content it was made from. */
  lemma SameBlobs(env: Env, cas: map<Hash, Bytes>, m: FileMeta, content: Bytes)
    requires ValidEnv(env) && NoCollisions(env) && BlobsOk(env, cas) && Holds(cas, m.chunkHashes)
    requires InWorld(env, content) && m.chunkHashes == Digests(env.sha, env.split(content))
    ensures Concat(Blobs(cas, m.chunkHashes)) == content
  {
    var parts, blobs := env.split(content), Blobs(cas, m.chunkHashes);
    forall i | 0 <= i < |parts| ensures blobs[i] == parts[i] {
      assert parts[i] in parts && m.chunkHashes[i] in m.chunkHashes;
      assert env.sha(blobs[i]) == m.chunkHashes[i] == env.sha(parts[i]);
    }
    assert blobs == parts;
  }

  lemma AgreedRoots(c: Cluster, f: string, k: string, o: string)
    requires Exchange.Agree(View(c, f)) && k in c.nodes && f in c.nodes[k].meta && o in c.nodes && f in c.nodes[o].meta
    ensures c.nodes[k].meta[f].merkleRoot == c.nodes[o].meta[f].merkleRoot
  {
    assert Exchange.RootOf(View(c, f)[k]) == Exchange.RootOf(View(c, f)[o]);
  }

  /** Agreement on roots is agreement on content. */
  lemma AgreementIsContent(env: Env, c: Cluster, f: string, n: nat) returns (content: Bytes)
    requires ClusterInv(env, c) && ValidEnv(env) && NoCollisions(env) && RootsTell(env, n) && AllShort(c, f, n)
    requires Exchange.Agree(View(c, f))
    ensures AllHave(env, c, f, content)
  {
    if o :| o in c.nodes && f in c.nodes[o].meta {
      var v := c.nodes[o].meta[f];
      assert NodeInv(env, c.nodes[o]) && Stored(env, c.nodes[o].cas, f, v);
      content :| InWorld(env, content) && v == Version(env, f, content, v.lamportTs);
      forall k | k in c.nodes && f in c.nodes[k].meta ensures Has(env, c.nodes[k], f, content) {
        AgreedRoots(c, f, k, o);
        assert NodeInv(env, c.nodes[k]) && Stored(env, c.nodes[k].cas, f, c.nodes[k].meta[f]);
        HasContent(env, n, c.nodes[k], f, v, content);
      }
    } else {
      content := [];
    }
  }

  /** Without the condition roots do not tell files apart, and it takes no collision: a file of two chunks and the
      file that consists of their two hashes, if it is one chunk, have the same root. */
  lemma TwoFilesOneRoot(env: Env, f: string, a: Bytes, b: Bytes, x: Bytes, y: Bytes, ts: nat)
    requires env.split(a) == [x, y] && b == env.sha(x) + env.sha(y) && env.split(b) == [b]
    ensures Version(env, f, a, ts).merkleRoot == Version(env, f, b, ts).merkleRoot
    ensures Version(env, f, a, ts).chunkHashes != Version(env, f, b, ts).chunkHashes
  {
    var hs := Digests(env.sha, [x, y]);
    assert hs[..1] == [hs[0]] && hs[1..] == [hs[1]];
    assert Root(env.sha, hs) == env.sha(b);
    assert Digests(env.sha, [b]) == [env.sha(b)];
  }
}
