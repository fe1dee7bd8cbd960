/** Local writes as stretches of runs: a user edits a file, the change is picked up, stamped and published. */
module Writes {
  import opened Base
  import opened Store
  import opened Protocol
  import opened Runs

  /** Nobody is assembling the file. */
  ghost predicate NotAssembling(node: Node, f: string) {
    forall k | k in node.pulls :: node.pulls[k].file == f ==> !node.pulls[k].phase.Assembling?
  }

  /** The node after a user wrote the content and the change was taken in. */
  ghost function Wrote(env: Env, node: Node, f: string, content: Bytes): Node {
    node.(disk := node.disk[f := content], pristine := node.pristine - {f},
          cas := PutAll(env.sha, node.cas, env.split(content)), clock := node.clock + 1,
          meta := node.meta[f := Version(env, f, content, node.clock + 1)])
  }

  lemma UserStep(env: Env, c: Cluster, i: string, f: string, content: Bytes)
    requires i in c.nodes && NotAssembling(c.nodes[i], f)
    ensures var node := c.nodes[i];
      Leads(env, c, [Event(i, UserWrite(f, content))],
            With(c, i, node.(disk := node.disk[f := content], pristine := node.pristine - {f}), c.hints))
  {
    var node := c.nodes[i];
    var after := node.(disk := node.disk[f := content], pristine := node.pristine - {f});
    assert (map k | k in node.pulls :: Soil(node.pulls[k], f)) == node.pulls;
    assert UserWrites(node, f, content) == after;
    LeadsOne(env, c, i, UserWrite(f, content));
    assert c.hints + {} == c.hints;
    assert Protocol.Step(env, c, i, UserWrite(f, content)) == With(c, i, after, c.hints);
  }

  lemma BeginStep(env: Env, c: Cluster, i: string, f: string, g: nat)
    requires i in c.nodes && f in c.nodes[i].disk && g !in c.nodes[i].ingests && !HasDbExt(f)
    requires InWorld(env, c.nodes[i].disk[f])
    ensures Leads(env, c, [Event(i, IngestBegin(g, f))], With(c, i, BeginIngest(c.nodes[i], g, f), c.hints))
  {
    LeadsOne(env, c, i, IngestBegin(g, f));
    assert c.hints + {} == c.hints;
  }

  lemma CompareStep(env: Env, c: Cluster, i: string, g: nat)
    requires i in c.nodes && g in c.nodes[i].ingests && c.nodes[i].ingests[g].Read?
    ensures Leads(env, c, [Event(i, IngestCompare(g))], With(c, i, CompareIngest(env, c.nodes[i], g), c.hints))
  {
    LeadsOne(env, c, i, IngestCompare(g));
    assert c.hints + {} == c.hints;
  }

  lemma StampStep(env: Env, c: Cluster, i: string, g: nat)
    requires i in c.nodes && g in c.nodes[i].ingests && c.nodes[i].ingests[g].Differs?
    ensures Leads(env, c, [Event(i, IngestStamp(g))], With(c, i, StampIngest(env, c.nodes[i], g), c.hints))
  {
    LeadsOne(env, c, i, IngestStamp(g));
    assert c.hints + {} == c.hints;
  }

  lemma PublishStep(env: Env, c: Cluster, i: string, g: nat) returns (hints: set<Hint>)
    requires i in c.nodes && g in c.nodes[i].ingests && c.nodes[i].ingests[g].Stamped?
    ensures Leads(env, c, [Event(i, IngestPublish(g))], With(c, i, PublishIngest(env, c.nodes[i], g), hints))
    ensures var w := c.nodes[i].ingests[g];
      Announced(w.file, Version(env, w.file, w.content, w.ts).merkleRoot, w.ts, i) in hints
  {
    LeadsOne(env, c, i, IngestPublish(g));
    hints := c.hints + Sent(env, i, c.nodes[i], IngestPublish(g));
  }

  /** The node after a user wrote the content and it was read, respectively found to be new. */
  ghost function Edited(node: Node, f: string, content: Bytes, ingests: map<nat, Ingest>): Node {
    node.(disk := node.disk[f := content], pristine := node.pristine - {f}, ingests := ingests)
  }

  /** An edit or a step of a file change. */
  predicate LocalWrite(a: Action) {
    a.UserWrite? || a.IngestBegin? || a.IngestCompare? || a.IngestStamp? || a.IngestPublish?
  }

  /** Only this node does anything, and only this. */
  ghost predicate OnlyWrites(i: string, events: seq<Event>) {
    forall e | e in events :: e.name == i && LocalWrite(e.action)
  }

  ghost predicate NoRestart(events: seq<Event>) {
    forall e | e in events :: !e.action.Restart?
  }

  /** Users write nothing but this content. */
  ghost predicate WriteOnly(content: Bytes, events: seq<Event>) {
    forall e | e in events && e.action.UserWrite? :: e.action.content == content
  }

  /** From the edit to the moment the file has been read. */
  lemma ReadLeads(env: Env, c: Cluster, i: string, f: string, content: Bytes, g: nat) returns (events: seq<Event>)
    requires i in c.nodes && !HasDbExt(f) && InWorld(env, content) && NotAssembling(c.nodes[i], f)
    requires g !in c.nodes[i].ingests
    ensures var node := c.nodes[i];
      Leads(env, c, events, With(c, i, Edited(node, f, content, node.ingests[g := Read(f, content)]), c.hints))
    ensures OnlyWrites(i, events) && WriteOnly(content, events)
  {
    var node := c.nodes[i];
    var node1 := Edited(node, f, content, node.ingests);
    var node2 := Edited(node, f, content, node.ingests[g := Read(f, content)]);
    UserStep(env, c, i, f, content);
    BeginStep(env, With(c, i, node1, c.hints), i, f, g);
    LeadsWith(env, c, i, [Event(i, UserWrite(f, content))], node1, c.hints,
              [Event(i, IngestBegin(g, f))], node2, c.hints);
    events := [Event(i, UserWrite(f, content))] + [Event(i, IngestBegin(g, f))];
  }

  /** From the comparison of a content that differs to the announcement. */
  lemma TakeInLeads(env: Env, c: Cluster, i: string, g: nat) returns (events: seq<Event>, hints: set<Hint>)
    requires i in c.nodes && g in c.nodes[i].ingests && c.nodes[i].ingests[g].Read?
    requires !Indexed(env, c.nodes[i], c.nodes[i].ingests[g].file, c.nodes[i].ingests[g].content)
    ensures var node := c.nodes[i];
      var w := node.ingests[g];
      && Leads(env, c, events, With(c, i, TakenIn(env, node, g), hints))
      && Announced(w.file, Version(env, w.file, w.content, 0).merkleRoot, node.clock + 1, i) in hints
    ensures OnlyWrites(i, events) && (forall e | e in events :: !e.action.UserWrite?)
  {
    var node := c.nodes[i];
    var node1 := CompareIngest(env, node, g);
    var node2 := StampIngest(env, node1, g);
    CompareStep(env, c, i, g);
    StampStep(env, With(c, i, node1, c.hints), i, g);
    var first := [Event(i, IngestCompare(g))] + [Event(i, IngestStamp(g))];
    LeadsWith(env, c, i, [Event(i, IngestCompare(g))], node1, c.hints, [Event(i, IngestStamp(g))], node2, c.hints);
    hints := PublishStep(env, With(c, i, node2, c.hints), i, g);
    TakenInIs(env, node, g);
    LeadsWith(env, c, i, first, node2, c.hints, [Event(i, IngestPublish(g))], TakenIn(env, node, g), hints);
    events := first + [Event(i, IngestPublish(g))];
  }

  /** The node after a change it has read was stored, stamped and published. */
  ghost function TakenIn(env: Env, node: Node, g: nat): Node
    requires g in node.ingests
  {
    var w := node.ingests[g];
    node.(cas := PutAll(env.sha, node.cas, env.split(w.content)), clock := node.clock + 1,
          meta := node.meta[w.file := Version(env, w.file, w.content, node.clock + 1)],
          ingests := node.ingests - {g}, pristine := node.pristine - {w.file})
  }

  lemma TakenInIs(env: Env, node: Node, g: nat)
    requires g in node.ingests && !Indexed(env, node, node.ingests[g].file, node.ingests[g].content)
    ensures PublishIngest(env, StampIngest(env, CompareIngest(env, node, g), g), g) == TakenIn(env, node, g)
  {
    var w := node.ingests[g];
    assert node.ingests[g := Differs(w.file, w.content)][g := Stamped(w.file, w.content, node.clock + 1)] - {g} ==
           node.ingests - {g};
  }

  /** From the edit to the announcement. */
  lemma WriteLeads(env: Env, c: Cluster, i: string, f: string, content: Bytes)
    returns (events: seq<Event>, hints: set<Hint>)
    requires i in c.nodes && !HasDbExt(f) && InWorld(env, content) && NotAssembling(c.nodes[i], f)
    requires !Indexed(env, c.nodes[i], f, content)
    ensures Leads(env, c, events, With(c, i, Wrote(env, c.nodes[i], f, content), hints))
    ensures var v := Version(env, f, content, c.nodes[i].clock + 1); Announced(f, v.merkleRoot, v.lamportTs, i) in hints
    ensures OnlyWrites(i, events) && WriteOnly(content, events)
  {
    var node := c.nodes[i];
    var g := FreshId(node.ingests.Keys);
    var read := ReadLeads(env, c, i, f, content, g);
    var node1 := Edited(node, f, content, node.ingests[g := Read(f, content)]);
    var taken;
    taken, hints := TakeInLeads(env, With(c, i, node1, c.hints), i, g);
    WroteIs(env, node, f, content, g);
    LeadsWith(env, c, i, read, node1, c.hints, taken, Wrote(env, node, f, content), hints);
    events := read + taken;
  }

  lemma WroteIs(env: Env, node: Node, f: string, content: Bytes, g: nat)
    requires g !in node.ingests
    ensures TakenIn(env, Edited(node, f, content, node.ingests[g := Read(f, content)]), g) ==
      Wrote(env, node, f, content)
  {
    assert node.ingests[g := Read(f, content)] - {g} == node.ingests;
    assert (node.pristine - {f}) - {f} == node.pristine - {f};
  }

  // ---- Writing on many nodes ----

  /** The node rests at clock t with this version of the file. */
  ghost predicate RestsAt(node: Node, f: string, v: Option<FileMeta>, t: nat) {
    node.syncing == {} && node.pulls == map[] && node.ingests == map[] && Local(node, f) == v && node.clock == t
  }

  lemma WroteRests(env: Env, node: Node, f: string, content: Bytes, v: Option<FileMeta>, t: nat)
    requires RestsAt(node, f, v, t)
    ensures RestsAt(Wrote(env, node, f, content), f, Some(Version(env, f, content, t + 1)), t + 1)
  {
  }

  lemma OneWritesMore(env: Env, c: Cluster, i: string, f: string, content: Bytes, v: Option<FileMeta>, t: nat)
    returns (events: seq<Event>, c': Cluster)
    requires i in c.nodes && RestsAt(c.nodes[i], f, v, t) && !HasDbExt(f) && InWorld(env, content)
    requires v.Some? ==> v.value.merkleRoot != Version(env, f, content, 0).merkleRoot
    ensures Leads(env, c, events, c') && NoRestart(events) && WriteOnly(content, events)
    ensures c'.nodes.Keys == c.nodes.Keys && forall n | n in c.nodes && n != i :: c'.nodes[n] == c.nodes[n]
    ensures RestsAt(c'.nodes[i], f, Some(Version(env, f, content, t + 1)), t + 1)
  {
    var hints;
    events, hints := WriteLeads(env, c, i, f, content);
    c' := With(c, i, Wrote(env, c.nodes[i], f, content), hints);
    WroteRests(env, c.nodes[i], f, content, v, t);
  }

  /** Every node of the set writes the content. */
  lemma {:induction false} AllWrite(env: Env, c: Cluster, todo: set<string>, f: string, content: Bytes,
                                    v: Option<FileMeta>, t: nat)
    returns (events: seq<Event>, c': Cluster)
    requires todo <= c.nodes.Keys && !HasDbExt(f) && InWorld(env, content)
    requires forall n | n in todo :: RestsAt(c.nodes[n], f, v, t)
    requires v.Some? ==> v.value.merkleRoot != Version(env, f, content, 0).merkleRoot
    ensures Leads(env, c, events, c') && c'.nodes.Keys == c.nodes.Keys && NoRestart(events)
    ensures WriteOnly(content, events)
    ensures forall n | n in todo :: RestsAt(c'.nodes[n], f, Some(Version(env, f, content, t + 1)), t + 1)
    ensures forall n | n in c.nodes && n !in todo :: c'.nodes[n] == c.nodes[n]
    decreases todo
  {
    if todo == {} {
      return [], c;
    }
    var i :| i in todo;
    var first, c1 := OneWritesMore(env, c, i, f, content, v, t);
    var rest;
    rest, c' := AllWrite(env, c1, todo - {i}, f, content, v, t);
    LeadsJoin(env, c, first, c1, rest, c');
    events := first + rest;
    forall n | n in todo ensures RestsAt(c'.nodes[n], f, Some(Version(env, f, content, t + 1)), t + 1) {
      if n == i {
        assert c'.nodes[i] == c1.nodes[i];
      }
    }
  }

  /** A node on which nothing has happened yet, and a cluster of such nodes. */
  ghost function BlankNode(): Node {
    Node(map[], map[], 0, {}, map[], map[], map[], {})
  }

  ghost function Blank(nodes: set<string>): Cluster {
    Cluster(map n | n in nodes :: BlankNode(), {})
  }
}
