/** The graph tables of one tenant, the merge of two entities
    (`packages/identity/src/review-queue.ts`) and what it preserves.  */
module Graph {
  import opened Options
  import opened Refs

  type Id = nat
  type EngagementId = nat

  datatype EntityType = Person | Organization | WorkItem | Document | Meeting

  datatype Entity = Entity(engagement: EngagementId, etype: EntityType, refs: seq<Ref>)

  /** A polymorphic endpoint: `(kind, id)`. */
  datatype Node = EntityNode(id: Id) | FactNode(id: Id)

  datatype Edge = Edge(engagement: EngagementId, from: Node, predicateName: string, to: Node, sourceId: Option<Id>)

  /** What `relationships_edge_uq` is over. */
  type EdgeKey = (Node, string, Node)

  function KeyOf(e: Edge): EdgeKey {
    (e.from, e.predicateName, e.to)
  }

  datatype ReviewStatus = Pending | Merged | Rejected

  datatype QueueRow = QueueRow(id: Id, entityA: Id, entityB: Id, status: ReviewStatus)

  datatype LogEntry = MergeLogged(kept: Id, dropped: Id, repointed: nat) | RejectLogged(queueId: Id)

  // ---------------------------------------------------------------------------
  // Well-formedness
  // ---------------------------------------------------------------------------

  predicate NodeIn(entities: map<Id, Entity>, facts: map<Id, EngagementId>, n: Node, engagement: EngagementId) {
    match n
    case EntityNode(id) => id in entities && entities[id].engagement == engagement
    case FactNode(id) => id in facts && facts[id] == engagement
  }

  /** Both endpoints of every edge exist, in the edge's own engagement. */
  ghost predicate EdgesAttached(entities: map<Id, Entity>, facts: map<Id, EngagementId>, edges: seq<Edge>) {
    forall e :: e in edges ==>
      NodeIn(entities, facts, e.from, e.engagement) && NodeIn(entities, facts, e.to, e.engagement)
  }

  ghost predicate KeysUnique(edges: seq<Edge>) {
    forall i, j :: 0 <= i < j < |edges| ==> KeyOf(edges[i]) != KeyOf(edges[j])
  }

  /** Each queue row names two existing entities, smaller id first; a pair has one row, a row one id. */
  ghost predicate QueueOk(entities: map<Id, Entity>, queue: seq<QueueRow>) {
    && (forall q :: q in queue ==> q.entityA < q.entityB && q.entityA in entities && q.entityB in entities)
    && (forall i, j :: 0 <= i < j < |queue| ==>
          queue[i].id != queue[j].id && (queue[i].entityA, queue[i].entityB) != (queue[j].entityA, queue[j].entityB))
  }

  ghost predicate WellFormed(entities: map<Id, Entity>, facts: map<Id, EngagementId>, edges: seq<Edge>,
      queue: seq<QueueRow>) {
    EdgesAttached(entities, facts, edges) && KeysUnique(edges) && QueueOk(entities, queue)
  }

  /** Adding or renaming nothing away keeps edges attached. */
  lemma MoreNodesKeepAttached(entities: map<Id, Entity>, entities': map<Id, Entity>, facts: map<Id, EngagementId>,
      facts': map<Id, EngagementId>, edges: seq<Edge>)
    requires EdgesAttached(entities, facts, edges)
    requires forall id :: id in entities ==> id in entities' && entities'[id].engagement == entities[id].engagement
    requires forall id :: id in facts ==> id in facts' && facts'[id] == facts[id]
    ensures EdgesAttached(entities', facts', edges)
  {
    forall e | e in edges
      ensures NodeIn(entities', facts', e.from, e.engagement) && NodeIn(entities', facts', e.to, e.engagement)
    {
      assert NodeIn(entities, facts, e.from, e.engagement) && NodeIn(entities, facts, e.to, e.engagement);
    }
  }

  // ---------------------------------------------------------------------------
  // `INSERT ... ON CONFLICT DO NOTHING` on the edge key
  // ---------------------------------------------------------------------------

  predicate HasKey(edges: seq<Edge>, k: EdgeKey) {
    exists e :: e in edges && KeyOf(e) == k
  }

  function InsertEdge(edges: seq<Edge>, e: Edge): (r: seq<Edge>)
    ensures edges <= r
    ensures HasKey(r, KeyOf(e))
  {
    if HasKey(edges, KeyOf(e)) then edges
    else
      assert (edges + [e])[|edges|] == e;
      edges + [e]
  }

  function KeySet(edges: seq<Edge>): set<EdgeKey> {
    set e | e in edges :: KeyOf(e)
  }

  lemma InsertEdgeEffect(edges: seq<Edge>, e: Edge)
    requires KeysUnique(edges)
    ensures KeysUnique(InsertEdge(edges, e))
    ensures KeySet(InsertEdge(edges, e)) == KeySet(edges) + {KeyOf(e)}
  {
    if HasKey(edges, KeyOf(e)) {
      assert KeyOf(e) in KeySet(edges);
    } else {
      forall i | 0 <= i < |edges| ensures KeyOf(edges[i]) != KeyOf(e) {
        assert edges[i] in edges;
      }
      forall k | k in KeySet(edges) + {KeyOf(e)} ensures k in KeySet(edges + [e]) {
        if k == KeyOf(e) {
          assert (edges + [e])[|edges|] == e;
        } else {
          var f :| f in edges && KeyOf(f) == k;
          assert f in edges + [e];
        }
      }
    }
  }

  // ---------------------------------------------------------------------------
  // Repointing
  // ---------------------------------------------------------------------------

  function Sub(drop: Id, keep: Id, n: Node): Node {
    if n == EntityNode(drop) then EntityNode(keep) else n
  }

  predicate Touches(drop: Id, e: Edge) {
    e.from == EntityNode(drop) || e.to == EntityNode(drop)
  }

  function Image(drop: Id, keep: Id, e: Edge): Edge {
    e.(from := Sub(drop, keep, e.from), to := Sub(drop, keep, e.to))
  }

  predicate IsLoop(e: Edge) {
    e.from == e.to
  }

  function Touching(drop: Id, edges: seq<Edge>): seq<Edge> {
    if edges == [] then []
    else
      var r := Touching(drop, edges[..|edges| - 1]);
      if Touches(drop, edges[|edges| - 1]) then r + [edges[|edges| - 1]] else r
  }

  function Untouched(drop: Id, edges: seq<Edge>): seq<Edge> {
    if edges == [] then []
    else
      var r := Untouched(drop, edges[..|edges| - 1]);
      if Touches(drop, edges[|edges| - 1]) then r else r + [edges[|edges| - 1]]
  }

  lemma {:induction false} TouchingContents(drop: Id, edges: seq<Edge>)
    ensures forall e :: e in Touching(drop, edges) <==> e in edges && Touches(drop, e)
  {
    if edges != [] {
      TouchingContents(drop, edges[..|edges| - 1]);
      assert edges == edges[..|edges| - 1] + [edges[|edges| - 1]];
    }
  }

  lemma {:induction false} UntouchedContents(drop: Id, edges: seq<Edge>)
    ensures forall e :: e in Untouched(drop, edges) <==> e in edges && !Touches(drop, e)
  {
    if edges != [] {
      UntouchedContents(drop, edges[..|edges| - 1]);
      assert edges == edges[..|edges| - 1] + [edges[|edges| - 1]];
    }
  }

  /** Onto `base`: the images of `moving`, one after the other, without the new loops. */
  function Repointed(drop: Id, keep: Id, base: seq<Edge>, moving: seq<Edge>): seq<Edge> {
    if moving == [] then base
    else
      var n := |moving| - 1;
      var r := Repointed(drop, keep, base, moving[..n]);
      var image := Image(drop, keep, moving[n]);
      if IsLoop(image) then r else InsertEdge(r, image)
  }

  /** What the merge of `drop` into `keep` makes of the edges. */
  function MergedEdges(drop: Id, keep: Id, edges: seq<Edge>): seq<Edge> {
    Repointed(drop, keep, Untouched(drop, edges), Touching(drop, edges))
  }

  ghost function ImageKeys(drop: Id, keep: Id, moving: seq<Edge>): set<EdgeKey> {
    set e | e in moving && !IsLoop(Image(drop, keep, e)) :: KeyOf(Image(drop, keep, e))
  }

  lemma {:induction false} UntouchedUnique(drop: Id, edges: seq<Edge>)
    requires KeysUnique(edges)
    ensures KeysUnique(Untouched(drop, edges))
  {
    if edges != [] {
      var n := |edges| - 1;
      UntouchedUnique(drop, edges[..n]);
      UntouchedContents(drop, edges[..n]);
      var r := Untouched(drop, edges[..n]);
      forall i | 0 <= i < |r| ensures KeyOf(r[i]) != KeyOf(edges[n]) {
        assert r[i] in edges[..n];
      }
    }
  }

  lemma {:induction false} RepointedEffect(drop: Id, keep: Id, base: seq<Edge>, moving: seq<Edge>)
    requires drop != keep && KeysUnique(base)
    requires forall e :: e in base ==> !Touches(drop, e)
    ensures var r := Repointed(drop, keep, base, moving);
            && base <= r
            && KeysUnique(r)
            && KeySet(r) == KeySet(base) + ImageKeys(drop, keep, moving)
            && (forall e :: e in r ==> !Touches(drop, e))
            && AreImages(drop, keep, |base|, r, moving)
  {
    if moving == [] {
      assert ImageKeys(drop, keep, moving) == {};
    } else {
      var n := |moving| - 1;
      var last := moving[n];
      RepointedEffect(drop, keep, base, moving[..n]);
      assert moving == moving[..n] + [last];
      var before := Repointed(drop, keep, base, moving[..n]);
      var image := Image(drop, keep, last);
      if IsLoop(image) {
        assert ImageKeys(drop, keep, moving) == ImageKeys(drop, keep, moving[..n]);
      } else {
        InsertEdgeEffect(before, image);
        assert ImageKeys(drop, keep, moving) == ImageKeys(drop, keep, moving[..n]) + {KeyOf(image)};
      }
      OneMoreImage(drop, keep, |base|, before, Repointed(drop, keep, base, moving), moving);
    }
  }

  ghost predicate AreImages(drop: Id, keep: Id, from: nat, r: seq<Edge>, moving: seq<Edge>) {
    forall i :: from <= i < |r| ==> IsImage(drop, keep, r[i], moving)
  }

  ghost predicate IsImage(drop: Id, keep: Id, r: Edge, moving: seq<Edge>) {
    !IsLoop(r) && exists e :: e in moving && r == Image(drop, keep, e)
  }

  lemma OneMoreImage(drop: Id, keep: Id, from: nat, before: seq<Edge>, r: seq<Edge>, moving: seq<Edge>)
    requires moving != [] && AreImages(drop, keep, from, before, moving[..|moving| - 1])
    requires var image := Image(drop, keep, moving[|moving| - 1]);
      r == before || (r == before + [image] && !IsLoop(image))
    ensures AreImages(drop, keep, from, r, moving)
  {
    assert moving[|moving| - 1] in moving;
    forall i | from <= i < |before| ensures IsImage(drop, keep, before[i], moving) {
      assert IsImage(drop, keep, before[i], moving[..|moving| - 1]);
      assert forall e :: e in moving[..|moving| - 1] ==> e in moving;
    }
  }

  /** The merged edges: exactly the untouched rows, then images of touching rows; the keys are those of
      the untouched edges together with the images of the touching ones, less the new loops; keys stay
      unique and nothing touches `drop` any more. */
  lemma {:induction false} MergedEdgesExactly(drop: Id, keep: Id, edges: seq<Edge>)
    requires drop != keep && KeysUnique(edges)
    ensures var r := MergedEdges(drop, keep, edges);
            && Untouched(drop, edges) <= r
            && KeysUnique(r)
            && KeySet(r) == KeySet(Untouched(drop, edges)) + ImageKeys(drop, keep, Touching(drop, edges))
            && (forall e :: e in r ==> !Touches(drop, e))
            && (forall i :: |Untouched(drop, edges)| <= i < |r| ==>
                  !IsLoop(r[i]) && exists e :: e in edges && Touches(drop, e) && r[i] == Image(drop, keep, e))
  {
    UntouchedUnique(drop, edges);
    UntouchedContents(drop, edges);
    TouchingContents(drop, edges);
    RepointedEffect(drop, keep, Untouched(drop, edges), Touching(drop, edges));
    var r := MergedEdges(drop, keep, edges);
    forall i | |Untouched(drop, edges)| <= i < |r|
      ensures !IsLoop(r[i]) && exists e :: e in edges && Touches(drop, e) && r[i] == Image(drop, keep, e)
    {
      assert IsImage(drop, keep, r[i], Touching(drop, edges));
      var e :| e in Touching(drop, edges) && r[i] == Image(drop, keep, e);
    }
  }

  // ---------------------------------------------------------------------------
  // The merged edges, field by field
  // ---------------------------------------------------------------------------

  /** `n'` is `n`, with `keep` in the place of `drop`. */
  ghost predicate Moved(drop: Id, keep: Id, n: Node, n': Node) {
    (n == EntityNode(drop) && n' == EntityNode(keep)) || (n != EntityNode(drop) && n' == n)
  }

  ghost predicate TouchesEnd(drop: Id, e: Edge) {
    e.from == EntityNode(drop) || e.to == EntityNode(drop)
  }

  /** `f` is `e` with its ends moved: same engagement, predicate and source, and no loop. */
  ghost predicate CameFrom(drop: Id, keep: Id, e: Edge, f: Edge) {
    && TouchesEnd(drop, e)
    && f.engagement == e.engagement && f.predicateName == e.predicateName && f.sourceId == e.sourceId
    && Moved(drop, keep, e.from, f.from) && Moved(drop, keep, e.to, f.to) && f.from != f.to
  }

  /** The edge's predicate, between the places its ends have moved to. */
  ghost predicate Carries(drop: Id, keep: Id, e: Edge, f: Edge) {
    f.predicateName == e.predicateName && Moved(drop, keep, e.from, f.from) && Moved(drop, keep, e.to, f.to)
  }

  /** Its ends move to different places. */
  ghost predicate StaysApart(drop: Id, keep: Id, e: Edge) {
    forall m, n :: Moved(drop, keep, e.from, m) && Moved(drop, keep, e.to, n) ==> m != n
  }

  /** A merge leaves every edge that does not touch the dropped node, adds only edges that came from a
      touching one with its engagement, predicate and source, and keeps every touching edge's predicate
      between the places of its ends, unless these have become one. */
  lemma {:induction false} MergedEdgesInFields(drop: Id, keep: Id, edges: seq<Edge>)
    requires drop != keep && KeysUnique(edges)
    ensures var r := MergedEdges(drop, keep, edges);
      && (forall e :: e in edges && !TouchesEnd(drop, e) ==> e in r)
      && (forall f :: f in r ==>
        (f in edges && !TouchesEnd(drop, f)) || exists e :: e in edges && CameFrom(drop, keep, e, f))
      && (forall e :: e in edges && TouchesEnd(drop, e) && StaysApart(drop, keep, e) ==>
            exists f :: f in r && Carries(drop, keep, e, f))
  {
    var base, r := Untouched(drop, edges), MergedEdges(drop, keep, edges);
    MergedEdgesExactly(drop, keep, edges);
    UntouchedContents(drop, edges);
    TouchingContents(drop, edges);
    forall e | e in edges && !TouchesEnd(drop, e) ensures e in r {
      var i :| 0 <= i < |base| && base[i] == e;
      assert r[i] == e;
    }
    forall f | f in r
      ensures (f in edges && !TouchesEnd(drop, f)) || exists e :: e in edges && CameFrom(drop, keep, e, f)
    {
      AddedCameFrom(drop, keep, edges, f);
    }
    forall e | e in edges && TouchesEnd(drop, e) && StaysApart(drop, keep, e)
      ensures exists f :: f in r && Carries(drop, keep, e, f)
    {
      TouchingIsCarried(drop, keep, edges, e);
    }
  }

  lemma AddedCameFrom(drop: Id, keep: Id, edges: seq<Edge>, f: Edge)
    requires drop != keep && KeysUnique(edges) && f in MergedEdges(drop, keep, edges)
    ensures (f in edges && !TouchesEnd(drop, f)) || exists e :: e in edges && CameFrom(drop, keep, e, f)
  {
    var base, r := Untouched(drop, edges), MergedEdges(drop, keep, edges);
    MergedEdgesExactly(drop, keep, edges);
    UntouchedContents(drop, edges);
    var i :| 0 <= i < |r| && r[i] == f;
    if i < |base| {
      assert base[i] == f && f in base;
    } else {
      var e :| e in edges && Touches(drop, e) && r[i] == Image(drop, keep, e);
      assert CameFrom(drop, keep, e, f);
    }
  }

  lemma TouchingIsCarried(drop: Id, keep: Id, edges: seq<Edge>, e: Edge)
    requires drop != keep && KeysUnique(edges) && e in edges && TouchesEnd(drop, e) && StaysApart(drop, keep, e)
    ensures exists f :: f in MergedEdges(drop, keep, edges) && Carries(drop, keep, e, f)
  {
    var r, image := MergedEdges(drop, keep, edges), Image(drop, keep, e);
    MergedEdgesExactly(drop, keep, edges);
    TouchingContents(drop, edges);
    assert Moved(drop, keep, e.from, image.from) && Moved(drop, keep, e.to, image.to);
    assert KeyOf(image) in ImageKeys(drop, keep, Touching(drop, edges));
    assert KeyOf(image) in KeySet(r);
    var f :| f in r && KeyOf(f) == KeyOf(image);
    assert Carries(drop, keep, e, f);
  }

  // ---------------------------------------------------------------------------
  // Walks
  // ---------------------------------------------------------------------------

  /** Some edge leads from `m` to `n`. */
  ghost predicate Linked(edges: seq<Edge>, m: Node, n: Node) {
    exists e :: e in edges && e.from == m && e.to == n
  }

  ghost predicate Walk(edges: seq<Edge>, path: seq<Node>) {
    path != [] && forall i :: 0 <= i < |path| - 1 ==> Linked(edges, path[i], path[i + 1])
  }

  lemma {:induction false} LinkSurvives(drop: Id, keep: Id, edges: seq<Edge>, m: Node, n: Node)
    requires drop != keep && KeysUnique(edges) && Linked(edges, m, n)
    ensures || Sub(drop, keep, m) == Sub(drop, keep, n)
            || Linked(MergedEdges(drop, keep, edges), Sub(drop, keep, m), Sub(drop, keep, n))
  {
    MergedEdgesExactly(drop, keep, edges);
    UntouchedContents(drop, edges);
    TouchingContents(drop, edges);
    var r := MergedEdges(drop, keep, edges);
    var e :| e in edges && e.from == m && e.to == n;
    if !Touches(drop, e) {
      assert e in Untouched(drop, edges);
      var i :| 0 <= i < |Untouched(drop, edges)| && Untouched(drop, edges)[i] == e;
      assert r[i] == e;
    } else if !IsLoop(Image(drop, keep, e)) {
      assert KeyOf(Image(drop, keep, e)) in ImageKeys(drop, keep, Touching(drop, edges));
      assert KeyOf(Image(drop, keep, e)) in KeySet(r);
      var f :| f in r && KeyOf(f) == KeyOf(Image(drop, keep, e));
      assert f.from == Sub(drop, keep, m) && f.to == Sub(drop, keep, n);
    }
  }

  /** Every walk from u to v becomes a walk from Sub(u) to Sub(v): merging never disconnects. */
  lemma {:induction false} WalkSurvives(drop: Id, keep: Id, edges: seq<Edge>, path: seq<Node>)
    returns (image: seq<Node>)
    requires drop != keep && KeysUnique(edges) && Walk(edges, path)
    ensures Walk(MergedEdges(drop, keep, edges), image)
    ensures image[0] == Sub(drop, keep, path[0]) && image[|image| - 1] == Sub(drop, keep, path[|path| - 1])
    ensures |image| <= |path|
  {
    if |path| == 1 {
      image := [Sub(drop, keep, path[0])];
    } else {
      var tail := WalkSurvives(drop, keep, edges, path[1..]);
      assert Linked(edges, path[0], path[1]);
      LinkSurvives(drop, keep, edges, path[0], path[1]);
      var head := Sub(drop, keep, path[0]);
      if Linked(MergedEdges(drop, keep, edges), head, Sub(drop, keep, path[1])) {
        image := [head] + tail;
      } else {
        image := tail;
      }
    }
  }

  // ---------------------------------------------------------------------------
  // The merge keeps the tables well formed
  // ---------------------------------------------------------------------------

  function MergedEntities(drop: Id, keep: Id, entities: map<Id, Entity>, refs: seq<Ref>): map<Id, Entity>
    requires keep in entities
  {
    entities[keep := entities[keep].(refs := refs)] - {drop}
  }

  lemma SubStaysIn(drop: Id, keep: Id, entities: map<Id, Entity>, facts: map<Id, EngagementId>, refs: seq<Ref>,
      n: Node, engagement: EngagementId)
    requires drop != keep && drop in entities && keep in entities
      && entities[drop].engagement == entities[keep].engagement
    requires NodeIn(entities, facts, n, engagement)
    ensures NodeIn(MergedEntities(drop, keep, entities, refs), facts, Sub(drop, keep, n), engagement)
  {
  }

  lemma MergeKeepsAttached(drop: Id, keep: Id, entities: map<Id, Entity>, facts: map<Id, EngagementId>,
      edges: seq<Edge>, refs: seq<Ref>)
    requires drop != keep && KeysUnique(edges) && EdgesAttached(entities, facts, edges)
    requires drop in entities && keep in entities && entities[drop].engagement == entities[keep].engagement
    ensures EdgesAttached(MergedEntities(drop, keep, entities, refs), facts, MergedEdges(drop, keep, edges))
  {
    MergedEdgesExactly(drop, keep, edges);
    UntouchedContents(drop, edges);
    var base, r := Untouched(drop, edges), MergedEdges(drop, keep, edges);
    forall f | f in r
      ensures NodeIn(MergedEntities(drop, keep, entities, refs), facts, f.from, f.engagement)
      ensures NodeIn(MergedEntities(drop, keep, entities, refs), facts, f.to, f.engagement)
    {
      var i :| 0 <= i < |r| && r[i] == f;
      var e: Edge;
      if i < |base| {
        e := base[i];
        assert r[i] == e && Image(drop, keep, e) == e;
      } else {
        e :| e in edges && Touches(drop, e) && r[i] == Image(drop, keep, e);
      }
      assert e in edges && f == Image(drop, keep, e);
      SubStaysIn(drop, keep, entities, facts, refs, e.from, e.engagement);
      SubStaysIn(drop, keep, entities, facts, refs, e.to, e.engagement);
    }
  }

  predicate Names(drop: Id, q: QueueRow) {
    q.entityA == drop || q.entityB == drop
  }

  /** The rows that survive the cascade from a deleted entity. */
  function Cascaded(drop: Id, queue: seq<QueueRow>): seq<QueueRow> {
    if queue == [] then []
    else
      var r := Cascaded(drop, queue[..|queue| - 1]);
      if Names(drop, queue[|queue| - 1]) then r else r + [queue[|queue| - 1]]
  }

  lemma {:induction false} CascadedContents(drop: Id, queue: seq<QueueRow>)
    ensures forall q :: q in Cascaded(drop, queue) <==> q in queue && !Names(drop, q)
  {
    if queue != [] {
      CascadedContents(drop, queue[..|queue| - 1]);
      assert queue == queue[..|queue| - 1] + [queue[|queue| - 1]];
    }
  }

  lemma {:induction false} CascadedOk(drop: Id, entities: map<Id, Entity>, queue: seq<QueueRow>)
    requires QueueOk(entities, queue)
    ensures QueueOk(entities - {drop}, Cascaded(drop, queue))
  {
    if queue != [] {
      var n := |queue| - 1;
      assert queue == queue[..n] + [queue[n]];
      CascadedOk(drop, entities, queue[..n]);
      CascadedContents(drop, queue[..n]);
      var r := Cascaded(drop, queue[..n]);
      forall i | 0 <= i < |r|
        ensures r[i].id != queue[n].id && (r[i].entityA, r[i].entityB) != (queue[n].entityA, queue[n].entityB)
      {
        assert r[i] in queue[..n];
      }
    }
  }

  /** The other tables: the dropped entity and the queue rows that name it are gone, the kept one has the
      given refs and its old engagement and type, and everything else is as it was. */
  lemma {:induction false} MergedRowsExactly(drop: Id, keep: Id, entities: map<Id, Entity>, queue: seq<QueueRow>,
      refs: seq<Ref>)
    requires drop != keep && drop in entities && keep in entities
    ensures var r := MergedEntities(drop, keep, entities, refs);
      && (forall id :: id in r <==> id in entities && id != drop)
      && r[keep] == Entity(entities[keep].engagement, entities[keep].etype, refs)
      && (forall id :: id in r && id != keep ==> r[id] == entities[id])
    ensures forall q :: q in Cascaded(drop, queue) <==> q in queue && q.entityA != drop && q.entityB != drop
  {
    CascadedContents(drop, queue);
  }

  /** Merging two entities of one engagement keeps the tables well formed. */
  lemma {:induction false} MergeKeepsWellFormed(drop: Id, keep: Id, entities: map<Id, Entity>,
      facts: map<Id, EngagementId>, edges: seq<Edge>,
                             queue: seq<QueueRow>, refs: seq<Ref>)
    requires drop != keep && WellFormed(entities, facts, edges, queue)
    requires drop in entities && keep in entities && entities[drop].engagement == entities[keep].engagement
    ensures WellFormed(MergedEntities(drop, keep, entities, refs), facts, MergedEdges(drop, keep, edges),
      Cascaded(drop, queue))
  {
    MergeKeepsAttached(drop, keep, entities, facts, edges, refs);
    MergedEdgesExactly(drop, keep, edges);
    CascadedOk(drop, entities, queue);
    assert forall id :: id in entities - {drop} ==> id in MergedEntities(drop, keep, entities, refs);
  }

  /** Ids handed out so far. */
  ghost predicate IdsBelow(entities: map<Id, Entity>, facts: map<Id, EngagementId>, queue: seq<QueueRow>, nextId: Id) {
    && (forall id :: id in entities ==> id < nextId)
    && (forall id :: id in facts ==> id < nextId)
    && (forall q :: q in queue ==> q.id < nextId)
  }

  /** The tables, as one transaction sees and changes them. */
  class Tables {
    var entities: map<Id, Entity>
    var facts: map<Id, EngagementId>
    var edges: seq<Edge>
    var queue: seq<QueueRow>
    var log: seq<LogEntry>
    var nextId: Id

    ghost predicate Valid()
      reads this
    {
      WellFormed(entities, facts, edges, queue) && IdsBelow(entities, facts, queue, nextId)
    }
  }
}
