/** Acting on one queued match: `applyMatchDecision` and `repointEntityEdges` of
    `packages/identity/src/review-queue.ts`.  One call is one transaction; a thrown error rolls
    it back, so on failure nothing has changed.  */
module ReviewDecision {
  import opened Options
  import opened Refs
  import opened Graph

  datatype Decision = Merge | Reject

  datatype Failure = RowNotFound | RowNotPending | KeepNotInPair | SideGone | CrossEngagement

  datatype Outcome =
    | RejectApplied
    | MergeApplied(keptEntityId: Id, mergedEntityId: Id, repointedRelationships: nat)
    | Failed(failure: Failure)

  /** Recreate, then delete.  Edges that would duplicate an existing key coalesce, new loops vanish. */
  method RepointEntityEdges(tx: Tables, drop: Id, keep: Id) returns (moved: nat)
    requires drop != keep && KeysUnique(tx.edges)
    modifies tx`edges
    ensures tx.edges == MergedEdges(drop, keep, old(tx.edges))
    ensures moved == |tx.edges| - |Untouched(drop, old(tx.edges))|
  {
    var touching := Touching(drop, tx.edges);
    moved := 0;
    ghost var added: seq<Edge> := [];
    assert tx.edges + added == tx.edges && Untouched(drop, tx.edges) + added == Untouched(drop, tx.edges);
    for i := 0 to |touching|
      invariant tx.edges == old(tx.edges) + added
      invariant NoneTouches(drop, added)
      invariant Untouched(drop, old(tx.edges)) + added ==
        Repointed(drop, keep, Untouched(drop, old(tx.edges)), touching[..i])
      invariant moved == |added|
    {
      assert touching[..i + 1][..i] == touching[..i];
      var image := Image(drop, keep, touching[i]);
      if IsLoop(image) {
        continue;
      }
      SameConflicts(drop, old(tx.edges), added, image);
      if !HasKey(tx.edges, KeyOf(image)) {
        tx.edges := tx.edges + [image];
        added := added + [image];
        moved := moved + 1;
      }
    }
    assert touching[..|touching|] == touching;
    UntouchedAndAdded(drop, old(tx.edges), added);
    tx.edges := Untouched(drop, tx.edges);
  }

  /** The merge half: refs united, edges repointed, the row stamped, the drop deleted with its queue rows. */
  method MergeInto(tx: Tables, norm: Normalizer, i: nat, keep: Id, drop: Id) returns (moved: nat)
    requires tx.Valid() && i < |tx.queue| && {tx.queue[i].entityA, tx.queue[i].entityB} == {keep, drop}
    requires keep in tx.entities && drop in tx.entities && tx.entities[keep].engagement == tx.entities[drop].engagement
    modifies tx
    ensures tx.Valid() && tx.facts == old(tx.facts)
    ensures moved == |tx.edges| - |Untouched(drop, old(tx.edges))|
    ensures tx.entities == MergedEntities(drop, keep, old(tx.entities),
      Union(norm, old(tx.entities)[keep].refs, old(tx.entities)[drop].refs))
    ensures tx.edges == MergedEdges(drop, keep, old(tx.edges))
    ensures tx.queue == Cascaded(drop, old(tx.queue))
    ensures tx.log == old(tx.log) + [MergeLogged(keep, drop, moved)]
  {
    assert tx.queue[i] in tx.queue;
    MergeKeepsWellFormed(drop, keep, tx.entities, tx.facts, tx.edges, tx.queue,
      Union(norm, tx.entities[keep].refs, tx.entities[drop].refs));
    CascadedContents(drop, tx.queue);
    CascadeSweepsStamped(drop, tx.queue, i, tx.queue[i].(status := Merged));
    var refs := UnionRefs(norm, tx.entities[keep].refs, tx.entities[drop].refs);
    tx.entities := tx.entities[keep := tx.entities[keep].(refs := refs)];
    moved := RepointEntityEdges(tx, drop, keep);
    tx.queue := tx.queue[i := tx.queue[i].(status := Merged)];
    tx.log := tx.log + [MergeLogged(keep, drop, moved)];
    tx.entities := tx.entities - {drop};
    tx.queue := Cascaded(drop, tx.queue);
  }

  /** `applyMatchDecision` */
  method ApplyMatchDecision(tx: Tables, norm: Normalizer, queueId: Id, decision: Decision, keepEntityId: Option<Id>)
    returns (r: Outcome)
    requires tx.Valid()
    modifies tx
    ensures tx.Valid() && tx.facts == old(tx.facts)
    ensures r.Failed? <==> Refusal(old(tx.entities), old(tx.queue), queueId, decision, keepEntityId).Some?
    ensures r.Failed? ==> r.failure == Refusal(old(tx.entities), old(tx.queue), queueId, decision, keepEntityId).value
    ensures r.Failed? ==>
      tx.entities == old(tx.entities) && tx.edges == old(tx.edges) && tx.queue == old(tx.queue)
      && tx.log == old(tx.log)
    ensures r.RejectApplied? ==>
      decision.Reject? && tx.entities == old(tx.entities) && tx.edges == old(tx.edges)
      && tx.log == old(tx.log) + [RejectLogged(queueId)]
    ensures r.RejectApplied? ==> RejectedIn(old(tx.queue), queueId, tx.queue)
    ensures r.MergeApplied? ==>
      decision.Merge? && PairChosen(old(tx.queue), queueId, keepEntityId, r.keptEntityId, r.mergedEntityId)
    ensures r.MergeApplied? ==>
      r.keptEntityId in old(tx.entities) && r.mergedEntityId in old(tx.entities) && r.keptEntityId != r.mergedEntityId
    ensures r.MergeApplied? ==>
              tx.entities == MergedEntities(r.mergedEntityId, r.keptEntityId, old(tx.entities),
                                         Union(norm, old(tx.entities)[r.keptEntityId].refs,
                                           old(tx.entities)[r.mergedEntityId].refs))
    ensures r.MergeApplied? ==> tx.edges == MergedEdges(r.mergedEntityId, r.keptEntityId, old(tx.edges))
    ensures r.MergeApplied? ==> r.repointedRelationships == |tx.edges| - |Untouched(r.mergedEntityId, old(tx.edges))|
    ensures r.MergeApplied? ==> tx.queue == Cascaded(r.mergedEntityId, old(tx.queue))
    ensures r.MergeApplied? ==>
      tx.log == old(tx.log) + [MergeLogged(r.keptEntityId, r.mergedEntityId, r.repointedRelationships)]
  {
    var found := FindRow(tx.queue, queueId);
    if found.None? {
      return Failed(RowNotFound);
    }
    var i := found.value;
    var row := tx.queue[i];
    if !row.status.Pending? {
      return Failed(RowNotPending);
    }
    if decision.Reject? {
      tx.queue := tx.queue[i := row.(status := ReviewStatus.Rejected)];
      tx.log := tx.log + [RejectLogged(queueId)];
      StampKeepsOk(tx.entities, old(tx.queue), i, ReviewStatus.Rejected);
      return RejectApplied;
    }
    var keep := if keepEntityId.Some? then keepEntityId.value else row.entityA;
    if keep != row.entityA && keep != row.entityB {
      return Failed(KeepNotInPair);
    }
    var drop := if keep == row.entityA then row.entityB else row.entityA;
    if keep !in tx.entities || drop !in tx.entities {
      return Failed(SideGone);
    }
    if tx.entities[keep].engagement != tx.entities[drop].engagement {
      return Failed(CrossEngagement);
    }
    assert row in tx.queue && keep != drop;
    var moved := MergeInto(tx, norm, i, keep, drop);
    return MergeApplied(keep, drop, moved);
  }

  /** Only the row `queueId` changed, to `rejected`. */
  ghost predicate RejectedIn(before: seq<QueueRow>, queueId: Id, after: seq<QueueRow>) {
    && |after| == |before|
    && (exists i :: 0 <= i < |before| && before[i].id == queueId && before[i].status.Pending?)
    && forall i :: 0 <= i < |before| ==>
         after[i] == if before[i].id == queueId then before[i].(status := ReviewStatus.Rejected) else before[i]
  }

  /** `keep` and `drop` are the two sides of the pending row, `keep` the requested one or else side A. */
  ghost predicate PairChosen(queue: seq<QueueRow>, queueId: Id, keepEntityId: Option<Id>, keep: Id, drop: Id) {
    && (keepEntityId.Some? ==> keep == keepEntityId.value)
    && exists q :: q in queue && q.id == queueId && q.status.Pending?
                   && ((keep == q.entityA && drop == q.entityB)
                     || (keep == q.entityB && drop == q.entityA && keepEntityId.Some?))
  }

  lemma StampKeepsOk(entities: map<Id, Entity>, queue: seq<QueueRow>, i: nat, status: ReviewStatus)
    requires QueueOk(entities, queue) && i < |queue|
    ensures QueueOk(entities, queue[i := queue[i].(status := status)])
    ensures forall q :: q in queue[i := queue[i].(status := status)] ==> exists p :: p in queue && p.id == q.id
  {
    var after := queue[i := queue[i].(status := status)];
    forall q | q in after
      ensures q.entityA < q.entityB && q.entityA in entities && q.entityB in entities
      ensures exists p :: p in queue && p.id == q.id
    {
      var j :| 0 <= j < |after| && after[j] == q;
      assert queue[j] in queue;
    }
  }

  function FindRow(queue: seq<QueueRow>, id: Id): (r: Option<nat>)
    ensures r.Some? ==> r.value < |queue| && queue[r.value].id == id
    ensures r.None? ==> forall q :: q in queue ==> q.id != id
  {
    if queue == [] then None
    else
      var n := |queue| - 1;
      assert queue == queue[..n] + [queue[n]];
      if queue[n].id == id then Some(n) else FindRow(queue[..n], id)
  }

  /** Why a decision is refused, if it is. */
  function Refusal(entities: map<Id, Entity>, queue: seq<QueueRow>, queueId: Id, decision: Decision,
      keepEntityId: Option<Id>): Option<Failure> {
    var found := FindRow(queue, queueId);
    if found.None? then Some(RowNotFound)
    else
      var row := queue[found.value];
      if !row.status.Pending? then Some(RowNotPending)
      else if decision.Reject? then None
      else
        var keep := if keepEntityId.Some? then keepEntityId.value else row.entityA;
        var drop := if keep == row.entityA then row.entityB else row.entityA;
        if keep != row.entityA && keep != row.entityB then Some(KeepNotInPair)
        else if keep !in entities || drop !in entities then Some(SideGone)
        else if entities[keep].engagement != entities[drop].engagement then Some(CrossEngagement)
        else None
  }

  /** The delete at the end removes exactly the old touching edges. */
  lemma {:induction false} UntouchedAndAdded(drop: Id, edges: seq<Edge>, added: seq<Edge>)
    requires NoneTouches(drop, added)
    ensures Untouched(drop, edges + added) == Untouched(drop, edges) + added
  {
    if added == [] {
      assert edges + added == edges && Untouched(drop, edges) + added == Untouched(drop, edges);
    } else {
      var n := |added| - 1;
      var last := added[n];
      UntouchedAndAdded(drop, edges, added[..n]);
      assert edges + added == (edges + added[..n]) + [last];
      UntouchedSnoc(drop, edges + added[..n], last);
      assert (Untouched(drop, edges) + added[..n]) + [last] == Untouched(drop, edges) + added;
    }
  }

  predicate NoneTouches(drop: Id, edges: seq<Edge>) {
    forall i :: 0 <= i < |edges| ==> !Touches(drop, edges[i])
  }

  lemma UntouchedSnoc(drop: Id, edges: seq<Edge>, e: Edge)
    requires !Touches(drop, e)
    ensures Untouched(drop, edges + [e]) == Untouched(drop, edges) + [e]
  {
    assert (edges + [e])[..|edges|] == edges;
  }

  /** The edges still waiting for deletion never cause a conflict: an image touches nothing dropped. */
  lemma SameConflicts(drop: Id, edges: seq<Edge>, added: seq<Edge>, image: Edge)
    requires !Touches(drop, image)
    ensures HasKey(edges + added, KeyOf(image)) <==> HasKey(Untouched(drop, edges) + added, KeyOf(image))
  {
    UntouchedContents(drop, edges);
    if HasKey(edges + added, KeyOf(image)) {
      var e :| e in edges + added && KeyOf(e) == KeyOf(image);
      assert e in Untouched(drop, edges) + added;
    }
    if HasKey(Untouched(drop, edges) + added, KeyOf(image)) {
      var e :| e in Untouched(drop, edges) + added && KeyOf(e) == KeyOf(image);
      assert e in edges + added;
    }
  }

  /** The stamped row goes with the cascade. */
  lemma {:induction false} CascadeSweepsStamped(drop: Id, queue: seq<QueueRow>, i: nat, stamped: QueueRow)
    requires i < |queue| && stamped == queue[i].(status := stamped.status)
    requires queue[i].entityA == drop || queue[i].entityB == drop
    ensures Cascaded(drop, queue[i := stamped]) == Cascaded(drop, queue)
  {
    var n := |queue| - 1;
    if i < n {
      CascadeSweepsStamped(drop, queue[..n], i, stamped);
      assert queue[i := stamped][..n] == queue[..n][i := stamped];
    } else {
      assert queue[i := stamped][..n] == queue[..n];
    }
  }

  /** A pending row with this id whose decision can be carried out: a rejection always, a merge when the side
      to keep is one of its two and both still exist, in one engagement. */
  ghost predicate Actionable(entities: map<Id, Entity>, queue: seq<QueueRow>, queueId: Id, decision: Decision,
      keepEntityId: Option<Id>) {
    exists q :: q in queue && q.id == queueId && q.status == ReviewStatus.Pending
      && (decision.Merge? ==>
            && (keepEntityId.Some? ==> keepEntityId.value == q.entityA || keepEntityId.value == q.entityB)
            && q.entityA in entities && q.entityB in entities
            && entities[q.entityA].engagement == entities[q.entityB].engagement)
  }

  /** A decision is refused exactly when there is no such row. */
  lemma {:induction false} RefusedExactly(entities: map<Id, Entity>, queue: seq<QueueRow>, queueId: Id,
      decision: Decision, keepEntityId: Option<Id>)
    requires QueueOk(entities, queue)
    ensures Refusal(entities, queue, queueId, decision, keepEntityId).None? <==>
      Actionable(entities, queue, queueId, decision, keepEntityId)
  {
    var found := FindRow(queue, queueId);
    if found.Some? {
      forall q | q in queue && q.id == queueId ensures q == queue[found.value] {
        var i :| 0 <= i < |queue| && queue[i] == q;
      }
      assert queue[found.value] in queue;
    }
  }
}
