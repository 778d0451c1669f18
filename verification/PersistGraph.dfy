/** `persistGraph` of `packages/identity/src/persist-graph.ts`: what one artifact's records do to
    the graph tables, inside one transaction.  */
module PersistGraph {
  import opened Options
  import opened Refs
  import opened Graph
  import opened GraphWrite

  datatype Record = EntityRecord(canonical: CanonicalEntity) | RelationRecord(from: Ref, predicateName: string, to: Ref)

  datatype Tally = Tally(
    entitiesResolved: nat,
    entitiesUpserted: nat,
    relationshipsUpserted: nat,
    relationshipsDeferred: nat,
    matchCandidatesQueued: nat,
    factsSynthesized: nat,
    newWorkItemEntityIds: seq<Id>)

  /** Everything the records' meaning depends on that is not in the tables. */
  datatype Context = Context(
    engagement: EngagementId,
    norm: Normalizer,
    factOf: FactRef,
    queues: (Entity, Entity) -> bool,        // the fuzzy-match decision on two people
    scans: (Id, Id) -> bool,                 // the other is among the oldest people, up to the scan limit
    changesStatus: nat -> bool)              // `detectStatusChange` on the i-th record and the stored attributes

  predicate IsIdentityRecord(rec: Record) {
    rec.EntityRecord? && IsIdentity(rec.canonical.etype)
  }

  predicate IsUpsertRecord(rec: Record) {
    rec.EntityRecord? && !IsIdentity(rec.canonical.etype)
  }

  function Count(p: Record -> bool, records: seq<Record>): nat {
    if records == [] then 0
    else Count(p, records[..|records| - 1]) + if p(records[|records| - 1]) then 1 else 0
  }

  lemma CountStep(p: Record -> bool, records: seq<Record>, i: nat)
    requires i < |records|
    ensures Count(p, records[..i + 1]) == Count(p, records[..i]) + if p(records[i]) then 1 else 0
  {
    assert records[..i + 1][..i] == records[..i];
  }

  /** `ref` is a ref of an entity record, and of a kind that resolution stores unchanged. */
  predicate NamedBy(norm: Normalizer, rec: Record, ref: Ref) {
    rec.EntityRecord? && ref in rec.canonical.refs && (IsIdentity(rec.canonical.etype) ==> norm(ref) == Some(ref))
  }

  ghost predicate Named(norm: Normalizer, records: seq<Record>, ref: Ref) {
    exists i :: 0 <= i < |records| && NamedBy(norm, records[i], ref)
  }

  /** Every ref named by one of the records satisfying `p` has its node. */
  ghost predicate AllFirm(c: Context, p: Record -> bool, records: seq<Record>, entities: map<Id, Entity>) {
    forall i, ref :: 0 <= i < |records| && p(records[i]) && NamedBy(c.norm, records[i], ref) ==>
      Firm(c.norm, entities, c.engagement, ref)
  }

  lemma GrowsKeepsAllFirm(c: Context, p: Record -> bool, records: seq<Record>, before: map<Id,
      Entity>, after: map<Id, Entity>)
    requires Grows(c.norm, before, after) && AllFirm(c, p, records, before)
    ensures AllFirm(c, p, records, after)
  {
    forall i, ref | 0 <= i < |records| && p(records[i]) && NamedBy(c.norm, records[i], ref)
      ensures Firm(c.norm, after, c.engagement, ref)
    {
      GrowsKeepsFirm(c.norm, before, after, c.engagement, ref);
    }
  }

  // ---------------------------------------------------------------------------
  // The review queue
  // ---------------------------------------------------------------------------

  predicate HasPair(queue: seq<QueueRow>, a: Id, b: Id) {
    exists i :: 0 <= i < |queue| && queue[i].entityA == a && queue[i].entityB == b
  }

  predicate Paired(queue: seq<QueueRow>, x: Id, y: Id) {
    if x < y then HasPair(queue, x, y) else HasPair(queue, y, x)
  }

  function PairRow(id: Id, x: Id, y: Id): QueueRow {
    QueueRow(id, if x < y then x else y, if x < y then y else x, Pending)
  }

  /** `enqueue`: the unordered pair is stored smaller id first, and at most once. */
  method EnqueuePair(tx: Tables, x: Id, y: Id) returns (queued: bool)
    requires tx.Valid() && x != y && x in tx.entities && y in tx.entities
    modifies tx`queue, tx`nextId
    ensures tx.Valid() && Paired(tx.queue, x, y)
    ensures queued <==> !Paired(old(tx.queue), x, y)
    ensures tx.queue == old(tx.queue) + if queued then [PairRow(old(tx.nextId), x, y)] else []
  {
    var (a, b) := if x < y then (x, y) else (y, x);
    if HasPair(tx.queue, a, b) {
      return false;
    }
    forall i | 0 <= i < |tx.queue| ensures tx.queue[i].id != tx.nextId {
      assert tx.queue[i] in tx.queue;
    }
    tx.queue := tx.queue + [PairRow(tx.nextId, x, y)];
    tx.nextId := tx.nextId + 1;
    assert tx.queue[|tx.queue| - 1].entityA == a && tx.queue[|tx.queue| - 1].entityB == b;
    return true;
  }

  /** Another person the decision picks to review against `self`. */
  predicate Alike(entities: map<Id, Entity>, c: Context, self: Id, other: Id) {
    && self in entities && other in entities && other != self
    && entities[self].etype.Person? && entities[other].etype.Person?
    && c.scans(self, other) && c.queues(entities[self], entities[other])
  }

  /** The row queues `self` with a person the decision picks. */
  ghost predicate Picked(entities: map<Id, Entity>, c: Context, self: Id, q: QueueRow) {
    exists other :: Alike(entities, c, self, other) && q == PairRow(q.id, self, other)
  }

  /** Where the scan stands: new rows are picked pairs, and every pick that is no longer waiting is queued. */
  ghost predicate Scanned(entities: map<Id, Entity>, c: Context, self: Id, before: seq<QueueRow>, now: seq<QueueRow>,
      waiting: set<Id>) {
    && before <= now
    && (forall i :: |before| <= i < |now| ==> Picked(entities, c, self, now[i]))
    && forall other :: Alike(entities, c, self, other) && other !in waiting ==> Paired(now, self, other)
  }

  /** `findMatchCandidates` over the tenant's other people: exactly the picked pairs are in the queue afterwards. */
  method QueueMatches(tx: Tables, c: Context, self: Id) returns (queued: nat)
    requires tx.Valid() && self in tx.entities
    modifies tx`queue, tx`nextId
    ensures tx.Valid() && old(tx.queue) <= tx.queue
    ensures queued == |tx.queue| - |old(tx.queue)|
    ensures forall i :: |old(tx.queue)| <= i < |tx.queue| ==> Picked(tx.entities, c, self, tx.queue[i])
    ensures forall other :: Alike(tx.entities, c, self, other) ==> Paired(tx.queue, self, other)
  {
    queued := 0;
    if !tx.entities[self].etype.Person? {
      return;
    }
    var others := set id | id in tx.entities && id != self && tx.entities[id].etype.Person? && c.scans(self, id);
    while others != {}
      invariant forall id :: id in others ==>
        id in tx.entities && id != self && tx.entities[id].etype.Person? && c.scans(self, id)
      invariant tx.Valid() && Scanned(tx.entities, c, self, old(tx.queue), tx.queue, others)
      invariant queued == |tx.queue| - |old(tx.queue)|
      decreases others
    {
      var other :| other in others;
      others := others - {other};
      if c.queues(tx.entities[self], tx.entities[other]) {
        ghost var before := tx.queue;
        var added := EnqueuePair(tx, self, other);
        queued := queued + if added then 1 else 0;
        ScannedStep(tx.entities, c, self, old(tx.queue), before, tx.queue, others, other);
      }
    }
  }

  lemma ScannedStep(entities: map<Id, Entity>, c: Context, self: Id, start: seq<QueueRow>, before: seq<QueueRow>,
      now: seq<QueueRow>, waiting: set<Id>, other: Id)
    requires Scanned(entities, c, self, start, before, waiting + {other}) && Alike(entities, c, self, other)
    requires before <= now && Paired(now, self, other)
    requires now == before || (|now| == |before| + 1 && now[|before|] == PairRow(now[|before|].id, self, other))
    ensures Scanned(entities, c, self, start, now, waiting)
  {
    PairedStays(before, now, self);
    if now != before {
      assert Picked(entities, c, self, now[|before|]);
    }
  }

  lemma PairedStays(before: seq<QueueRow>, after: seq<QueueRow>, x: Id)
    requires before <= after
    ensures forall y :: Paired(before, x, y) ==> Paired(after, x, y)
  {
    forall y | Paired(before, x, y) ensures Paired(after, x, y) {
      var (a, b) := if x < y then (x, y) else (y, x);
      var i :| 0 <= i < |before| && before[i].entityA == a && before[i].entityB == b;
      assert after[i] == before[i];
    }
  }

  // ---------------------------------------------------------------------------
  // The three loops
  // ---------------------------------------------------------------------------

  /** The entities and the review queue between two records of the first loop. */
  datatype Moment = Moment(entities: map<Id, Entity>, queue: seq<QueueRow>)

  /** The record was resolved to row `id`, and then exactly the picked pairs with it were queued. */
  ghost predicate ResolvedTo(c: Context, rec: Record, m: Moment, m': Moment, id: Id, tier: Option<nat>) {
    && rec.EntityRecord? && ResolvedAs(c.norm, c.engagement, rec.canonical, m.entities, m'.entities, id, tier)
    && Scanned(m'.entities, c, id, m.queue, m'.queue, {})
  }

  ghost predicate ResolvedOne(c: Context, rec: Record, m: Moment, m': Moment) {
    if IsIdentityRecord(rec) then exists id, tier :: ResolvedTo(c, rec, m, m', id, tier) else m' == m
  }

  /** `moments[i]` is what record `i` met. */
  ghost predicate Resolution(c: Context, records: seq<Record>, moments: seq<Moment>) {
    |moments| == |records| + 1 && forall i :: 0 <= i < |records| ==> ResolvedAt(c, records, moments, i)
  }

  ghost predicate ResolvedAt(c: Context, records: seq<Record>, moments: seq<Moment>, i: nat)
    requires i < |records| && i + 1 < |moments|
  {
    ResolvedOne(c, records[i], moments[i], moments[i + 1])
  }

  /** ... from `before` to `after`. */
  ghost predicate Went(c: Context, records: seq<Record>, moments: seq<Moment>, before: Moment, after: Moment) {
    Resolution(c, records, moments) && moments[0] == before && moments[|records|] == after
  }

  lemma WentStep(c: Context, records: seq<Record>, i: nat, moments: seq<Moment>, before: Moment, m: Moment, m': Moment)
    requires i < |records| && Went(c, records[..i], moments, before, m) && ResolvedOne(c, records[i], m, m')
    ensures Went(c, records[..i + 1], moments + [m'], before, m')
  {
    ResolutionStep(c, records, i, moments, m');
  }

  lemma ResolutionStep(c: Context, records: seq<Record>, i: nat, moments: seq<Moment>, m: Moment)
    requires i < |records| && Resolution(c, records[..i], moments) && ResolvedOne(c, records[i], moments[i], m)
    ensures Resolution(c, records[..i + 1], moments + [m])
  {
    var done, all := records[..i + 1], moments + [m];
    forall j | 0 <= j <= i ensures ResolvedAt(c, done, all, j) {
      if j < i {
        assert ResolvedAt(c, records[..i], moments, j);
      }
    }
  }

  /** Rows that are new are of an identity type. */
  ghost predicate NewAreIdentities(before: map<Id, Entity>, after: map<Id, Entity>) {
    forall id :: id in after && id !in before ==> IsIdentity(after[id].etype)
  }

  /** What resolving a record comes to, for the records after it. */
  ghost predicate RecordResolved(c: Context, rec: Record, m: Moment, m': Moment) {
    && ResolvedOne(c, rec, m, m')
    && Grows(c.norm, m.entities, m'.entities) && m.queue <= m'.queue && NewAreIdentities(m.entities, m'.entities)
    && (IsIdentityRecord(rec) ==>
          && (forall ref :: NamedBy(c.norm, rec, ref) ==> Firm(c.norm, m'.entities, c.engagement, ref))
          && (Anchored(c.norm, rec.canonical) ==> KnownFirmly(c.norm, c.engagement, rec.canonical, m'.entities))
          && (m'.entities.Keys == m.entities.Keys <==> Known(c.norm, c.engagement, rec.canonical, m.entities)))
  }

  /** One person or organization: resolved, then scanned for near-duplicates. */
  method ResolveRecord(tx: Tables, c: Context, rec: Record) returns (queued: nat)
    requires tx.Valid() && IsIdentityRecord(rec)
    modifies tx`entities, tx`queue, tx`nextId
    ensures tx.Valid() && queued == |tx.queue| - |old(tx.queue)|
    ensures RecordResolved(c, rec, Moment(old(tx.entities), old(tx.queue)), Moment(tx.entities, tx.queue))
  {
    var id, tier := ResolveEntity(tx, c.norm, c.engagement, rec.canonical);
    CreatesExactly(c.norm, c.engagement, rec.canonical, old(tx.entities), tx.entities, id, tier);
    if Anchored(c.norm, rec.canonical) {
      AnchoredBecomesKnown(c.norm, c.engagement, rec.canonical, old(tx.entities), tx.entities, id, tier);
    }
    queued := QueueMatches(tx, c, id);
    assert ResolvedTo(c, rec, Moment(old(tx.entities), old(tx.queue)), Moment(tx.entities, tx.queue), id, tier);
  }

  lemma NewAreIdentitiesTransitive(a: map<Id, Entity>, b: map<Id, Entity>, c: map<Id, Entity>, norm: Normalizer)
    requires NewAreIdentities(a, b) && NewAreIdentities(b, c) && Grows(norm, b, c)
    ensures NewAreIdentities(a, c)
  {
  }

  lemma AllFirmStep(c: Context, p: Record -> bool, records: seq<Record>, i: nat, before: map<Id,
      Entity>, after: map<Id, Entity>)
    requires i < |records| && Grows(c.norm, before, after) && AllFirm(c, p, records[..i], before)
    requires p(records[i]) ==> forall ref :: NamedBy(c.norm, records[i], ref) ==> Firm(c.norm, after, c.engagement, ref)
    ensures AllFirm(c, p, records[..i + 1], after)
  {
    GrowsKeepsAllFirm(c, p, records[..i], before, after);
    ghost var done := records[..i + 1];
    forall j, ref | 0 <= j < |done| && p(done[j]) && NamedBy(c.norm, done[j], ref)
      ensures Firm(c.norm, after, c.engagement, ref)
    {
      if j < i {
        assert records[..i][j] == done[j];
      }
    }
  }

  lemma GrowsReflexive(norm: Normalizer, entities: map<Id, Entity>)
    ensures Grows(norm, entities, entities)
  {
  }

  /** Each person and organization with a lasting key is found again by it. */
  ghost predicate AllKnown(c: Context, records: seq<Record>, entities: map<Id, Entity>) {
    forall i :: 0 <= i < |records| && IsIdentityRecord(records[i]) && Anchored(c.norm, records[i].canonical) ==>
      KnownFirmly(c.norm, c.engagement, records[i].canonical, entities)
  }

  /** Each person and organization has a ref that is looked up and that the normalizer leaves alone. */
  ghost predicate AllAnchored(c: Context, records: seq<Record>) {
    forall i :: 0 <= i < |records| && IsIdentityRecord(records[i]) ==> Anchored(c.norm, records[i].canonical)
  }

  lemma GrowsKeepsAllKnown(c: Context, records: seq<Record>, before: map<Id, Entity>, after: map<Id, Entity>)
    requires Grows(c.norm, before, after) && AllKnown(c, records, before)
    ensures AllKnown(c, records, after)
  {
    forall i | 0 <= i < |records| && IsIdentityRecord(records[i]) && Anchored(c.norm, records[i].canonical)
      ensures KnownFirmly(c.norm, c.engagement, records[i].canonical, after)
    {
      GrowsKeepsKnown(c.norm, c.engagement, records[i].canonical, before, after);
    }
  }

  lemma AllKnownStep(c: Context, records: seq<Record>, i: nat, before: map<Id, Entity>, after: map<Id, Entity>)
    requires i < |records| && Grows(c.norm, before, after) && AllKnown(c, records[..i], before)
    requires IsIdentityRecord(records[i]) && Anchored(c.norm, records[i].canonical) ==>
      KnownFirmly(c.norm, c.engagement, records[i].canonical, after)
    ensures AllKnown(c, records[..i + 1], after)
  {
    GrowsKeepsAllKnown(c, records[..i], before, after);
    assert records[..i + 1] == records[..i] + [records[i]];
  }

  /** Nothing new is made of what is known from the start. */
  ghost predicate KnownAddsNone(c: Context, records: seq<Record>, before: map<Id, Entity>, after: map<Id, Entity>) {
    AllAnchored(c, records) && AllKnown(c, records, before) ==> after.Keys == before.Keys
  }

  lemma KnownAddsNoneStep(c: Context, records: seq<Record>, i: nat, start: map<Id, Entity>, before: map<Id, Entity>,
      after: map<Id, Entity>)
    requires i < |records| && Grows(c.norm, start, before) && KnownAddsNone(c, records, start, before)
    requires IsIdentityRecord(records[i])
    requires after.Keys == before.Keys <==> Known(c.norm, c.engagement, records[i].canonical, before)
    ensures KnownAddsNone(c, records, start, after)
  {
    if AllAnchored(c, records) && AllKnown(c, records, start) {
      GrowsKeepsKnown(c.norm, c.engagement, records[i].canonical, start, before);
    }
  }

  /** Where the first loop stands after `records[..i]`. */
  ghost predicate ResolvedUpTo(c: Context, records: seq<Record>, i: nat, moments: seq<Moment>, start: Moment,
      now: Moment)
    requires i <= |records|
  {
    && Grows(c.norm, start.entities, now.entities) && start.queue <= now.queue
    && NewAreIdentities(start.entities, now.entities)
    && AllFirm(c, IsIdentityRecord, records[..i], now.entities)
    && AllKnown(c, records[..i], now.entities) && KnownAddsNone(c, records, start.entities, now.entities)
    && Went(c, records[..i], moments, start, now)
  }

  lemma ResolvedNone(c: Context, records: seq<Record>, start: Moment)
    ensures ResolvedUpTo(c, records, 0, [start], start, start)
  {
    GrowsReflexive(c.norm, start.entities);
  }

  lemma ResolvedNext(c: Context, records: seq<Record>, i: nat, moments: seq<Moment>, start: Moment, m: Moment,
      m': Moment)
    requires i < |records| && ResolvedUpTo(c, records, i, moments, start, m) && RecordResolved(c, records[i], m, m')
    ensures ResolvedUpTo(c, records, i + 1, moments + [m'], start, m')
  {
    GrowsTransitive(c.norm, start.entities, m.entities, m'.entities);
    NewAreIdentitiesTransitive(start.entities, m.entities, m'.entities, c.norm);
    AllFirmStep(c, IsIdentityRecord, records, i, m.entities, m'.entities);
    AllKnownStep(c, records, i, m.entities, m'.entities);
    if IsIdentityRecord(records[i]) {
      KnownAddsNoneStep(c, records, i, start.entities, m.entities, m'.entities);
    }
    WentStep(c, records, i, moments, start, m, m');
  }

  lemma NotResolved(c: Context, rec: Record, m: Moment)
    requires !IsIdentityRecord(rec)
    ensures RecordResolved(c, rec, m, m)
  {
    GrowsReflexive(c.norm, m.entities);
  }

  /** `resolveNormalizedRecords` */
  method ResolveRecords(tx: Tables, c: Context, records: seq<Record>)
    returns (resolved: nat, queued: nat, ghost moments: seq<Moment>)
    requires tx.Valid()
    modifies tx`entities, tx`queue, tx`nextId
    ensures tx.Valid() && Grows(c.norm, old(tx.entities), tx.entities) && old(tx.queue) <= tx.queue
    ensures resolved == Count(IsIdentityRecord, records)
    ensures queued == |tx.queue| - |old(tx.queue)|
    ensures AllFirm(c, IsIdentityRecord, records, tx.entities)
    ensures NewAreIdentities(old(tx.entities), tx.entities)
    ensures AllKnown(c, records, tx.entities) && KnownAddsNone(c, records, old(tx.entities), tx.entities)
    ensures Went(c, records, moments, Moment(old(tx.entities), old(tx.queue)), Moment(tx.entities, tx.queue))
  {
    ghost var start := Moment(tx.entities, tx.queue);
    resolved, queued, moments := 0, 0, [start];
    ResolvedNone(c, records, start);
    for i := 0 to |records|
      invariant tx.Valid() && ResolvedUpTo(c, records, i, moments, start, Moment(tx.entities, tx.queue))
      invariant resolved == Count(IsIdentityRecord, records[..i])
      invariant queued == |tx.queue| - |old(tx.queue)|
    {
      CountStep(IsIdentityRecord, records, i);
      ghost var before := Moment(tx.entities, tx.queue);
      if IsIdentityRecord(records[i]) {
        var added := ResolveRecord(tx, c, records[i]);
        resolved, queued := resolved + 1, queued + added;
      } else {
        NotResolved(c, records[i], before);
      }
      ResolvedNext(c, records, i, moments, start, before, Moment(tx.entities, tx.queue));
      moments := moments + [Moment(tx.entities, tx.queue)];
    }
    assert records[..|records|] == records;
  }

  /** The work items created since `before`, each once. */
  ghost predicate NewWorkItems(before: map<Id, Entity>, after: map<Id, Entity>, ids: seq<Id>) {
    && (forall id :: id in ids <==> id in after && id !in before && after[id].etype.WorkItem?)
    && (forall j, k :: 0 <= j < k < |ids| ==> ids[j] != ids[k])
  }

  ghost predicate FactsAdded(engagement: EngagementId, before: map<Id, EngagementId>, after: map<Id, EngagementId>,
      count: nat) {
    && |after| == |before| + count && (forall id :: id in before ==> id in after && after[id] == before[id])
    && forall id :: id in after && id !in before ==> after[id] == engagement
  }

  lemma MoreFactsAdded(engagement: EngagementId, a: map<Id, EngagementId>, b: map<Id, EngagementId>,
      c: map<Id, EngagementId>, count: nat, more: nat)
    requires FactsAdded(engagement, a, b, count) && FactsAdded(engagement, b, c, more)
    ensures FactsAdded(engagement, a, c, count + more)
  {
  }

  /** The record finds a row that is there already. */
  predicate Matches(c: Context, rec: Record, entities: map<Id, Entity>) {
    IsUpsertRecord(rec) && Hits(entities, c.engagement, rec.canonical.etype, rec.canonical.refs) != {}
  }

  /** Row `id` matched and gained the refs it lacked, or nothing did and it is new; no other row changed. */
  ghost predicate UpsertedTo(c: Context, rec: Record, before: map<Id, Entity>, after: map<Id, Entity>, id: Id) {
    rec.EntityRecord? && var (etype, refs) := (rec.canonical.etype, rec.canonical.refs);
      if id in Hits(before, c.engagement, etype, refs) then
        after == before[id := before[id].(refs := Dedupe(before[id].refs + Dedupe(refs)))]
      else
        id !in before && !Matches(c, rec, before) && after == before[id := Entity(c.engagement, etype, Dedupe(refs))]
  }

  /** One row more if the record is to be upserted and matches none; afterwards it matches one. */
  ghost predicate OneUpserted(c: Context, rec: Record, before: map<Id, Entity>, after: map<Id, Entity>) {
    && Grows(c.norm, before, after) && (IsUpsertRecord(rec) ==> Matches(c, rec, after))
    && |after| == |before| + (if IsUpsertRecord(rec) && !Matches(c, rec, before) then 1 else 0)
    && (if IsUpsertRecord(rec) then exists id :: UpsertedTo(c, rec, before, after, id) else after == before)
  }

  /** `states[i]` is the entity table that record `i` met. */
  ghost predicate Trace(c: Context, records: seq<Record>, states: seq<map<Id, Entity>>) {
    |states| == |records| + 1 && forall i :: 0 <= i < |records| ==> UpsertedAt(c, records, states, i)
  }

  ghost predicate UpsertedAt(c: Context, records: seq<Record>, states: seq<map<Id, Entity>>, i: nat)
    requires i < |records| && i + 1 < |states|
  {
    OneUpserted(c, records[i], states[i], states[i + 1])
  }

  /** A fact for each record that matched an existing row and shows a change of status. */
  ghost function FactsDue(c: Context, records: seq<Record>, states: seq<map<Id, Entity>>): nat
    requires |states| > |records|
  {
    if records == [] then 0
    else
      var i := |records| - 1;
      FactsDue(c, records[..i], states) + if Matches(c, records[i], states[i]) && c.changesStatus(i) then 1 else 0
  }

  lemma {:induction false} FactsDueEarly(c: Context, records: seq<Record>, states: seq<map<Id, Entity>>,
      more: map<Id, Entity>)
    requires |states| > |records|
    ensures FactsDue(c, records, states + [more]) == FactsDue(c, records, states)
  {
    if records != [] {
      FactsDueEarly(c, records[..|records| - 1], states, more);
    }
  }

  lemma TraceStep(c: Context, records: seq<Record>, i: nat, states: seq<map<Id, Entity>>, after: map<Id, Entity>)
    requires i < |records| && Trace(c, records[..i], states) && OneUpserted(c, records[i], states[i], after)
    ensures Trace(c, records[..i + 1], states + [after])
    ensures FactsDue(c, records[..i + 1], states + [after]) ==
      FactsDue(c, records[..i], states) + if Matches(c, records[i], states[i]) && c.changesStatus(i) then 1 else 0
  {
    assert records[..i + 1][..i] == records[..i];
    FactsDueEarly(c, records[..i], states, after);
    var done, all := records[..i + 1], states + [after];
    forall j | 0 <= j <= i ensures UpsertedAt(c, done, all, j) {
      if j < i {
        assert UpsertedAt(c, records[..i], states, j);
      }
    }
  }

  /** One work item, document or meeting: upserted, and a fact for an observed transition. */
  method UpsertRecord(tx: Tables, c: Context, rec: Record, i: nat) returns (synthesized: nat, newWorkItems: seq<Id>)
    requires tx.Valid() && IsUpsertRecord(rec) && HasRefs(rec)
    modifies tx`entities, tx`facts, tx`nextId
    ensures tx.Valid() && Grows(c.norm, old(tx.entities), tx.entities)
    ensures FactsAdded(c.engagement, old(tx.facts), tx.facts, synthesized)
    ensures OneUpserted(c, rec, old(tx.entities), tx.entities)
    ensures synthesized == if Matches(c, rec, old(tx.entities)) && c.changesStatus(i) then 1 else 0
    ensures forall ref :: NamedBy(c.norm, rec, ref) ==> Firm(c.norm, tx.entities, c.engagement, ref)
    ensures NewWorkItems(old(tx.entities), tx.entities, newWorkItems)
  {
    var id, created := UpsertEntityByRef(tx, c.norm, c.engagement, rec.canonical);
    newWorkItems := if created && rec.canonical.etype.WorkItem? then [id] else [];
    assert rec.canonical.refs[0] in rec.canonical.refs;
    assert id in Hits(tx.entities, c.engagement, rec.canonical.etype, rec.canonical.refs);
    assert UpsertedTo(c, rec, old(tx.entities), tx.entities, id);
    synthesized := 0;
    if !created && c.changesStatus(i) {
      InsertFact(tx, c.engagement);
      synthesized := 1;
    }
  }

  lemma NewWorkItemsAppend(norm: Normalizer, a: map<Id, Entity>, b: map<Id, Entity>, c: map<Id, Entity>,
      ids: seq<Id>, more: seq<Id>)
    requires NewWorkItems(a, b, ids) && NewWorkItems(b, c, more) && Grows(norm, a, b) && Grows(norm, b, c)
    ensures NewWorkItems(a, c, ids + more)
  {
    forall j, k | 0 <= j < k < |ids + more| ensures (ids + more)[j] != (ids + more)[k] {
      if j < |ids| <= k {
        assert ids[j] in ids && more[k - |ids|] in more;
      }
    }
  }

  /** What the second loop has done after some records. */
  ghost predicate Upserted(c: Context, records: seq<Record>, before: map<Id, Entity>, after: map<Id, Entity>,
      newWorkItems: seq<Id>) {
    Grows(c.norm, before, after) && AllFirm(c, IsUpsertRecord, records, after)
      && NewWorkItems(before, after, newWorkItems)
  }

  lemma UpsertedStep(c: Context, records: seq<Record>, i: nat, a: map<Id, Entity>, b: map<Id, Entity>,
      d: map<Id, Entity>, ids: seq<Id>, more: seq<Id>)
    requires i < |records| && Upserted(c, records[..i], a, b, ids)
    requires Grows(c.norm, b, d) && NewWorkItems(b, d, more)
    requires IsUpsertRecord(records[i]) ==> forall ref :: NamedBy(c.norm, records[i], ref) ==>
      Firm(c.norm, d, c.engagement, ref)
    ensures Upserted(c, records[..i + 1], a, d, ids + more)
  {
    NewWorkItemsAppend(c.norm, a, b, d, ids, more);
    GrowsTransitive(c.norm, a, b, d);
    AllFirmStep(c, IsUpsertRecord, records, i, b, d);
  }

  lemma UpsertedNone(c: Context, records: seq<Record>, before: map<Id, Entity>)
    ensures Upserted(c, records[..0], before, before, [])
  {
  }

  lemma UpsertedSkip(c: Context, records: seq<Record>, i: nat, a: map<Id, Entity>, b: map<Id, Entity>, ids: seq<Id>)
    requires i < |records| && Upserted(c, records[..i], a, b, ids) && !IsUpsertRecord(records[i])
    ensures Upserted(c, records[..i + 1], a, b, ids)
  {
    GrowsReflexive(c.norm, b);
    UpsertedStep(c, records, i, a, b, b, ids, []);
    assert ids + [] == ids;
  }

  predicate HasRefs(rec: Record) {
    IsUpsertRecord(rec) ==> rec.canonical.refs != []
  }

  /** Where the second loop stands after `records`: the tables it met, and the facts it has added. */
  ghost predicate Passed(c: Context, records: seq<Record>, start: map<Id, Entity>, now: map<Id, Entity>, ids: seq<Id>,
      states: seq<map<Id, Entity>>, synthesized: nat) {
    && Upserted(c, records, start, now, ids)
    && Trace(c, records, states) && states[0] == start && states[|records|] == now
    && synthesized == FactsDue(c, records, states)
  }

  lemma PassedNone(c: Context, records: seq<Record>, start: map<Id, Entity>)
    ensures Passed(c, records[..0], start, start, [], [start], 0)
  {
    UpsertedNone(c, records, start);
  }

  lemma PassedSkip(c: Context, records: seq<Record>, i: nat, start: map<Id, Entity>, now: map<Id, Entity>,
      ids: seq<Id>, states: seq<map<Id, Entity>>, synthesized: nat)
    requires i < |records| && !IsUpsertRecord(records[i])
    requires Passed(c, records[..i], start, now, ids, states, synthesized)
    ensures Passed(c, records[..i + 1], start, now, ids, states + [now], synthesized)
  {
    UpsertedSkip(c, records, i, start, now, ids);
    GrowsReflexive(c.norm, now);
    TraceStep(c, records, i, states, now);
  }

  /** The body of the second loop.  A record without refs makes `upsertEntityByRef` throw. */
  method UpsertNext(tx: Tables, c: Context, records: seq<Record>, i: nat, ghost start: map<Id, Entity>,
      ghost startFacts: map<Id, EngagementId>, ghost states: seq<map<Id, Entity>>, synthesized: nat, ids: seq<Id>)
    returns (ok: bool, synthesized': nat, ids': seq<Id>)
    requires i < |records|
    requires tx.Valid() && Passed(c, records[..i], start, tx.entities, ids, states, synthesized)
    requires FactsAdded(c.engagement, startFacts, tx.facts, synthesized)
    modifies tx`entities, tx`facts, tx`nextId
    ensures ok <==> HasRefs(records[i])
    ensures ok ==> tx.Valid()
    ensures ok ==> Passed(c, records[..i + 1], start, tx.entities, ids', states + [tx.entities], synthesized')
    ensures ok ==> FactsAdded(c.engagement, startFacts, tx.facts, synthesized')
  {
    if !IsUpsertRecord(records[i]) {
      PassedSkip(c, records, i, start, tx.entities, ids, states, synthesized);
      return true, synthesized, ids;
    }
    if records[i].canonical.refs == [] {
      return false, synthesized, ids;
    }
    ghost var before := tx.entities;
    var facts, more := UpsertRecord(tx, c, records[i], i);
    MoreFactsAdded(c.engagement, startFacts, old(tx.facts), tx.facts, synthesized, facts);
    PassedNext(c, records, i, start, before, tx.entities, ids, more, states, synthesized, facts);
    return true, synthesized + facts, ids + more;
  }

  lemma PassedNext(c: Context, records: seq<Record>, i: nat, start: map<Id, Entity>, before: map<Id, Entity>,
      now: map<Id, Entity>, ids: seq<Id>, more: seq<Id>, states: seq<map<Id, Entity>>, synthesized: nat, facts: nat)
    requires i < |records| && Passed(c, records[..i], start, before, ids, states, synthesized)
    requires OneUpserted(c, records[i], before, now) && NewWorkItems(before, now, more)
    requires facts == if Matches(c, records[i], before) && c.changesStatus(i) then 1 else 0
    requires forall ref :: NamedBy(c.norm, records[i], ref) ==> Firm(c.norm, now, c.engagement, ref)
    ensures Passed(c, records[..i + 1], start, now, ids + more, states + [now], synthesized + facts)
  {
    UpsertedStep(c, records, i, start, before, now, ids, more);
    TraceStep(c, records, i, states, now);
  }

  predicate AllHaveRefs(records: seq<Record>) {
    forall i :: 0 <= i < |records| ==> HasRefs(records[i])
  }

  /** The second loop. */
  method UpsertRecords(tx: Tables, c: Context, records: seq<Record>)
    returns (ok: bool, upserted: nat, synthesized: nat, newWorkItems: seq<Id>, ghost states: seq<map<Id, Entity>>)
    requires tx.Valid()
    modifies tx`entities, tx`facts, tx`nextId
    ensures ok <==> AllHaveRefs(records)
    ensures ok ==> tx.Valid() && Passed(c, records, old(tx.entities), tx.entities, newWorkItems, states, synthesized)
    ensures ok ==> upserted == Count(IsUpsertRecord, records)
    ensures ok ==> FactsAdded(c.engagement, old(tx.facts), tx.facts, synthesized)
  {
    ok, upserted, synthesized, newWorkItems := true, 0, 0, [];
    states := [tx.entities];
    PassedNone(c, records, tx.entities);
    for i := 0 to |records|
      invariant tx.Valid()
      invariant Passed(c, records[..i], old(tx.entities), tx.entities, newWorkItems, states, synthesized)
      invariant forall j :: 0 <= j < i ==> HasRefs(records[j])
      invariant upserted == Count(IsUpsertRecord, records[..i])
      invariant FactsAdded(c.engagement, old(tx.facts), tx.facts, synthesized)
    {
      CountStep(IsUpsertRecord, records, i);
      ok, synthesized, newWorkItems :=
        UpsertNext(tx, c, records, i, old(tx.entities), old(tx.facts), states, synthesized, newWorkItems);
      if !ok {
        return;
      }
      upserted := upserted + if IsUpsertRecord(records[i]) then 1 else 0;
      states := states + [tx.entities];
    }
    assert records[..|records|] == records;
  }

  // ---------------------------------------------------------------------------
  // The same records again
  // ---------------------------------------------------------------------------

  lemma GrowsKeepsMatches(c: Context, rec: Record, before: map<Id, Entity>, after: map<Id, Entity>)
    requires Grows(c.norm, before, after) && Matches(c, rec, before)
    ensures Matches(c, rec, after)
  {
    var id :| id in Hits(before, c.engagement, rec.canonical.etype, rec.canonical.refs);
    var r :| r in rec.canonical.refs && r in before[id].refs;
    assert r in after[id].refs;
    assert id in Hits(after, c.engagement, rec.canonical.etype, rec.canonical.refs);
  }

  /** Each record to be upserted has its row. */
  ghost predicate AllMatch(c: Context, records: seq<Record>, entities: map<Id, Entity>) {
    forall i :: 0 <= i < |records| && IsUpsertRecord(records[i]) ==> Matches(c, records[i], entities)
  }

  lemma GrowsKeepsAllMatch(c: Context, records: seq<Record>, before: map<Id, Entity>, after: map<Id, Entity>)
    requires Grows(c.norm, before, after) && AllMatch(c, records, before)
    ensures AllMatch(c, records, after)
  {
    forall i | 0 <= i < |records| && IsUpsertRecord(records[i]) ensures Matches(c, records[i], after) {
      GrowsKeepsMatches(c, records[i], before, after);
    }
  }

  /** Over the whole pass rows only grow, and each record leaves its row behind. */
  lemma {:induction false} TraceMatches(c: Context, records: seq<Record>, states: seq<map<Id, Entity>>, n: nat)
    requires Trace(c, records, states) && n <= |records|
    ensures Grows(c.norm, states[0], states[n]) && AllMatch(c, records[..n], states[n])
  {
    if n == 0 {
      GrowsReflexive(c.norm, states[0]);
    } else {
      TraceMatches(c, records, states, n - 1);
      assert UpsertedAt(c, records, states, n - 1);
      GrowsTransitive(c.norm, states[0], states[n - 1], states[n]);
      GrowsKeepsAllMatch(c, records[..n - 1], states[n - 1], states[n]);
      assert records[..n] == records[..n - 1] + [records[n - 1]];
    }
  }

  lemma {:induction false} MatchedAddsNone(c: Context, records: seq<Record>, states: seq<map<Id, Entity>>, n: nat)
    requires Trace(c, records, states) && n <= |records| && AllMatch(c, records, states[0])
    ensures |states[n]| == |states[0]|
  {
    if n > 0 {
      MatchedAddsNone(c, records, states, n - 1);
      TraceMatches(c, records, states, n - 1);
      assert UpsertedAt(c, records, states, n - 1);
      if IsUpsertRecord(records[n - 1]) {
        GrowsKeepsMatches(c, records[n - 1], states[0], states[n - 1]);
      }
    }
  }

  lemma SameKeys(norm: Normalizer, before: map<Id, Entity>, after: map<Id, Entity>)
    requires Grows(norm, before, after) && |after| == |before|
    ensures after.Keys == before.Keys
  {
    assert before.Keys <= after.Keys;
    assert |after.Keys - before.Keys| == |after.Keys| - |before.Keys|;
  }

  /** A second pass over the same records, whatever was written in between, makes no row. */
  lemma {:induction false} RepeatedUpserts(c: Context, records: seq<Record>, first: seq<map<Id, Entity>>,
      second: seq<map<Id, Entity>>)
    requires Trace(c, records, first) && Trace(c, records, second)
    requires Grows(c.norm, first[|records|], second[0])
    ensures second[|records|].Keys == second[0].Keys
  {
    TraceMatches(c, records, first, |records|);
    assert records[..|records|] == records;
    GrowsKeepsAllMatch(c, records, first[|records|], second[0]);
    MatchedPass(c, records, second);
  }

  lemma MatchedPass(c: Context, records: seq<Record>, states: seq<map<Id, Entity>>)
    requires Trace(c, records, states) && AllMatch(c, records, states[0])
    ensures states[|records|].Keys == states[0].Keys
  {
    TraceMatches(c, records, states, |records|);
    MatchedAddsNone(c, records, states, |records|);
    SameKeys(c.norm, states[0], states[|records|]);
  }

  lemma SomeMember(ids: seq<Id>)
    ensures ids == [] || exists id :: id in ids
  {
    assert ids == [] || ids[0] in ids;
  }

  lemma NoneNewNoWorkItems(before: map<Id, Entity>, after: map<Id, Entity>, ids: seq<Id>)
    requires after.Keys == before.Keys && NewWorkItems(before, after, ids)
    ensures ids == []
  {
    forall id ensures id !in ids {
      assert id in after.Keys <==> id in before.Keys;
    }
    SomeMember(ids);
  }

  /** What a `persistGraph` leaves for its repetition. */
  ghost predicate AllRemembered(c: Context, records: seq<Record>, entities: map<Id, Entity>) {
    AllMatch(c, records, entities) && AllKnown(c, records, entities)
  }

  /** ... and nothing written in between takes away. */
  lemma {:induction false} GrowsKeepsRemembered(c: Context, records: seq<Record>, before: map<Id, Entity>,
      after: map<Id, Entity>)
    requires Grows(c.norm, before, after) && AllRemembered(c, records, before)
    ensures AllRemembered(c, records, after)
  {
    GrowsKeepsAllMatch(c, records, before, after);
    GrowsKeepsAllKnown(c, records, before, after);
  }

  /** `insertStatusChangeFact` */
  method InsertFact(tx: Tables, engagement: EngagementId)
    requires tx.Valid()
    modifies tx`facts, tx`nextId
    ensures tx.Valid()
    ensures FactsAdded(engagement, old(tx.facts), tx.facts, 1)
  {
    var id := tx.nextId;
    assert id !in tx.facts;
    tx.facts := tx.facts[id := engagement];
    tx.nextId := tx.nextId + 1;
    assert tx.facts.Keys == old(tx.facts).Keys + {id};
    assert |tx.facts.Keys| == |old(tx.facts).Keys| + 1;
    MoreNodesKeepAttached(tx.entities, tx.entities, old(tx.facts), tx.facts, tx.edges);
  }

  /** An edge for this relationship record, between nodes its endpoint refs resolve to. */
  ghost predicate Drawn(entities: map<Id, Entity>, facts: map<Id, EngagementId>, edges: seq<Edge>, c: Context,
      rec: Record)
    requires rec.RelationRecord?
  {
    exists e :: e in edges && Joins(entities, facts, c, rec, e)
  }

  /** The edge has the record's predicate and goes from where the one ref resolves to where the other does. */
  ghost predicate Joins(entities: map<Id, Entity>, facts: map<Id, EngagementId>, c: Context, rec: Record, e: Edge) {
    && rec.RelationRecord? && e.predicateName == rec.predicateName
    && ResolvesTo(entities, facts, c.factOf, c.engagement, rec.from, e.from)
    && ResolvesTo(entities, facts, c.factOf, c.engagement, rec.to, e.to)
  }

  ghost predicate CanLink(entities: map<Id, Entity>, facts: map<Id, EngagementId>, c: Context, rec: Record)
    requires rec.RelationRecord?
  {
    && Resolvable(entities, facts, c.factOf, c.engagement, rec.from)
    && Resolvable(entities, facts, c.factOf, c.engagement, rec.to)
  }

  /** How many relationship records have an endpoint that does not resolve. */
  ghost function Unlinkable(entities: map<Id, Entity>, facts: map<Id, EngagementId>, c: Context,
      records: seq<Record>): nat {
    if records == [] then 0
    else
      var last := records[|records| - 1];
      Unlinkable(entities, facts, c, records[..|records| - 1])
      + if last.RelationRecord? && !CanLink(entities, facts, c, last) then 1 else 0
  }

  method LinkRecord(tx: Tables, c: Context, rec: Record, sourceId: Id) returns (inserted: bool, deferred: bool)
    requires tx.Valid() && rec.RelationRecord?
    modifies tx`edges
    ensures tx.Valid() && old(tx.edges) <= tx.edges
    ensures |tx.edges| == |old(tx.edges)| + if inserted then 1 else 0
    ensures deferred <==> !CanLink(tx.entities, tx.facts, c, rec)
    ensures !deferred ==> Drawn(tx.entities, tx.facts, tx.edges, c, rec)
    ensures inserted ==>
      tx.edges[|tx.edges| - 1].sourceId == Some(sourceId)
      && Joins(tx.entities, tx.facts, c, rec, tx.edges[|tx.edges| - 1])
  {
    var from := ResolveEndpointRef(tx, c.factOf, c.engagement, rec.from);
    var to := ResolveEndpointRef(tx, c.factOf, c.engagement, rec.to);
    if from.None? || to.None? {
      return false, true;
    }
    var e := Edge(c.engagement, from.value, rec.predicateName, to.value, Some(sourceId));
    inserted := UpsertRelationship(tx, e);
    deferred := false;
    ghost var f :| f in tx.edges && KeyOf(f) == KeyOf(e);
    assert Joins(tx.entities, tx.facts, c, rec, e) && Joins(tx.entities, tx.facts, c, rec, f);
  }

  ghost predicate AllDrawn(entities: map<Id, Entity>, facts: map<Id, EngagementId>, edges: seq<Edge>, c: Context,
      records: seq<Record>) {
    forall i :: 0 <= i < |records| && records[i].RelationRecord? && CanLink(entities, facts, c, records[i]) ==>
      Drawn(entities, facts, edges, c, records[i])
  }

  lemma MoreEdgesKeepDrawn(entities: map<Id, Entity>, facts: map<Id, EngagementId>, edges: seq<Edge>,
      edges': seq<Edge>, c: Context, records: seq<Record>)
    requires edges <= edges' && AllDrawn(entities, facts, edges, c, records)
    ensures AllDrawn(entities, facts, edges', c, records)
  {
    forall i | 0 <= i < |records| && records[i].RelationRecord? && CanLink(entities, facts, c, records[i])
      ensures Drawn(entities, facts, edges', c, records[i])
    {
      var e :| e in edges && Joins(entities, facts, c, records[i], e);
      assert e in edges';
    }
  }

  /** Edges already there keep their row and with it their source; new ones carry this source. */
  ghost predicate StampedBy(before: seq<Edge>, after: seq<Edge>, sourceId: Id) {
    before <= after && forall i :: |before| <= i < |after| ==> after[i].sourceId == Some(sourceId)
  }

  /** New edges are drawn for relationship records. */
  ghost predicate DrawnOnlyFor(entities: map<Id, Entity>, facts: map<Id, EngagementId>, c: Context,
      records: seq<Record>, before: seq<Edge>, after: seq<Edge>) {
    && before <= after
    && forall i :: |before| <= i < |after| ==> DrawnFor(entities, facts, c, records, after[i])
  }

  ghost predicate DrawnFor(entities: map<Id, Entity>, facts: map<Id, EngagementId>, c: Context, records: seq<Record>,
      e: Edge) {
    exists rec :: rec in records && Joins(entities, facts, c, rec, e)
  }

  /** Where the third loop stands after `records`. */
  ghost predicate Linked(entities: map<Id, Entity>, facts: map<Id, EngagementId>, c: Context, records: seq<Record>,
      sourceId: Id, before: seq<Edge>, after: seq<Edge>, deferred: nat) {
    && StampedBy(before, after, sourceId)
    && deferred == Unlinkable(entities, facts, c, records)
    && AllDrawn(entities, facts, after, c, records)
    && DrawnOnlyFor(entities, facts, c, records, before, after)
  }

  lemma MoreRecordsDrawn(entities: map<Id, Entity>, facts: map<Id, EngagementId>, c: Context, records: seq<Record>,
      i: nat, before: seq<Edge>, after: seq<Edge>)
    requires i < |records| && DrawnOnlyFor(entities, facts, c, records[..i], before, after)
    ensures DrawnOnlyFor(entities, facts, c, records[..i + 1], before, after)
  {
    assert records[..i + 1] == records[..i] + [records[i]];
    forall k | |before| <= k < |after| ensures DrawnFor(entities, facts, c, records[..i + 1], after[k]) {
      var rec :| rec in records[..i] && Joins(entities, facts, c, rec, after[k]);
      assert rec in records[..i + 1];
    }
  }

  lemma NextDrawn(entities: map<Id, Entity>, facts: map<Id, EngagementId>, c: Context, records: seq<Record>, i: nat,
      start: seq<Edge>, before: seq<Edge>, after: seq<Edge>)
    requires i < |records| && DrawnOnlyFor(entities, facts, c, records[..i], start, before) && before <= after
    requires |after| <= |before| + 1 && (|after| > |before| ==> Joins(entities, facts, c, records[i], after[|before|]))
    ensures DrawnOnlyFor(entities, facts, c, records[..i + 1], start, after)
  {
    MoreRecordsDrawn(entities, facts, c, records, i, start, before);
    assert records[..i + 1][i] in records[..i + 1];
    NewEdgeDrawn(entities, facts, c, records[..i + 1], records[i], start, before, after);
  }

  lemma NewEdgeDrawn(entities: map<Id, Entity>, facts: map<Id, EngagementId>, c: Context, records: seq<Record>,
      rec: Record, start: seq<Edge>, before: seq<Edge>, after: seq<Edge>)
    requires DrawnOnlyFor(entities, facts, c, records, start, before) && before <= after && rec in records
    requires |after| <= |before| + 1 && (|after| > |before| ==> Joins(entities, facts, c, rec, after[|before|]))
    ensures DrawnOnlyFor(entities, facts, c, records, start, after)
  {
    forall k | |start| <= k < |after| ensures DrawnFor(entities, facts, c, records, after[k]) {
      if k < |before| {
        assert after[k] == before[k];
      } else {
        assert k == |before|;
      }
    }
  }

  /** One relationship record more. */
  lemma LinkedStep(entities: map<Id, Entity>, facts: map<Id, EngagementId>, c: Context, records: seq<Record>, i: nat,
      sourceId: Id, start: seq<Edge>, before: seq<Edge>, after: seq<Edge>, deferred: nat)
    requires i < |records| && Linked(entities, facts, c, records[..i], sourceId, start, before, deferred)
    requires records[i].RelationRecord? && before <= after && |after| <= |before| + 1
    requires |after| > |before| ==>
      after[|before|].sourceId == Some(sourceId) && Joins(entities, facts, c, records[i], after[|before|])
    requires CanLink(entities, facts, c, records[i]) ==> Drawn(entities, facts, after, c, records[i])
    ensures Linked(entities, facts, c, records[..i + 1], sourceId, start, after,
              deferred + if CanLink(entities, facts, c, records[i]) then 0 else 1)
  {
    assert records[..i + 1][..i] == records[..i];
    MoreEdgesKeepDrawn(entities, facts, before, after, c, records[..i]);
    NextDrawn(entities, facts, c, records, i, start, before, after);
  }

  lemma LinkedSkip(entities: map<Id, Entity>, facts: map<Id, EngagementId>, c: Context, records: seq<Record>, i: nat,
      sourceId: Id, before: seq<Edge>, after: seq<Edge>, deferred: nat)
    requires i < |records| && Linked(entities, facts, c, records[..i], sourceId, before, after, deferred)
    requires !records[i].RelationRecord?
    ensures Linked(entities, facts, c, records[..i + 1], sourceId, before, after, deferred)
  {
    assert records[..i + 1][..i] == records[..i];
    MoreRecordsDrawn(entities, facts, c, records, i, before, after);
  }

  /** The third loop: an edge is drawn exactly when both ends resolve. */
  method LinkRecords(tx: Tables, c: Context, records: seq<Record>, sourceId: Id) returns (upserted: nat, deferred: nat)
    requires tx.Valid()
    modifies tx`edges
    ensures tx.Valid() && StampedBy(old(tx.edges), tx.edges, sourceId)
    ensures upserted == |tx.edges| - |old(tx.edges)|
    ensures deferred == Unlinkable(tx.entities, tx.facts, c, records)
    ensures AllDrawn(tx.entities, tx.facts, tx.edges, c, records)
    ensures DrawnOnlyFor(tx.entities, tx.facts, c, records, old(tx.edges), tx.edges)
  {
    upserted, deferred := 0, 0;
    for i := 0 to |records|
      invariant tx.Valid()
      invariant Linked(tx.entities, tx.facts, c, records[..i], sourceId, old(tx.edges), tx.edges, deferred)
      invariant upserted == |tx.edges| - |old(tx.edges)|
    {
      ghost var before, deferredBefore := tx.edges, deferred;
      if records[i].RelationRecord? {
        var inserted, skipped := LinkRecord(tx, c, records[i], sourceId);
        upserted := upserted + if inserted then 1 else 0;
        deferred := deferred + if skipped then 1 else 0;
        LinkedStep(tx.entities, tx.facts, c, records, i, sourceId, old(tx.edges), before, tx.edges, deferredBefore);
      } else {
        LinkedSkip(tx.entities, tx.facts, c, records, i, sourceId, old(tx.edges), before, deferred);
      }
    }
    assert records[..|records|] == records;
  }

  // ---------------------------------------------------------------------------
  // persistGraph
  // ---------------------------------------------------------------------------

  lemma {:induction false} NothingUnlinkable(entities: map<Id, Entity>, facts: map<Id, EngagementId>, c: Context,
      records: seq<Record>)
    requires forall i :: 0 <= i < |records| && records[i].RelationRecord? ==> CanLink(entities, facts, c, records[i])
    ensures Unlinkable(entities, facts, c, records) == 0
  {
    if records != [] {
      NothingUnlinkable(entities, facts, c, records[..|records| - 1]);
    }
  }

  /** Each relationship joins refs that entity records of the same artifact name. */
  ghost predicate SelfContained(c: Context, records: seq<Record>) {
    forall i :: 0 <= i < |records| && records[i].RelationRecord? ==>
      Named(c.norm, records, records[i].from) && Named(c.norm, records, records[i].to)
  }

  lemma NamedIsFirm(c: Context, records: seq<Record>, entities: map<Id, Entity>, ref: Ref)
    requires AllFirm(c, IsIdentityRecord, records, entities) && AllFirm(c, IsUpsertRecord, records, entities)
    requires Named(c.norm, records, ref)
    ensures Carried(entities, c.engagement, ref)
  {
    var i :| 0 <= i < |records| && NamedBy(c.norm, records[i], ref);
    assert IsIdentityRecord(records[i]) || IsUpsertRecord(records[i]);
    assert Firm(c.norm, entities, c.engagement, ref);
  }

  /** Entities are written before relationships, so an artifact that names both ends of all its
      relationships defers none of them. */
  lemma {:induction false} SelfContainedLinks(c: Context, records: seq<Record>, entities: map<Id, Entity>,
      facts: map<Id, EngagementId>)
    requires AllFirm(c, IsIdentityRecord, records, entities) && AllFirm(c, IsUpsertRecord, records, entities)
    requires SelfContained(c, records)
    ensures Unlinkable(entities, facts, c, records) == 0
  {
    forall i | 0 <= i < |records| && records[i].RelationRecord? ensures CanLink(entities, facts, c, records[i]) {
      NamedIsFirm(c, records, entities, records[i].from);
      NamedIsFirm(c, records, entities, records[i].to);
    }
    NothingUnlinkable(entities, facts, c, records);
  }

  /** The first two loops: what they leave, and what they add when that was there already. */
  lemma BothPasses(c: Context, records: seq<Record>, start: map<Id, Entity>, middle: map<Id, Entity>,
      states: seq<map<Id, Entity>>, ids: seq<Id>)
    requires Grows(c.norm, start, middle) && AllKnown(c, records, middle) && KnownAddsNone(c, records, start, middle)
    requires Trace(c, records, states) && states[0] == middle && NewWorkItems(middle, states[|records|], ids)
    ensures AllRemembered(c, records, states[|records|])
    ensures AllRemembered(c, records, start) ==>
      ids == [] && (AllAnchored(c, records) ==> states[|records|].Keys == start.Keys)
  {
    TraceMatches(c, records, states, |records|);
    assert records[..|records|] == records;
    GrowsKeepsAllKnown(c, records, middle, states[|records|]);
    if AllRemembered(c, records, start) {
      GrowsKeepsAllMatch(c, records, start, middle);
      MatchedPass(c, records, states);
      NoneNewNoWorkItems(middle, states[|records|], ids);
    }
  }

  /** What the tables went through: in the first loop record by record, then in the second. */
  datatype Path = Path(moments: seq<Moment>, states: seq<map<Id, Entity>>)

  ghost predicate Took(c: Context, records: seq<Record>, path: Path, before: Moment, after: Moment) {
    && Trace(c, records, path.states) && after.entities == path.states[|records|]
    && Went(c, records, path.moments, before, Moment(path.states[0], after.queue))
  }

  /** The first two loops. */
  method PersistEntities(tx: Tables, c: Context, records: seq<Record>)
    returns (ok: bool, resolved: nat, queued: nat, upserted: nat, synthesized: nat, newWorkItems: seq<Id>,
      ghost path: Path)
    requires tx.Valid()
    modifies tx`entities, tx`facts, tx`queue, tx`nextId
    ensures ok <==> AllHaveRefs(records)
    ensures ok ==> tx.Valid() && old(tx.queue) <= tx.queue && Grows(c.norm, old(tx.entities), tx.entities)
    ensures ok ==> resolved == Count(IsIdentityRecord, records) && upserted == Count(IsUpsertRecord, records)
    ensures ok ==> queued == |tx.queue| - |old(tx.queue)|
    ensures ok ==> FactsAdded(c.engagement, old(tx.facts), tx.facts, synthesized)
    ensures ok ==> NewWorkItems(old(tx.entities), tx.entities, newWorkItems)
    ensures ok ==>
      AllFirm(c, IsIdentityRecord, records, tx.entities) && AllFirm(c, IsUpsertRecord, records, tx.entities)
    ensures ok ==> Took(c, records, path, Moment(old(tx.entities), old(tx.queue)), Moment(tx.entities, tx.queue))
    ensures ok ==> synthesized == FactsDue(c, records, path.states)
    ensures ok ==> AllRemembered(c, records, tx.entities)
    ensures ok && AllRemembered(c, records, old(tx.entities)) ==>
      newWorkItems == [] && (AllAnchored(c, records) ==> tx.entities.Keys == old(tx.entities).Keys)
  {
    ghost var moments, states;
    resolved, queued, moments := ResolveRecords(tx, c, records);
    ghost var middle := tx.entities;
    ok, upserted, synthesized, newWorkItems, states := UpsertRecords(tx, c, records);
    path := Path(moments, states);
    if ok {
      GrowsTransitive(c.norm, old(tx.entities), middle, tx.entities);
      GrowsKeepsAllFirm(c, IsIdentityRecord, records, middle, tx.entities);
      BothPasses(c, records, old(tx.entities), middle, states, newWorkItems);
    }
  }

  /** `persistGraph`.  The tally is the actual growth of the tables; `None` is a thrown error, after
      which the transaction leaves nothing behind. */
  method Persist(tx: Tables, c: Context, records: seq<Record>, sourceId: Id)
    returns (r: Option<Tally>, ghost path: Path)
    requires tx.Valid()
    modifies tx
    ensures tx.Valid() && tx.log == old(tx.log)
    ensures r.Some? <==> AllHaveRefs(records)
    ensures r.None? ==>
      tx.entities == old(tx.entities) && tx.facts == old(tx.facts) && tx.edges == old(tx.edges)
      && tx.queue == old(tx.queue)
    ensures r.Some? ==> Grows(c.norm, old(tx.entities), tx.entities) && old(tx.queue) <= tx.queue
    ensures r.Some? ==> StampedBy(old(tx.edges), tx.edges, sourceId)
    ensures r.Some? ==> r.value.entitiesResolved == Count(IsIdentityRecord, records)
    ensures r.Some? ==> r.value.entitiesUpserted == Count(IsUpsertRecord, records)
    ensures r.Some? ==> r.value.relationshipsUpserted == |tx.edges| - |old(tx.edges)|
    ensures r.Some? ==> r.value.relationshipsDeferred == Unlinkable(tx.entities, tx.facts, c, records)
    ensures r.Some? ==> r.value.matchCandidatesQueued == |tx.queue| - |old(tx.queue)|
    ensures r.Some? ==> r.value.factsSynthesized == |tx.facts| - |old(tx.facts)|
    ensures r.Some? ==> NewWorkItems(old(tx.entities), tx.entities, r.value.newWorkItemEntityIds)
    ensures r.Some? ==> AllDrawn(tx.entities, tx.facts, tx.edges, c, records)
    ensures r.Some? && SelfContained(c, records) ==> r.value.relationshipsDeferred == 0
    ensures r.Some? ==> AllRemembered(c, records, tx.entities)
    ensures r.Some? && AllRemembered(c, records, old(tx.entities)) ==>
      && r.value.newWorkItemEntityIds == []
      && (AllAnchored(c, records) ==> tx.entities.Keys == old(tx.entities).Keys)
    ensures r.Some? ==>
      Took(c, records, path, Moment(old(tx.entities), old(tx.queue)), Moment(tx.entities, tx.queue))
    ensures r.Some? ==> FactsAdded(c.engagement, old(tx.facts), tx.facts, FactsDue(c, records, path.states))
    ensures r.Some? ==> DrawnOnlyFor(tx.entities, tx.facts, c, records, old(tx.edges), tx.edges)
  {
    var saved := (tx.entities, tx.facts, tx.edges, tx.queue);
    var savedId := tx.nextId;
    var ok, resolved, queued, upserted, synthesized, newWorkItems;
    ok, resolved, queued, upserted, synthesized, newWorkItems, path := PersistEntities(tx, c, records);
    if !ok {
      tx.entities, tx.facts, tx.edges, tx.queue := saved.0, saved.1, saved.2, saved.3;
      tx.nextId := savedId;
      return None, path;
    }
    var linked, deferred := LinkRecords(tx, c, records, sourceId);
    if SelfContained(c, records) {
      SelfContainedLinks(c, records, tx.entities, tx.facts);
    }
    return Some(Tally(resolved, upserted, linked, deferred, queued, synthesized, newWorkItems)), path;
  }
}
