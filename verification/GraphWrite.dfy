/** The graph-write helpers (`packages/db/src/graph-write.ts`) and `resolveEntity`
    (`packages/identity/src/resolve-entity.ts`).  A query with `limit(1)` and no order may return
    any matching row, so every `hit` below is an arbitrary one.  */
module GraphWrite {
  import opened Options
  import opened Refs
  import opened Graph
  import opened Sorting

  datatype CanonicalEntity = CanonicalEntity(etype: EntityType, refs: seq<Ref>)

  /** `person` and `organization` rows belong to `resolveEntity`, the rest to `upsertEntityByRef`. */
  predicate IsIdentity(t: EntityType) {
    t.Person? || t.Organization?
  }

  function Hits(entities: map<Id, Entity>, engagement: EngagementId, etype: EntityType, refs: seq<Ref>): set<Id> {
    set id | id in entities && entities[id].engagement == engagement && entities[id].etype == etype
             && exists r :: r in refs && r in entities[id].refs
  }

  /** Row `i`, of this engagement and type, has `r`. */
  ghost predicate HasRef(entities: map<Id, Entity>, engagement: EngagementId, etype: EntityType, i: Id, r: Ref) {
    i in entities && entities[i].engagement == engagement && entities[i].etype == etype && r in entities[i].refs
  }

  lemma HitsExactly(entities: map<Id, Entity>, engagement: EngagementId, etype: EntityType, refs: seq<Ref>)
    ensures Hits(entities, engagement, etype, refs) != {} <==>
      exists i, r :: r in refs && HasRef(entities, engagement, etype, i, r)
  {
    if i :| i in Hits(entities, engagement, etype, refs) {
      var r :| r in refs && r in entities[i].refs;
      assert HasRef(entities, engagement, etype, i, r);
    }
    if i, r :| r in refs && HasRef(entities, engagement, etype, i, r) {
      assert i in Hits(entities, engagement, etype, refs);
    }
  }

  /** An entity row gives `ref` a node in this engagement. */
  ghost predicate Carried(entities: map<Id, Entity>, engagement: EngagementId, ref: Ref) {
    exists id :: id in entities && entities[id].engagement == engagement && ref in entities[id].refs
  }

  /** ... and no later upsert takes it away again: see `GrowsKeepsFirm`. */
  ghost predicate Firm(norm: Normalizer, entities: map<Id, Entity>, engagement: EngagementId, ref: Ref) {
    exists id :: id in entities && entities[id].engagement == engagement && ref in entities[id].refs
              && (IsIdentity(entities[id].etype) ==> norm(ref) == Some(ref))
  }

  /** No row disappears or changes engagement or type, and every ref its normalizer leaves alone stays. */
  ghost predicate Grows(norm: Normalizer, before: map<Id, Entity>, after: map<Id, Entity>) {
    forall id :: id in before ==>
      && id in after && after[id].engagement == before[id].engagement && after[id].etype == before[id].etype
      && forall r :: r in before[id].refs && (IsIdentity(before[id].etype) ==> norm(r) == Some(r)) ==>
        r in after[id].refs
  }

  lemma GrowsTransitive(norm: Normalizer, a: map<Id, Entity>, b: map<Id, Entity>, c: map<Id, Entity>)
    requires Grows(norm, a, b) && Grows(norm, b, c)
    ensures Grows(norm, a, c)
  {
  }

  method InsertEntity(tx: Tables, norm: Normalizer, entity: Entity) returns (id: Id)
    requires tx.Valid()
    modifies tx`entities, tx`nextId
    ensures tx.Valid() && Grows(norm, old(tx.entities), tx.entities)
    ensures id !in old(tx.entities) && tx.entities == old(tx.entities)[id := entity]
  {
    id := tx.nextId;
    tx.entities := tx.entities[id := entity];
    tx.nextId := tx.nextId + 1;
    MoreNodesKeepAttached(old(tx.entities), tx.entities, tx.facts, tx.facts, tx.edges);
  }

  method UpdateRefs(tx: Tables, norm: Normalizer, id: Id, refs: seq<Ref>)
    requires tx.Valid() && id in tx.entities
    requires forall r :: r in tx.entities[id].refs && (IsIdentity(tx.entities[id].etype) ==> norm(r) == Some(r)) ==>
      r in refs
    modifies tx`entities
    ensures tx.Valid() && Grows(norm, old(tx.entities), tx.entities)
    ensures tx.entities == old(tx.entities)[id := old(tx.entities)[id].(refs := refs)]
  {
    tx.entities := tx.entities[id := tx.entities[id].(refs := refs)];
    MoreNodesKeepAttached(old(tx.entities), tx.entities, tx.facts, tx.facts, tx.edges);
  }

  /** `upsertEntityByRef`: a matched row gains the refs it lacked, else a row is created; nothing else changes. */
  method UpsertEntityByRef(tx: Tables, norm: Normalizer, engagement: EngagementId, canonical: CanonicalEntity)
    returns (id: Id, created: bool)
    requires tx.Valid() && canonical.refs != [] && !IsIdentity(canonical.etype)
    modifies tx`entities, tx`nextId
    ensures tx.Valid() && Grows(norm, old(tx.entities), tx.entities)
    ensures created <==> Hits(old(tx.entities), engagement, canonical.etype, canonical.refs) == {}
    ensures created <==>
      forall i, r :: r in canonical.refs ==> !HasRef(old(tx.entities), engagement, canonical.etype, i, r)
    ensures id in tx.entities && tx.entities[id].engagement == engagement && tx.entities[id].etype == canonical.etype
    ensures created ==>
      id !in old(tx.entities)
      && tx.entities == old(tx.entities)[id := Entity(engagement, canonical.etype, Dedupe(canonical.refs))]
    ensures !created ==>
              && id in Hits(old(tx.entities), engagement, canonical.etype, canonical.refs)
              && var row := old(tx.entities)[id];
                 tx.entities == old(tx.entities)[id := row.(refs := Dedupe(row.refs + Dedupe(canonical.refs)))]
    ensures forall r :: r in canonical.refs ==> Firm(norm, tx.entities, engagement, r)
  {
    var refs := Dedupe(canonical.refs);
    var hits := Hits(tx.entities, engagement, canonical.etype, refs);
    assert hits == Hits(tx.entities, engagement, canonical.etype, canonical.refs);
    HitsExactly(tx.entities, engagement, canonical.etype, canonical.refs);
    if hits != {} {
      id :| id in hits;
      created := false;
      UpdateRefs(tx, norm, id, Dedupe(tx.entities[id].refs + refs));
    } else {
      created := true;
      id := InsertEntity(tx, norm, Entity(engagement, canonical.etype, refs));
    }
    assert id in tx.entities && tx.entities[id].engagement == engagement;
  }

  lemma {:induction false} GrowsKeepsFirm(norm: Normalizer, before: map<Id, Entity>, after: map<Id, Entity>,
      engagement: EngagementId, ref: Ref)
    requires Grows(norm, before, after) && Firm(norm, before, engagement, ref)
    ensures Firm(norm, after, engagement, ref) && Carried(after, engagement, ref)
  {
    var id :| id in before && before[id].engagement == engagement && ref in before[id].refs
           && (IsIdentity(before[id].etype) ==> norm(ref) == Some(ref));
    assert id in after;
  }

  /** Once a row has all refs of a record, upserting the record again creates nothing, and changes
      nothing when it finds that row. */
  lemma {:induction false} UpsertIdempotent(entities: map<Id, Entity>, engagement: EngagementId,
      canonical: CanonicalEntity, id: Id)
    requires canonical.refs != []
    requires id in entities && entities[id].engagement == engagement && entities[id].etype == canonical.etype
    requires Distinct(entities[id].refs) && forall r :: r in canonical.refs ==> r in entities[id].refs
    ensures id in Hits(entities, engagement, canonical.etype, canonical.refs)
    ensures entities[id := entities[id].(refs := Dedupe(entities[id].refs + Dedupe(canonical.refs)))] == entities
  {
    assert canonical.refs[0] in canonical.refs;
    DedupeAbsorbs(entities[id].refs, Dedupe(canonical.refs));
  }

  // ---------------------------------------------------------------------------
  // resolveEntity
  // ---------------------------------------------------------------------------

  /** The match tier of a ref, 1 highest; `None` for a domain on anything but an organization. */
  function TierOf(etype: EntityType, r: Ref): Option<nat> {
    if r.connector == IDENTITY_REF_EMAIL then Some(2)
    else if r.connector == IDENTITY_REF_SSO then Some(3)
    else if r.connector == IDENTITY_REF_DOMAIN then if etype.Organization? then Some(4) else None
    else Some(1)
  }

  function TierRefs(etype: EntityType, refs: seq<Ref>, tier: nat): (r: seq<Ref>)
    ensures forall x :: x in r <==> x in refs && TierOf(etype, x) == Some(tier)
  {
    if refs == [] then []
    else
      var n := |refs| - 1;
      assert refs == refs[..n] + [refs[n]];
      TierRefs(etype, refs[..n], tier) + if TierOf(etype, refs[n]) == Some(tier) then [refs[n]] else []
  }

  function TierHits(entities: map<Id, Entity>, norm: Normalizer, engagement: EngagementId,
      canonical: CanonicalEntity, tier: nat): set<Id> {
    Hits(entities, engagement, canonical.etype, TierRefs(canonical.etype, Images(norm, canonical), tier))
  }

  /** Tiers are tried in order; within a tier, any row that carries one of its refs. */
  method FindByTier(tx: Tables, norm: Normalizer, engagement: EngagementId, canonical: CanonicalEntity)
    returns (id: Id, matchedTier: Option<nat>)
    ensures forall tier :: 1 <= tier <= 4 && (matchedTier.None? || tier < matchedTier.value) ==>
              TierHits(tx.entities, norm, engagement, canonical, tier) == {}
    ensures matchedTier.Some? ==>
              1 <= matchedTier.value <= 4 && id in TierHits(tx.entities, norm, engagement, canonical, matchedTier.value)
  {
    for tier := 1 to 5
      invariant forall k :: 1 <= k < tier ==> TierHits(tx.entities, norm, engagement, canonical, k) == {}
    {
      var hits := TierHits(tx.entities, norm, engagement, canonical, tier);
      if hits != {} {
        id :| id in hits;
        return id, Some(tier);
      }
    }
    return 0, None;
  }

  /** The incoming refs as `resolveEntity` stores and looks them up. */
  function Images(norm: Normalizer, canonical: CanonicalEntity): seq<Ref> {
    Dedupe(Folded(norm, canonical.refs))
  }

  /** What one `resolveEntity` does to the rows: the first tier with a hit decides, and one of its rows gains
      the incoming refs; without a hit a row is created. */
  ghost predicate ResolvedAs(norm: Normalizer, engagement: EngagementId, canonical: CanonicalEntity,
      before: map<Id, Entity>, after: map<Id, Entity>, id: Id, matchedTier: Option<nat>) {
    && (forall tier :: 1 <= tier <= 4 && (matchedTier.None? || tier < matchedTier.value) ==>
          TierHits(before, norm, engagement, canonical, tier) == {})
    && match matchedTier
       case Some(tier) =>
         && 1 <= tier <= 4 && id in TierHits(before, norm, engagement, canonical, tier)
         && after == before[id := before[id].(refs := Union(norm, before[id].refs, Images(norm, canonical)))]
       case None =>
         id !in before && after == before[id := Entity(engagement, canonical.etype, Images(norm, canonical))]
  }

  /** `resolveEntity` */
  method ResolveEntity(tx: Tables, norm: Normalizer, engagement: EngagementId, canonical: CanonicalEntity)
    returns (id: Id, matchedTier: Option<nat>)
    requires tx.Valid() && IsIdentity(canonical.etype)
    modifies tx`entities, tx`nextId
    ensures tx.Valid() && Grows(norm, old(tx.entities), tx.entities)
    ensures id in tx.entities && tx.entities[id].etype == canonical.etype && tx.entities[id].engagement == engagement
    ensures ResolvedAs(norm, engagement, canonical, old(tx.entities), tx.entities, id, matchedTier)
    ensures forall r :: r in canonical.refs && norm(r) == Some(r) ==> Firm(norm, tx.entities, engagement, r)
  {
    id, matchedTier := FindByTier(tx, norm, engagement, canonical);
    var incoming := NormalizeExternalRefs(norm, canonical.refs);
    StableAreFolded(norm, canonical.refs);
    if matchedTier.Some? {
      KeepsStable(norm, tx.entities[id].refs, incoming);
      var refs := UnionRefs(norm, tx.entities[id].refs, incoming);
      UpdateRefs(tx, norm, id, refs);
    } else {
      id := InsertEntity(tx, norm, Entity(engagement, canonical.etype, incoming));
    }
    assert id in tx.entities && tx.entities[id].engagement == engagement;
  }

  lemma StableAreFolded(norm: Normalizer, refs: seq<Ref>)
    ensures forall r :: r in refs && norm(r) == Some(r) ==> r in Folded(norm, refs)
  {
    forall r | r in refs && norm(r) == Some(r) ensures r in Folded(norm, refs) {
      FoldedContents(norm, refs, r);
    }
  }

  lemma KeepsStable(norm: Normalizer, a: seq<Ref>, b: seq<Ref>)
    ensures forall r :: (r in a || r in b) && norm(r) == Some(r) ==> r in Union(norm, a, b)
  {
    forall r | (r in a || r in b) && norm(r) == Some(r) ensures r in Union(norm, a, b) {
      UnionKeepsStable(norm, a, b, r);
    }
  }

  // ---------------------------------------------------------------------------
  // Which kind of ref decides
  // ---------------------------------------------------------------------------

  /** A row of the record's engagement and type that shares a normalized ref of this connector with it. */
  ghost predicate SharesOver(norm: Normalizer, engagement: EngagementId, canonical: CanonicalEntity,
      entities: map<Id, Entity>, id: Id, connector: string) {
    && id in entities && entities[id].engagement == engagement && entities[id].etype == canonical.etype
    && exists x :: x in Images(norm, canonical) && x in entities[id].refs && x.connector == connector
  }

  /** ... a ref of an ordinary connector, not one of the three identity ones. */
  ghost predicate SharesOrigin(norm: Normalizer, engagement: EngagementId, canonical: CanonicalEntity,
      entities: map<Id, Entity>, id: Id) {
    exists connector :: connector !in {"fde:email", "fde:sso", "fde:domain"}
      && SharesOver(norm, engagement, canonical, entities, id, connector)
  }

  lemma TiersByConnector(norm: Normalizer, engagement: EngagementId, canonical: CanonicalEntity,
      entities: map<Id, Entity>, id: Id)
    ensures id in TierHits(entities, norm, engagement, canonical, 1) <==>
      SharesOrigin(norm, engagement, canonical, entities, id)
    ensures id in TierHits(entities, norm, engagement, canonical, 2) <==>
      SharesOver(norm, engagement, canonical, entities, id, "fde:email")
    ensures id in TierHits(entities, norm, engagement, canonical, 3) <==>
      SharesOver(norm, engagement, canonical, entities, id, "fde:sso")
    ensures id in TierHits(entities, norm, engagement, canonical, 4) <==>
      canonical.etype.Organization? && SharesOver(norm, engagement, canonical, entities, id, "fde:domain")
  {
    TierOneIsOrigin(norm, engagement, canonical, entities, id);
    TierIsConnector(norm, engagement, canonical, entities, id, 2, "fde:email");
    TierIsConnector(norm, engagement, canonical, entities, id, 3, "fde:sso");
    TierIsConnector(norm, engagement, canonical, entities, id, 4, "fde:domain");
  }

  lemma ConnectorsDiffer()
    ensures "fde:email" != "fde:sso" && "fde:email" != "fde:domain" && "fde:sso" != "fde:domain"
  {
    assert |"fde:email"| == 9 && |"fde:sso"| == 7 && |"fde:domain"| == 10;
  }

  lemma TierIsConnector(norm: Normalizer, engagement: EngagementId, canonical: CanonicalEntity,
      entities: map<Id, Entity>, id: Id, tier: nat, connector: string)
    requires (tier, connector) in {(2, "fde:email"), (3, "fde:sso"), (4, "fde:domain")}
    ensures id in TierHits(entities, norm, engagement, canonical, tier) <==>
      (tier == 4 ==> canonical.etype.Organization?) && SharesOver(norm, engagement, canonical, entities, id, connector)
  {
    ConnectorsDiffer();
    forall x
      ensures x in TierRefs(canonical.etype, Images(norm, canonical), tier) <==>
        x in Images(norm, canonical) && x.connector == connector && (tier == 4 ==> canonical.etype.Organization?)
    {
    }
  }

  lemma TierOneIsOrigin(norm: Normalizer, engagement: EngagementId, canonical: CanonicalEntity,
      entities: map<Id, Entity>, id: Id)
    ensures id in TierHits(entities, norm, engagement, canonical, 1) <==>
      SharesOrigin(norm, engagement, canonical, entities, id)
  {
    ConnectorsDiffer();
    if id in TierHits(entities, norm, engagement, canonical, 1) {
      var x :| x in TierRefs(canonical.etype, Images(norm, canonical), 1) && x in entities[id].refs;
      assert SharesOver(norm, engagement, canonical, entities, id, x.connector);
    }
    if SharesOrigin(norm, engagement, canonical, entities, id) {
      var connector :| connector !in {"fde:email", "fde:sso", "fde:domain"}
        && SharesOver(norm, engagement, canonical, entities, id, connector);
      var x :| x in Images(norm, canonical) && x in entities[id].refs && x.connector == connector;
      assert x in TierRefs(canonical.etype, Images(norm, canonical), 1);
    }
  }

  ghost predicate AnyOrigin(norm: Normalizer, engagement: EngagementId, canonical: CanonicalEntity,
      entities: map<Id, Entity>) {
    exists id :: SharesOrigin(norm, engagement, canonical, entities, id)
  }

  ghost predicate AnyOver(norm: Normalizer, engagement: EngagementId, canonical: CanonicalEntity,
      entities: map<Id, Entity>, connector: string) {
    exists id :: SharesOver(norm, engagement, canonical, entities, id, connector)
  }

  /** A row that shares an ordinary ref is chosen before one that shares only an email, that before an SSO
      subject, that before a domain, which counts for organizations only.  No such row: one is created. */
  lemma {:induction false} FirstKindWins(norm: Normalizer, engagement: EngagementId, canonical: CanonicalEntity,
      before: map<Id, Entity>, after: map<Id, Entity>, id: Id, matchedTier: Option<nat>)
    requires ResolvedAs(norm, engagement, canonical, before, after, id, matchedTier)
    ensures
      if AnyOrigin(norm, engagement, canonical, before) then SharesOrigin(norm, engagement, canonical, before, id)
      else if AnyOver(norm, engagement, canonical, before, "fde:email") then
        SharesOver(norm, engagement, canonical, before, id, "fde:email")
      else if AnyOver(norm, engagement, canonical, before, "fde:sso") then
        SharesOver(norm, engagement, canonical, before, id, "fde:sso")
      else if canonical.etype.Organization? && AnyOver(norm, engagement, canonical, before, "fde:domain") then
        SharesOver(norm, engagement, canonical, before, id, "fde:domain")
      else id !in before
  {
    forall i ensures
      && (i in TierHits(before, norm, engagement, canonical, 1) <==>
        SharesOrigin(norm, engagement, canonical, before, i))
      && (i in TierHits(before, norm, engagement, canonical, 2) <==>
        SharesOver(norm, engagement, canonical, before, i, "fde:email"))
      && (i in TierHits(before, norm, engagement, canonical, 3) <==>
        SharesOver(norm, engagement, canonical, before, i, "fde:sso"))
      && (i in TierHits(before, norm, engagement, canonical, 4) <==>
            canonical.etype.Organization? && SharesOver(norm, engagement, canonical, before, i, "fde:domain"))
    {
      TiersByConnector(norm, engagement, canonical, before, i);
    }
  }

  // ---------------------------------------------------------------------------
  // resolveEntity again and again
  // ---------------------------------------------------------------------------

  /** An incoming ref that is looked up. */
  predicate IsKey(norm: Normalizer, canonical: CanonicalEntity, k: Ref) {
    k in Images(norm, canonical) && TierOf(canonical.etype, k).Some?
  }

  ghost predicate CarriesKey(norm: Normalizer, engagement: EngagementId, canonical: CanonicalEntity,
      entities: map<Id, Entity>, id: Id, k: Ref) {
    && id in entities && entities[id].engagement == engagement && entities[id].etype == canonical.etype
    && k in entities[id].refs && IsKey(norm, canonical, k)
  }

  ghost predicate Known(norm: Normalizer, engagement: EngagementId, canonical: CanonicalEntity,
      entities: map<Id, Entity>) {
    exists id, k :: CarriesKey(norm, engagement, canonical, entities, id, k)
  }

  lemma KnownByTier(norm: Normalizer, engagement: EngagementId, canonical: CanonicalEntity, entities: map<Id, Entity>)
    ensures Known(norm, engagement, canonical, entities) <==>
      exists tier :: 1 <= tier <= 4 && TierHits(entities, norm, engagement, canonical, tier) != {}
  {
    if id, k :| CarriesKey(norm, engagement, canonical, entities, id, k) {
      KeyIsHit(norm, engagement, canonical, entities, id, k);
    }
    if tier :| 1 <= tier <= 4 && TierHits(entities, norm, engagement, canonical, tier) != {} {
      var id :| id in TierHits(entities, norm, engagement, canonical, tier);
      HitHasKey(norm, engagement, canonical, entities, id, tier);
    }
  }

  lemma KeyIsHit(norm: Normalizer, engagement: EngagementId, canonical: CanonicalEntity, entities: map<Id, Entity>,
      id: Id, k: Ref)
    requires CarriesKey(norm, engagement, canonical, entities, id, k)
    ensures var tier := TierOf(canonical.etype, k).value;
      1 <= tier <= 4 && id in TierHits(entities, norm, engagement, canonical, tier)
  {
    assert k in TierRefs(canonical.etype, Images(norm, canonical), TierOf(canonical.etype, k).value);
  }

  lemma HitHasKey(norm: Normalizer, engagement: EngagementId, canonical: CanonicalEntity, entities: map<Id, Entity>,
      id: Id, tier: nat)
    requires id in TierHits(entities, norm, engagement, canonical, tier)
    ensures id in entities && exists k :: CarriesKey(norm, engagement, canonical, entities, id, k)
  {
    var k :| k in TierRefs(canonical.etype, Images(norm, canonical), tier) && k in entities[id].refs;
    assert CarriesKey(norm, engagement, canonical, entities, id, k);
  }

  /** A write creates a row exactly when no row carries one of its keys. */
  lemma {:induction false} CreatesExactly(norm: Normalizer, engagement: EngagementId, canonical: CanonicalEntity,
      before: map<Id, Entity>, after: map<Id, Entity>, id: Id, matchedTier: Option<nat>)
    requires ResolvedAs(norm, engagement, canonical, before, after, id, matchedTier)
    ensures after.Keys == before.Keys <==> Known(norm, engagement, canonical, before)
    ensures matchedTier.Some? <==> Known(norm, engagement, canonical, before)
  {
    KnownByTier(norm, engagement, canonical, before);
  }

  /** Some incoming ref is normalized once more to an incoming ref that is looked up. */
  ghost predicate Repeatable(norm: Normalizer, canonical: CanonicalEntity) {
    exists x :: x in Images(norm, canonical) && norm(x).Some? && IsKey(norm, canonical, norm(x).value)
  }

  lemma RepeatableStaysKnown(norm: Normalizer, engagement: EngagementId, canonical: CanonicalEntity,
      before: map<Id, Entity>, after: map<Id, Entity>, id: Id, matchedTier: Option<nat>)
    requires ResolvedAs(norm, engagement, canonical, before, after, id, matchedTier) && Repeatable(norm, canonical)
    ensures Known(norm, engagement, canonical, after)
  {
    var x :| x in Images(norm, canonical) && norm(x).Some? && IsKey(norm, canonical, norm(x).value);
    if matchedTier.Some? {
      FoldedContents(norm, Images(norm, canonical), norm(x).value);
    }
    assert CarriesKey(norm, engagement, canonical, after, id, norm(x).value);
  }

  ghost predicate Wrote(norm: Normalizer, engagement: EngagementId, canonical: CanonicalEntity,
      before: map<Id, Entity>, after: map<Id, Entity>) {
    exists id, matchedTier :: ResolvedAs(norm, engagement, canonical, before, after, id, matchedTier)
  }

  /** The rows before, between and after writes of one and the same record. */
  ghost predicate Writes(norm: Normalizer, engagement: EngagementId, canonical: CanonicalEntity,
      states: seq<map<Id, Entity>>) {
    forall i :: 0 <= i < |states| - 1 ==> Wrote(norm, engagement, canonical, states[i], states[i + 1])
  }

  /** All writes but the first leave the same rows. */
  ghost predicate NoDuplicates(states: seq<map<Id, Entity>>) {
    forall i :: 1 <= i < |states| - 1 ==> states[i + 1].Keys == states[i].Keys
  }

  /** Whatever is in the table: writing a person or organization again creates no row, if and only if some
      incoming ref is normalized once more to an incoming ref that is looked up. */
  lemma {:induction false} RepeatedWritesExactly(norm: Normalizer, engagement: EngagementId,
      canonical: CanonicalEntity)
    ensures Repeatable(norm, canonical) <==>
      forall states: seq<map<Id, Entity>> :: Writes(norm, engagement, canonical, states) ==> NoDuplicates(states)
  {
    if Repeatable(norm, canonical) {
      forall states: seq<map<Id, Entity>> | Writes(norm, engagement, canonical, states) ensures NoDuplicates(states) {
        forall i | 1 <= i < |states| - 1 ensures states[i + 1].Keys == states[i].Keys {
          SecondWriteFinds(norm, engagement, canonical, states[i - 1], states[i], states[i + 1]);
        }
      }
    } else {
      DuplicatedWrites(norm, engagement, canonical);
    }
  }

  lemma SecondWriteFinds(norm: Normalizer, engagement: EngagementId, canonical: CanonicalEntity,
      a: map<Id, Entity>, b: map<Id, Entity>, c: map<Id, Entity>)
    requires Repeatable(norm, canonical)
    requires Wrote(norm, engagement, canonical, a, b) && Wrote(norm, engagement, canonical, b, c)
    ensures c.Keys == b.Keys
  {
    var id, tier :| ResolvedAs(norm, engagement, canonical, a, b, id, tier);
    RepeatableStaysKnown(norm, engagement, canonical, a, b, id, tier);
    var id', tier' :| ResolvedAs(norm, engagement, canonical, b, c, id', tier');
    CreatesExactly(norm, engagement, canonical, b, c, id', tier');
  }

  /** Writes to an empty table, with a second row in the end. */
  ghost function Duplicated(norm: Normalizer, engagement: EngagementId, canonical: CanonicalEntity)
    : seq<map<Id, Entity>>
  {
    var row := Entity(engagement, canonical.etype, Images(norm, canonical));
    var again := row.(refs := Union(norm, row.refs, row.refs));
    if Known(norm, engagement, canonical, map[0 := row])
    then [map[], map[0 := row], map[0 := again], map[0 := again, 1 := row]]
    else [map[], map[0 := row], map[0 := row, 1 := row]]
  }

  lemma Creates(norm: Normalizer, engagement: EngagementId, canonical: CanonicalEntity, before: map<Id, Entity>,
      id: Id)
    requires !Known(norm, engagement, canonical, before) && id !in before
    ensures Wrote(norm, engagement, canonical, before,
                  before[id := Entity(engagement, canonical.etype, Images(norm, canonical))])
  {
    KnownByTier(norm, engagement, canonical, before);
    assert ResolvedAs(norm, engagement, canonical, before,
                      before[id := Entity(engagement, canonical.etype, Images(norm, canonical))], id, None);
  }

  lemma {:induction false} Least(p: nat -> bool, first: nat, last: nat) returns (n: nat)
    requires exists k :: first <= k <= last && p(k)
    ensures first <= n <= last && p(n) && forall k :: first <= k < n ==> !p(k)
    decreases last - first
  {
    if p(first) {
      n := first;
    } else {
      n := Least(p, first + 1, last);
    }
  }

  lemma FirstTier(norm: Normalizer, engagement: EngagementId, canonical: CanonicalEntity, entities: map<Id, Entity>)
    returns (tier: nat)
    requires Known(norm, engagement, canonical, entities)
    ensures 1 <= tier <= 4 && TierHits(entities, norm, engagement, canonical, tier) != {}
    ensures forall k :: 1 <= k < tier ==> TierHits(entities, norm, engagement, canonical, k) == {}
  {
    KnownByTier(norm, engagement, canonical, entities);
    var p := (k: nat) => TierHits(entities, norm, engagement, canonical, k) != {};
    var k :| 1 <= k <= 4 && TierHits(entities, norm, engagement, canonical, k) != {};
    assert p(k);
    tier := Least(p, 1, 4);
    forall k | 1 <= k < tier ensures TierHits(entities, norm, engagement, canonical, k) == {} {
      assert !p(k);
    }
  }

  lemma FindsOnly(norm: Normalizer, engagement: EngagementId, canonical: CanonicalEntity, row: Entity, row': Entity)
    requires Known(norm, engagement, canonical, map[0 := row])
    requires row' == row.(refs := Union(norm, row.refs, Images(norm, canonical)))
    ensures Wrote(norm, engagement, canonical, map[0 := row], map[0 := row'])
  {
    var tier := FirstTier(norm, engagement, canonical, map[0 := row]);
    var id :| id in TierHits(map[0 := row], norm, engagement, canonical, tier);
    HitHasKey(norm, engagement, canonical, map[0 := row], id, tier);
    FindsRow(norm, engagement, canonical, row, row', tier);
  }

  lemma FindsRow(norm: Normalizer, engagement: EngagementId, canonical: CanonicalEntity, row: Entity, row': Entity,
      tier: nat)
    requires 1 <= tier <= 4 && 0 in TierHits(map[0 := row], norm, engagement, canonical, tier)
    requires forall k :: 1 <= k < tier ==> TierHits(map[0 := row], norm, engagement, canonical, k) == {}
    requires row' == row.(refs := Union(norm, row.refs, Images(norm, canonical)))
    ensures Wrote(norm, engagement, canonical, map[0 := row], map[0 := row'])
  {
    assert map[0 := row][0 := row'] == map[0 := row'];
    assert ResolvedAs(norm, engagement, canonical, map[0 := row], map[0 := row'], 0, Some(tier));
  }

  /** A row that is not found is written a second time. */
  lemma SecondRow(norm: Normalizer, engagement: EngagementId, canonical: CanonicalEntity, row: Entity, added: Entity)
    requires !Known(norm, engagement, canonical, map[0 := row])
    requires added == Entity(engagement, canonical.etype, Images(norm, canonical))
    ensures Wrote(norm, engagement, canonical, map[0 := row], map[0 := row, 1 := added])
    ensures map[0 := row, 1 := added].Keys != map[0 := row].Keys
  {
    Creates(norm, engagement, canonical, map[0 := row], 1);
    assert map[0 := row][1 := added] == map[0 := row, 1 := added];
    assert 1 in map[0 := row, 1 := added].Keys && 1 !in map[0 := row].Keys;
  }

  lemma FirstRow(norm: Normalizer, engagement: EngagementId, canonical: CanonicalEntity, row: Entity)
    requires row == Entity(engagement, canonical.etype, Images(norm, canonical))
    ensures Wrote(norm, engagement, canonical, map[], map[0 := row])
  {
    var none: map<Id, Entity> := map[];
    Creates(norm, engagement, canonical, none, 0);
    assert none[0 := row] == map[0 := row];
  }

  lemma ThreeStates(norm: Normalizer, engagement: EngagementId, canonical: CanonicalEntity,
      states: seq<map<Id, Entity>>)
    requires |states| == 3 && states[2].Keys != states[1].Keys
    requires Wrote(norm, engagement, canonical, states[0], states[1])
    requires Wrote(norm, engagement, canonical, states[1], states[2])
    ensures Writes(norm, engagement, canonical, states) && !NoDuplicates(states)
  {
  }

  lemma FourStates(norm: Normalizer, engagement: EngagementId, canonical: CanonicalEntity,
      states: seq<map<Id, Entity>>)
    requires |states| == 4 && states[3].Keys != states[2].Keys
    requires Wrote(norm, engagement, canonical, states[0], states[1])
    requires Wrote(norm, engagement, canonical, states[1], states[2])
    requires Wrote(norm, engagement, canonical, states[2], states[3])
    ensures Writes(norm, engagement, canonical, states) && !NoDuplicates(states)
  {
  }

  lemma DuplicatedWrites(norm: Normalizer, engagement: EngagementId, canonical: CanonicalEntity)
    requires !Repeatable(norm, canonical)
    ensures var states := Duplicated(norm, engagement, canonical);
      Writes(norm, engagement, canonical, states) && !NoDuplicates(states)
  {
    var states := Duplicated(norm, engagement, canonical);
    var row := Entity(engagement, canonical.etype, Images(norm, canonical));
    FirstRow(norm, engagement, canonical, row);
    if Known(norm, engagement, canonical, map[0 := row]) {
      var again := row.(refs := Union(norm, row.refs, row.refs));
      FindsOnly(norm, engagement, canonical, row, again);
      ImagesOfImages(norm, engagement, canonical, again);
      SecondRow(norm, engagement, canonical, again, row);
      FourStates(norm, engagement, canonical, states);
    } else {
      SecondRow(norm, engagement, canonical, row, row);
      ThreeStates(norm, engagement, canonical, states);
    }
  }

  lemma ImagesOfImages(norm: Normalizer, engagement: EngagementId, canonical: CanonicalEntity, again: Entity)
    requires !Repeatable(norm, canonical)
    requires again.refs == Union(norm, Images(norm, canonical), Images(norm, canonical))
    ensures !Known(norm, engagement, canonical, map[0 := again])
  {
    forall id, k ensures !CarriesKey(norm, engagement, canonical, map[0 := again], id, k) {
      FoldedContents(norm, Images(norm, canonical), k);
    }
  }

  /** What `normalizeDomain` does to a plain domain in lower case. */
  function StripWww(r: Ref): Option<Ref> {
    if r.connector == IDENTITY_REF_DOMAIN && |r.externalId| >= 4 && r.externalId[..4] == "www." then
      if |r.externalId| == 4 then None else Some(r.(externalId := r.externalId[4..]))
    else if r.externalId == "" then None
    else Some(r)
  }

  /** An organization known by a domain that starts with "www." twice. */
  function TwiceWww(): CanonicalEntity {
    CanonicalEntity(Organization, [Ref(IDENTITY_REF_DOMAIN, "www.www.x")])
  }

  lemma StrippedOnce()
    ensures Images(StripWww, TwiceWww()) == [Ref(IDENTITY_REF_DOMAIN, "www.x")]
    ensures StripWww(Ref(IDENTITY_REF_DOMAIN, "www.x")) == Some(Ref(IDENTITY_REF_DOMAIN, "x"))
  {
    var refs := TwiceWww().refs;
    assert "www.www.x"[..4] == "www." && "www.www.x"[4..] == "www.x";
    assert "www.x"[..4] == "www." && "www.x"[4..] == "x";
    assert refs[..0] == [];
    assert Folded(StripWww, refs) == [Ref(IDENTITY_REF_DOMAIN, "www.x")];
    DedupeFixesDistinct([Ref(IDENTITY_REF_DOMAIN, "www.x")]);
  }

  lemma StrippedIsKnown(engagement: EngagementId)
    ensures !Repeatable(StripWww, TwiceWww())
    ensures var row := Entity(engagement, Organization, Images(StripWww, TwiceWww()));
      Known(StripWww, engagement, TwiceWww(), map[0 := row])
  {
    var image := Ref(IDENTITY_REF_DOMAIN, "www.x");
    StrippedOnce();
    assert "x" != "www.x";
    assert CarriesKey(StripWww, engagement, TwiceWww(), map[0 := Entity(engagement, Organization, [image])], 0, image);
  }

  /** Its row is found by the second write, which strips the stored domain again, and not by the third. */
  lemma {:induction false} TwiceStripped(engagement: EngagementId)
    ensures var states := Duplicated(StripWww, engagement, TwiceWww());
      |states| == 4 && states[0] == map[] && Writes(StripWww, engagement, TwiceWww(), states) && !NoDuplicates(states)
  {
    StrippedIsKnown(engagement);
    DuplicatedWrites(StripWww, engagement, TwiceWww());
  }

  /** A domain is looked up for organizations only, so each write of such a person makes a row. */
  lemma {:induction false} DomainOnlyPerson(norm: Normalizer, engagement: EngagementId, canonical: CanonicalEntity,
      before: map<Id, Entity>, after: map<Id, Entity>)
    requires canonical.etype.Person? && forall x :: x in Images(norm, canonical) ==> x.connector == IDENTITY_REF_DOMAIN
    requires Wrote(norm, engagement, canonical, before, after)
    ensures !Repeatable(norm, canonical) && after.Keys != before.Keys
  {
    var id, tier :| ResolvedAs(norm, engagement, canonical, before, after, id, tier);
    CreatesExactly(norm, engagement, canonical, before, after, id, tier);
  }

  /** Some key is left alone by the normalizer: then no other write can take it off a row. */
  ghost predicate Anchored(norm: Normalizer, canonical: CanonicalEntity) {
    exists k :: IsKey(norm, canonical, k) && norm(k) == Some(k)
  }

  ghost predicate KnownFirmly(norm: Normalizer, engagement: EngagementId, canonical: CanonicalEntity,
      entities: map<Id, Entity>) {
    exists id, k :: CarriesKey(norm, engagement, canonical, entities, id, k) && norm(k) == Some(k)
  }

  lemma GrowsKeepsKnown(norm: Normalizer, engagement: EngagementId, canonical: CanonicalEntity,
      before: map<Id, Entity>, after: map<Id, Entity>)
    requires Grows(norm, before, after) && KnownFirmly(norm, engagement, canonical, before)
    ensures KnownFirmly(norm, engagement, canonical, after) && Known(norm, engagement, canonical, after)
  {
    var id, k :| CarriesKey(norm, engagement, canonical, before, id, k) && norm(k) == Some(k);
    assert CarriesKey(norm, engagement, canonical, after, id, k);
  }

  lemma AnchoredBecomesKnown(norm: Normalizer, engagement: EngagementId, canonical: CanonicalEntity,
      before: map<Id, Entity>, after: map<Id, Entity>, id: Id, matchedTier: Option<nat>)
    requires ResolvedAs(norm, engagement, canonical, before, after, id, matchedTier) && Anchored(norm, canonical)
    ensures KnownFirmly(norm, engagement, canonical, after)
  {
    var k :| IsKey(norm, canonical, k) && norm(k) == Some(k);
    if matchedTier.Some? {
      FoldedContents(norm, Images(norm, canonical), k);
    }
    assert CarriesKey(norm, engagement, canonical, after, id, k);
  }

  // ---------------------------------------------------------------------------
  // Edges
  // ---------------------------------------------------------------------------

  /** Which fact an `fde:` ref with a UUID names, if any. */
  type FactRef = Ref -> Option<Id>

  ghost predicate Resolvable(entities: map<Id, Entity>, facts: map<Id, EngagementId>, factOf: FactRef,
      engagement: EngagementId, ref: Ref) {
    || Carried(entities, engagement, ref)
    || (factOf(ref).Some? && NodeIn(entities, facts, FactNode(factOf(ref).value), engagement))
  }

  /** `n` is a node the ref may resolve to: an entity that carries it, else the fact it names. */
  ghost predicate ResolvesTo(entities: map<Id, Entity>, facts: map<Id, EngagementId>, factOf: FactRef,
      engagement: EngagementId, ref: Ref, n: Node) {
    && NodeIn(entities, facts, n, engagement)
    && (n.EntityNode? ==> ref in entities[n.id].refs)
    && (n.FactNode? ==> factOf(ref) == Some(n.id) && !Carried(entities, engagement, ref))
  }

  method ResolveEndpointRef(tx: Tables, factOf: FactRef, engagement: EngagementId, ref: Ref) returns (n: Option<Node>)
    ensures n.Some? <==> Resolvable(tx.entities, tx.facts, factOf, engagement, ref)
    ensures n.Some? ==> ResolvesTo(tx.entities, tx.facts, factOf, engagement, ref, n.value)
  {
    var hits := set id | id in tx.entities && tx.entities[id].engagement == engagement && ref in tx.entities[id].refs;
    if hits != {} {
      var id :| id in hits;
      return Some(EntityNode(id));
    }
    forall id | id in tx.entities && tx.entities[id].engagement == engagement && ref in tx.entities[id].refs
      ensures id in hits
    {
    }
    var fact := factOf(ref);
    if fact.Some? && fact.value in tx.facts && tx.facts[fact.value] == engagement {
      return Some(FactNode(fact.value));
    }
    return None;
  }

  method UpsertRelationship(tx: Tables, e: Edge) returns (inserted: bool)
    requires tx.Valid()
    requires NodeIn(tx.entities, tx.facts, e.from, e.engagement) && NodeIn(tx.entities, tx.facts, e.to, e.engagement)
    modifies tx`edges
    ensures tx.Valid()
    ensures tx.edges == InsertEdge(old(tx.edges), e)
    ensures inserted <==> !HasKey(old(tx.edges), KeyOf(e))
  {
    InsertEdgeEffect(tx.edges, e);
    inserted := !HasKey(tx.edges, KeyOf(e));
    if inserted {
      tx.edges := tx.edges + [e];
    }
  }
}
