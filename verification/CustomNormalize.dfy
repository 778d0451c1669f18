/** `normalizeCustomArtifact` of `packages/core/src/custom-integration-normalize.ts`: canonical records
    from a pushed payload by a declared mapping.  Which strings are blank is a parameter.  */
module CustomNormalize {
  import opened Options
  import opened DotPath
  import Refs

  datatype Attribute = Attribute(name: string, path: string)

  datatype EntityMapping = EntityMapping(key: string, etype: string, idPath: string, namePath: string,
    bodyPath: Option<string>, attributes: seq<Attribute>)

  datatype RelationshipMapping = RelationshipMapping(from: string, predicateName: string, to: string)

  datatype Mapping = Mapping(entities: seq<EntityMapping>, relationships: seq<RelationshipMapping>)

  datatype Resolved = Resolved(name: string, value: Value)

  datatype Record =
    | EntityRecord(etype: string, displayName: string, ref: Refs.Ref, attributes: seq<Resolved>, body: Option<string>)
    | RelationshipRecord(from: Refs.Ref, predicateName: string, to: Refs.Ref)

  datatype Issue =
    | NoId(entity: nat)
    | NoName(entity: nat)
    | BodyNotString(entity: nat)
    | NoAttribute(entity: nat, name: string)
    | NoEndpoint(relationship: nat, key: string)

  /** What a mapping is read against: the payload, as what its paths resolve to. */
  datatype Context = Context(connector: string, resolve: string -> Option<Value>, blank: string -> bool)

  function ContextOf(connector: string, payload: Value, blank: string -> bool): Context {
    Context(connector, (path: string) => Resolve(payload, path), blank)
  }

  function AsId(c: Context, v: Option<Value>): Option<string> {
    match v
    case Some(Str(s)) => if c.blank(s) || s == "" then None else Some(s)
    case Some(Num(rendered)) => if rendered == "" then None else Some(rendered)
    case _ => None
  }

  // ---------------------------------------------------------------------------
  // One entity
  // ---------------------------------------------------------------------------

  function AttributesOf(c: Context, attributes: seq<Attribute>): seq<Resolved> {
    if attributes == [] then []
    else
      var a := attributes[|attributes| - 1];
      var v := c.resolve(a.path);
      AttributesOf(c, attributes[..|attributes| - 1]) + if v.Some? then [Resolved(a.name, v.value)] else []
  }

  function AttributeIssues(c: Context, i: nat, attributes: seq<Attribute>): seq<Issue> {
    if attributes == [] then []
    else
      var a := attributes[|attributes| - 1];
      AttributeIssues(c, i, attributes[..|attributes| - 1])
      + if c.resolve(a.path).None? then [NoAttribute(i, a.name)] else []
  }

  function Body(c: Context, e: EntityMapping): Option<string> {
    if e.bodyPath.None? then None
    else
      match c.resolve(e.bodyPath.value)
      case Some(Str(s)) => if s == "" then None else Some(s)
      case _ => None
  }

  /** A body that is there, not null, and not a non-empty string. */
  function BodyIssues(c: Context, i: nat, e: EntityMapping): seq<Issue> {
    if e.bodyPath.None? then []
    else
      match c.resolve(e.bodyPath.value)
      case None => []
      case Some(Null) => []
      case Some(Str(s)) => if s == "" then [BodyNotString(i)] else []
      case _ => [BodyNotString(i)]
  }

  function IdOf(c: Context, e: EntityMapping): Option<string> {
    AsId(c, c.resolve(e.idPath))
  }

  function NameOf(c: Context, e: EntityMapping): Option<string> {
    AsId(c, c.resolve(e.namePath))
  }

  predicate Emits(c: Context, e: EntityMapping) {
    IdOf(c, e).Some? && NameOf(c, e).Some?
  }

  function RefOf(c: Context, e: EntityMapping): Refs.Ref
    requires Emits(c, e)
  {
    Refs.Ref(c.connector, IdOf(c, e).value)
  }

  function EntityOf(c: Context, e: EntityMapping): Record
    requires Emits(c, e)
  {
    EntityRecord(e.etype, NameOf(c, e).value, RefOf(c, e), AttributesOf(c, e.attributes), Body(c, e))
  }

  function EntityIssues(c: Context, i: nat, e: EntityMapping): seq<Issue> {
    (if IdOf(c, e).None? then [NoId(i)] else []) + (if NameOf(c, e).None? then [NoName(i)] else [])
    + if Emits(c, e) then BodyIssues(c, i, e) + AttributeIssues(c, i, e.attributes) else []
  }

  // ---------------------------------------------------------------------------
  // All entities, then all relationships
  // ---------------------------------------------------------------------------

  function EntityRecords(c: Context, entities: seq<EntityMapping>): seq<Record> {
    if entities == [] then []
    else
      var e := entities[|entities| - 1];
      EntityRecords(c, entities[..|entities| - 1]) + if Emits(c, e) then [EntityOf(c, e)] else []
  }

  function AllEntityIssues(c: Context, entities: seq<EntityMapping>): seq<Issue> {
    if entities == [] then []
    else AllEntityIssues(c, entities[..|entities| - 1]) + EntityIssues(c, |entities| - 1, entities[|entities| - 1])
  }

  /** The handle of each entity that emits, with its ref; a later entity of the same handle wins. */
  function EntityRefs(c: Context, entities: seq<EntityMapping>): map<string, Refs.Ref> {
    if entities == [] then map[]
    else
      var refs := EntityRefs(c, entities[..|entities| - 1]);
      var e := entities[|entities| - 1];
      if Emits(c, e) then refs[e.key := RefOf(c, e)] else refs
  }

  predicate Links(refs: map<string, Refs.Ref>, r: RelationshipMapping) {
    r.from in refs && r.to in refs
  }

  function LinkRecords(refs: map<string, Refs.Ref>, relationships: seq<RelationshipMapping>): seq<Record> {
    if relationships == [] then []
    else
      var r := relationships[|relationships| - 1];
      LinkRecords(refs, relationships[..|relationships| - 1])
      + if Links(refs, r) then [RelationshipRecord(refs[r.from], r.predicateName, refs[r.to])] else []
  }

  function LinkIssues(refs: map<string, Refs.Ref>, relationships: seq<RelationshipMapping>): seq<Issue> {
    if relationships == [] then []
    else
      var r := relationships[|relationships| - 1];
      LinkIssues(refs, relationships[..|relationships| - 1])
      + if Links(refs, r) then [] else [NoEndpoint(|relationships| - 1, if r.from in refs then r.to else r.from)]
  }

  function AllRecords(c: Context, m: Mapping): seq<Record> {
    EntityRecords(c, m.entities) + LinkRecords(EntityRefs(c, m.entities), m.relationships)
  }

  function AllIssues(c: Context, m: Mapping): seq<Issue> {
    AllEntityIssues(c, m.entities) + LinkIssues(EntityRefs(c, m.entities), m.relationships)
  }

  datatype Outcome = Ok(records: seq<Record>, issues: seq<Issue>) | ValidationError(issues: seq<Issue>)

  method ResolveAttributes(payload: Value, ghost c: Context, i: nat, wanted: seq<Attribute>)
    returns (attributes: seq<Resolved>, issues: seq<Issue>)
    requires forall path :: c.resolve(path) == Resolve(payload, path)
    ensures attributes == AttributesOf(c, wanted) && issues == AttributeIssues(c, i, wanted)
  {
    attributes, issues := [], [];
    for k := 0 to |wanted|
      invariant attributes == AttributesOf(c, wanted[..k]) && issues == AttributeIssues(c, i, wanted[..k])
    {
      assert wanted[..k + 1][..k] == wanted[..k];
      var v := ResolveDotPath(payload, wanted[k].path);
      if v.None? {
        issues := issues + [NoAttribute(i, wanted[k].name)];
      } else {
        attributes := attributes + [Resolved(wanted[k].name, v.value)];
      }
    }
    assert wanted[..|wanted|] == wanted;
  }

  /** The body of the entity loop. */
  method NormalizeEntity(payload: Value, c: Context, i: nat, e: EntityMapping)
    returns (record: Option<Record>, issues: seq<Issue>)
    requires forall path :: c.resolve(path) == Resolve(payload, path)
    ensures record == if Emits(c, e) then Some(EntityOf(c, e)) else None
    ensures issues == EntityIssues(c, i, e)
  {
    var id := ResolveDotPath(payload, e.idPath);
    var name := ResolveDotPath(payload, e.namePath);
    var externalId, displayName := AsId(c, id), AsId(c, name);
    issues := [];
    if externalId.None? {
      issues := issues + [NoId(i)];
    }
    if displayName.None? {
      issues := issues + [NoName(i)];
    }
    if externalId.None? || displayName.None? {
      return None, issues;
    }
    var attributes, missing := ResolveAttributes(payload, c, i, e.attributes);
    issues := issues + (BodyIssues(c, i, e) + missing);
    record := Some(EntityRecord(e.etype, displayName.value, Refs.Ref(c.connector, externalId.value), attributes,
      Body(c, e)));
  }

  method NormalizeEntities(payload: Value, c: Context, entities: seq<EntityMapping>)
    returns (records: seq<Record>, issues: seq<Issue>, refs: map<string, Refs.Ref>)
    requires forall path :: c.resolve(path) == Resolve(payload, path)
    ensures records == EntityRecords(c, entities) && issues == AllEntityIssues(c, entities)
      && refs == EntityRefs(c, entities)
  {
    records, issues, refs := [], [], map[];
    for i := 0 to |entities|
      invariant records == EntityRecords(c, entities[..i]) && issues == AllEntityIssues(c, entities[..i])
        && refs == EntityRefs(c, entities[..i])
    {
      assert entities[..i + 1][..i] == entities[..i];
      var record, found := NormalizeEntity(payload, c, i, entities[i]);
      issues := issues + found;
      if record.Some? {
        refs := refs[entities[i].key := record.value.ref];
        records := records + [record.value];
      }
    }
    assert entities[..|entities|] == entities;
  }

  method NormalizeRelationships(refs: map<string, Refs.Ref>, relationships: seq<RelationshipMapping>)
    returns (records: seq<Record>, issues: seq<Issue>)
    ensures records == LinkRecords(refs, relationships) && issues == LinkIssues(refs, relationships)
  {
    records, issues := [], [];
    for i := 0 to |relationships|
      invariant records == LinkRecords(refs, relationships[..i]) && issues == LinkIssues(refs, relationships[..i])
    {
      assert relationships[..i + 1][..i] == relationships[..i];
      var rel := relationships[i];
      if rel.from !in refs || rel.to !in refs {
        issues := issues + [NoEndpoint(i, if rel.from !in refs then rel.from else rel.to)];
      } else {
        records := records + [RelationshipRecord(refs[rel.from], rel.predicateName, refs[rel.to])];
      }
    }
    assert relationships[..|relationships|] == relationships;
  }

  /** `normalizeCustomArtifact` */
  method NormalizeCustomArtifact(connector: string, payload: Value, blank: string -> bool, m: Mapping, strict: bool)
    returns (r: Outcome)
    ensures var c := ContextOf(connector, payload, blank);
      r == if strict && AllIssues(c, m) != [] then ValidationError(AllIssues(c, m))
        else Ok(AllRecords(c, m), AllIssues(c, m))
  {
    var c := ContextOf(connector, payload, blank);
    var records, issues, refs := NormalizeEntities(payload, c, m.entities);
    var links, missing := NormalizeRelationships(refs, m.relationships);
    records, issues := records + links, issues + missing;
    if strict && issues != [] {
      return ValidationError(issues);
    }
    return Ok(records, issues);
  }

  // ---------------------------------------------------------------------------
  // Strict success means everything was emitted
  // ---------------------------------------------------------------------------

  /** The mapping schema: entity keys are unique. */
  ghost predicate UniqueEntityKeys(entities: seq<EntityMapping>) {
    forall i, j :: 0 <= i < j < |entities| ==> entities[i].key != entities[j].key
  }

  ghost predicate HasEntity(c: Context, entities: seq<EntityMapping>, key: string) {
    exists e :: e in entities && e.key == key && Emits(c, e)
  }

  lemma HasEntitySnoc(c: Context, entities: seq<EntityMapping>, e: EntityMapping, key: string)
    ensures HasEntity(c, entities + [e], key) <==> HasEntity(c, entities, key) || (e.key == key && Emits(c, e))
  {
    assert e in entities + [e];
    if HasEntity(c, entities, key) {
      var x :| x in entities && x.key == key && Emits(c, x);
      assert x in entities + [e];
    }
  }

  /** A handle has a ref exactly when its entity emits. */
  lemma {:induction false} RefKeys(c: Context, entities: seq<EntityMapping>, key: string)
    ensures key in EntityRefs(c, entities) <==> HasEntity(c, entities, key)
  {
    if entities != [] {
      var n := |entities| - 1;
      RefKeys(c, entities[..n], key);
      HasEntitySnoc(c, entities[..n], entities[n], key);
      assert entities == entities[..n] + [entities[n]];
    }
  }

  lemma {:induction false} RefValues(c: Context, entities: seq<EntityMapping>, i: nat)
    requires UniqueEntityKeys(entities) && i < |entities| && Emits(c, entities[i])
    ensures entities[i].key in EntityRefs(c, entities)
      && EntityRefs(c, entities)[entities[i].key] == RefOf(c, entities[i])
  {
    if i < |entities| - 1 {
      RefValues(c, entities[..|entities| - 1], i);
    }
  }

  lemma {:induction false} NoIssueEmits(c: Context, entities: seq<EntityMapping>, i: nat)
    requires AllEntityIssues(c, entities) == [] && i < |entities|
    ensures Emits(c, entities[i])
  {
    if i < |entities| - 1 {
      NoIssueEmits(c, entities[..|entities| - 1], i);
    }
  }

  lemma {:induction false} EmittedInOrder(c: Context, entities: seq<EntityMapping>)
    requires forall i :: 0 <= i < |entities| ==> Emits(c, entities[i])
    ensures |EntityRecords(c, entities)| == |entities|
    ensures forall i :: 0 <= i < |entities| ==> EntityRecords(c, entities)[i] == EntityOf(c, entities[i])
  {
    if entities != [] {
      EmittedInOrder(c, entities[..|entities| - 1]);
    }
  }

  lemma {:induction false} NoIssueLinks(refs: map<string, Refs.Ref>, relationships: seq<RelationshipMapping>)
    requires LinkIssues(refs, relationships) == []
    ensures |LinkRecords(refs, relationships)| == |relationships|
    ensures forall j :: 0 <= j < |relationships| ==>
      var r := relationships[j];
      Links(refs, r) && LinkRecords(refs, relationships)[j] ==
        RelationshipRecord(refs[r.from], r.predicateName, refs[r.to])
  {
    if relationships != [] {
      NoIssueLinks(refs, relationships[..|relationships| - 1]);
    }
  }

  /** `ref` is the ref of the record emitted for the entity called `key`. */
  ghost predicate IsRefOf(m: Mapping, records: seq<Record>, key: string, ref: Refs.Ref) {
    exists i :: 0 <= i < |m.entities| && i < |records| && m.entities[i].key == key && records[i].EntityRecord?
      && records[i].ref == ref
  }

  /** A relationship record with the mapped predicate whose ends are the refs of the named entities. */
  ghost predicate IsLinkOf(m: Mapping, records: seq<Record>, r: RelationshipMapping, rec: Record) {
    rec.RelationshipRecord? && rec.predicateName == r.predicateName && IsRefOf(m, records, r.from, rec.from)
      && IsRefOf(m, records, r.to, rec.to)
  }

  /** A strict normalization that succeeds: one record per mapped entity, then one per mapped
      relationship, in order; and every endpoint is the ref of the entity it names. */
  lemma {:induction false} StrictIsComplete(c: Context, m: Mapping)
    requires UniqueEntityKeys(m.entities) && AllIssues(c, m) == []
    ensures |AllRecords(c, m)| == |m.entities| + |m.relationships|
    ensures forall i :: 0 <= i < |m.entities| ==>
      Emits(c, m.entities[i]) && AllRecords(c, m)[i] == EntityOf(c, m.entities[i])
    ensures forall j :: 0 <= j < |m.relationships| ==>
      IsLinkOf(m, AllRecords(c, m), m.relationships[j], AllRecords(c, m)[|m.entities| + j])
  {
    EntitiesInPlace(c, m);
    LinksInPlace(c, m);
  }

  lemma EntitiesInPlace(c: Context, m: Mapping)
    requires AllIssues(c, m) == []
    ensures |AllRecords(c, m)| == |m.entities| + |m.relationships|
    ensures forall i :: 0 <= i < |m.entities| ==>
      Emits(c, m.entities[i]) && AllRecords(c, m)[i] == EntityOf(c, m.entities[i])
  {
    AllEmitted(c, m);
    NoIssueLinks(EntityRefs(c, m.entities), m.relationships);
  }

  lemma LinksInPlace(c: Context, m: Mapping)
    requires UniqueEntityKeys(m.entities) && AllIssues(c, m) == []
    ensures |AllRecords(c, m)| == |m.entities| + |m.relationships|
    ensures forall j :: 0 <= j < |m.relationships| ==>
      IsLinkOf(m, AllRecords(c, m), m.relationships[j], AllRecords(c, m)[|m.entities| + j])
  {
    NoIssueRecords(c, m);
    forall j | 0 <= j < |m.relationships|
      ensures IsLinkOf(m, AllRecords(c, m), m.relationships[j], AllRecords(c, m)[|m.entities| + j])
    {
      LinkInPlace(c, m, j);
    }
  }

  lemma NoIssueRecords(c: Context, m: Mapping)
    requires AllIssues(c, m) == []
    ensures |AllRecords(c, m)| == |m.entities| + |m.relationships|
  {
    AllEmitted(c, m);
    NoIssueLinks(EntityRefs(c, m.entities), m.relationships);
  }

  lemma AllEmitted(c: Context, m: Mapping)
    requires AllEntityIssues(c, m.entities) == []
    ensures |EntityRecords(c, m.entities)| == |m.entities|
    ensures forall i :: 0 <= i < |m.entities| ==>
      Emits(c, m.entities[i]) && EntityRecords(c, m.entities)[i] == EntityOf(c, m.entities[i])
  {
    forall i | 0 <= i < |m.entities| ensures Emits(c, m.entities[i]) {
      NoIssueEmits(c, m.entities, i);
    }
    EmittedInOrder(c, m.entities);
  }

  lemma LinkInPlace(c: Context, m: Mapping, j: nat)
    requires UniqueEntityKeys(m.entities) && AllIssues(c, m) == [] && j < |m.relationships|
    ensures |AllRecords(c, m)| == |m.entities| + |m.relationships|
    ensures IsLinkOf(m, AllRecords(c, m), m.relationships[j], AllRecords(c, m)[|m.entities| + j])
  {
    AllEmitted(c, m);
    NoIssueLinks(EntityRefs(c, m.entities), m.relationships);
    var rec := LinkRecords(EntityRefs(c, m.entities), m.relationships)[j];
    LinkNamesEntities(c, m, AllRecords(c, m), m.relationships[j], rec);
  }

  lemma LinkNamesEntities(c: Context, m: Mapping, records: seq<Record>, r: RelationshipMapping, rec: Record)
    requires UniqueEntityKeys(m.entities) && Links(EntityRefs(c, m.entities), r)
    requires var refs := EntityRefs(c, m.entities); rec == RelationshipRecord(refs[r.from], r.predicateName, refs[r.to])
    requires |records| >= |m.entities| && forall i :: 0 <= i < |m.entities| ==>
      Emits(c, m.entities[i]) && records[i] == EntityOf(c, m.entities[i])
    ensures IsLinkOf(m, records, r, rec)
  {
    RefIsEmitted(c, m, records, r.from);
    RefIsEmitted(c, m, records, r.to);
  }

  lemma RefIsEmitted(c: Context, m: Mapping, records: seq<Record>, k: string)
    requires UniqueEntityKeys(m.entities) && k in EntityRefs(c, m.entities)
    requires |records| >= |m.entities| && forall i :: 0 <= i < |m.entities| ==>
      Emits(c, m.entities[i]) && records[i] == EntityOf(c, m.entities[i])
    ensures IsRefOf(m, records, k, EntityRefs(c, m.entities)[k])
  {
    RefKeys(c, m.entities, k);
    var e :| e in m.entities && e.key == k && Emits(c, e);
    var i :| 0 <= i < |m.entities| && m.entities[i] == e;
    RefValues(c, m.entities, i);
    assert records[i].ref == RefOf(c, e);
  }

  /** `ref` is the ref of the last entity called `key` that emits. */
  ghost predicate NamedRef(c: Context, entities: seq<EntityMapping>, key: string, ref: Refs.Ref) {
    exists i :: 0 <= i < |entities| && LastNamed(c, entities, key, i) && RefOf(c, entities[i]) == ref
  }

  ghost predicate LastNamed(c: Context, entities: seq<EntityMapping>, key: string, i: nat) {
    && i < |entities| && entities[i].key == key && Emits(c, entities[i])
    && forall j :: i < j < |entities| ==> !(entities[j].key == key && Emits(c, entities[j]))
  }

  lemma {:induction false} RefsExactly(c: Context, entities: seq<EntityMapping>, key: string, ref: Refs.Ref)
    ensures (key in EntityRefs(c, entities) && EntityRefs(c, entities)[key] == ref) <==> NamedRef(c, entities, key, ref)
  {
    if entities != [] {
      var n := |entities| - 1;
      var e := entities[n];
      RefsExactly(c, entities[..n], key, ref);
      if e.key == key && Emits(c, e) {
        assert forall i :: 0 <= i < n ==> !LastNamed(c, entities, key, i);
        assert LastNamed(c, entities, key, n);
      } else {
        assert !LastNamed(c, entities, key, n);
        forall i | 0 <= i < n ensures LastNamed(c, entities, key, i) <==> LastNamed(c, entities[..n], key, i) {
          LastNamedInit(c, entities, key, i);
        }
      }
    }
  }

  lemma LastNamedInit(c: Context, entities: seq<EntityMapping>, key: string, i: nat)
    requires i < |entities| - 1
    requires var e := entities[|entities| - 1]; !(e.key == key && Emits(c, e))
    ensures LastNamed(c, entities, key, i) <==> LastNamed(c, entities[..|entities| - 1], key, i)
  {
    var init := entities[..|entities| - 1];
    assert forall j :: 0 <= j < |init| ==> init[j] == entities[j];
  }

  /** `rec` is what the relationship `r` gives: its predicate between the refs that its handles name. */
  ghost predicate LinkOf(c: Context, entities: seq<EntityMapping>, r: RelationshipMapping, rec: Record) {
    rec.RelationshipRecord? && rec.predicateName == r.predicateName
    && NamedRef(c, entities, r.from, rec.from) && NamedRef(c, entities, r.to, rec.to)
  }

  /** In any mode: a relationship record is emitted if and only if it joins the refs of the two
      emitting entities that some mapped relationship names. */
  lemma {:induction false} LinksExactly(c: Context, entities: seq<EntityMapping>,
      relationships: seq<RelationshipMapping>, rec: Record)
    ensures rec in LinkRecords(EntityRefs(c, entities), relationships) <==>
      exists r :: r in relationships && LinkOf(c, entities, r, rec)
  {
    if relationships != [] {
      var n := |relationships| - 1;
      var r := relationships[n];
      assert relationships == relationships[..n] + [r];
      LinksExactly(c, entities, relationships[..n], rec);
      LastLink(c, entities, r, rec);
    }
  }

  lemma LastLink(c: Context, entities: seq<EntityMapping>, r: RelationshipMapping, rec: Record)
    ensures var refs := EntityRefs(c, entities);
      LinkOf(c, entities, r, rec) <==>
        Links(refs, r) && rec == RelationshipRecord(refs[r.from], r.predicateName, refs[r.to])
  {
    if rec.RelationshipRecord? {
      RefsExactly(c, entities, r.from, rec.from);
      RefsExactly(c, entities, r.to, rec.to);
    }
  }

  /** And one for each such relationship. */
  lemma {:induction false} LinkCount(c: Context, entities: seq<EntityMapping>, relationships: seq<RelationshipMapping>)
    ensures |LinkRecords(EntityRefs(c, entities), relationships)| == Linkable(c, entities, relationships)
  {
    if relationships != [] {
      var n := |relationships| - 1;
      LinkCount(c, entities, relationships[..n]);
      RefKeys(c, entities, relationships[n].from);
      RefKeys(c, entities, relationships[n].to);
    }
  }

  /** How many relationships join entities that emit. */
  ghost function Linkable(c: Context, entities: seq<EntityMapping>, relationships: seq<RelationshipMapping>): nat {
    if relationships == [] then 0
    else
      var r := relationships[|relationships| - 1];
      Linkable(c, entities, relationships[..|relationships| - 1])
      + if HasEntity(c, entities, r.from) && HasEntity(c, entities, r.to) then 1 else 0
  }

  // ---------------------------------------------------------------------------
  // One entity, field by field
  // ---------------------------------------------------------------------------

  /** A string that is neither empty nor blank, or a number as it renders. */
  ghost predicate Identifies(c: Context, path: string, id: string) {
    && id != ""
    && ((c.resolve(path) == Some(Str(id)) && !c.blank(id)) || c.resolve(path) == Some(Num(id)))
  }

  /** The record of a mapped entity: type and connector as declared, id and name from their paths, each
      attribute whose path leads somewhere, and the text at the body path, if it is a non-empty string. */
  ghost predicate RecordFor(c: Context, e: EntityMapping, rec: Record) {
    && rec.EntityRecord? && rec.etype == e.etype && rec.ref.connector == c.connector
    && Identifies(c, e.idPath, rec.ref.externalId) && Identifies(c, e.namePath, rec.displayName)
    && (forall v :: v in rec.attributes <==>
          exists a :: a in e.attributes && a.name == v.name && c.resolve(a.path) == Some(v.value))
    && (forall body :: rec.body == Some(body) <==>
          e.bodyPath.Some? && body != "" && c.resolve(e.bodyPath.value) == Some(Str(body)))
  }

  lemma {:induction false} AttributesExactly(c: Context, attributes: seq<Attribute>, v: Resolved)
    ensures v in AttributesOf(c, attributes) <==>
      exists a :: a in attributes && a.name == v.name && c.resolve(a.path) == Some(v.value)
  {
    if attributes != [] {
      var n := |attributes| - 1;
      AttributesExactly(c, attributes[..n], v);
      assert attributes == attributes[..n] + [attributes[n]];
    }
  }

  lemma IdentifiesExactly(c: Context, path: string)
    ensures AsId(c, c.resolve(path)).Some? <==> exists id :: Identifies(c, path, id)
    ensures AsId(c, c.resolve(path)).Some? ==> Identifies(c, path, AsId(c, c.resolve(path)).value)
  {
    if AsId(c, c.resolve(path)).Some? {
      assert Identifies(c, path, AsId(c, c.resolve(path)).value);
    }
  }

  /** An entity emits its record exactly when its payload has an id and a name. */
  lemma {:induction false} EntityExactly(c: Context, e: EntityMapping)
    ensures Emits(c, e) <==>
      (exists id :: Identifies(c, e.idPath, id)) && (exists name :: Identifies(c, e.namePath, name))
    ensures Emits(c, e) ==> RecordFor(c, e, EntityOf(c, e))
  {
    IdentifiesExactly(c, e.idPath);
    IdentifiesExactly(c, e.namePath);
    if Emits(c, e) {
      forall v ensures v in EntityOf(c, e).attributes <==>
        exists a :: a in e.attributes && a.name == v.name && c.resolve(a.path) == Some(v.value)
      {
        AttributesExactly(c, e.attributes, v);
      }
    }
  }

  // ---------------------------------------------------------------------------
  // Which issues are raised
  // ---------------------------------------------------------------------------

  /** The payload has an id and a name for the entity. */
  ghost predicate Present(c: Context, e: EntityMapping) {
    (exists id :: Identifies(c, e.idPath, id)) && (exists name :: Identifies(c, e.namePath, name))
  }

  /** What is wrong with entity `i`: no id, no name; or, when it has both, a body that is there, not null and
      not a non-empty string, or an attribute whose path leads nowhere. */
  ghost predicate EntityRaises(c: Context, i: nat, e: EntityMapping, x: Issue) {
    match x
    case NoId(k) => k == i && !exists id :: Identifies(c, e.idPath, id)
    case NoName(k) => k == i && !exists name :: Identifies(c, e.namePath, name)
    case BodyNotString(k) => k == i && Present(c, e) && e.bodyPath.Some? && BadBody(c.resolve(e.bodyPath.value))
    case NoAttribute(k, name) => k == i && Present(c, e) && LacksAttribute(c, e.attributes, name)
    case NoEndpoint(_, _) => false
  }

  predicate BadBody(v: Option<Value>) {
    v.Some? && v.value != Null && (v.value.Str? ==> v.value.s == "")
  }

  ghost predicate LacksAttribute(c: Context, attributes: seq<Attribute>, name: string) {
    exists a :: a in attributes && a.name == name && c.resolve(a.path) == None
  }

  /** What is wrong with relationship `j`: an end that no entity with an id and a name is called, the first
      end before the second. */
  ghost predicate LinkRaises(c: Context, entities: seq<EntityMapping>, j: nat, r: RelationshipMapping, x: Issue) {
    && x.NoEndpoint? && x.relationship == j
    && if Absent(c, entities, r.from) then x.key == r.from else x.key == r.to && Absent(c, entities, r.to)
  }

  ghost predicate Absent(c: Context, entities: seq<EntityMapping>, key: string) {
    forall e :: e in entities && e.key == key ==> !Present(c, e)
  }

  ghost predicate Raised(c: Context, m: Mapping, x: Issue) {
    || (exists i :: 0 <= i < |m.entities| && EntityRaises(c, i, m.entities[i], x))
    || (exists j :: 0 <= j < |m.relationships| && LinkRaises(c, m.entities, j, m.relationships[j], x))
  }

  lemma {:induction false} AttributeIssuesExactly(c: Context, i: nat, attributes: seq<Attribute>, x: Issue)
    ensures x in AttributeIssues(c, i, attributes) <==>
      x.NoAttribute? && x.entity == i && LacksAttribute(c, attributes, x.name)
  {
    if attributes != [] {
      var n := |attributes| - 1;
      AttributeIssuesExactly(c, i, attributes[..n], x);
      assert attributes == attributes[..n] + [attributes[n]];
      if x.NoAttribute? {
        assert LacksAttribute(c, attributes, x.name) <==>
          LacksAttribute(c, attributes[..n], x.name)
          || (attributes[n].name == x.name && c.resolve(attributes[n].path) == None);
      }
    }
  }

  lemma EntityIssuesExactly(c: Context, i: nat, e: EntityMapping, x: Issue)
    ensures x in EntityIssues(c, i, e) <==> EntityRaises(c, i, e, x)
  {
    IdentifiesExactly(c, e.idPath);
    IdentifiesExactly(c, e.namePath);
    AttributeIssuesExactly(c, i, e.attributes, x);
    BodyIssuesExactly(c, i, e, x);
  }

  lemma BodyIssuesExactly(c: Context, i: nat, e: EntityMapping, x: Issue)
    ensures x in BodyIssues(c, i, e) <==>
      x == BodyNotString(i) && e.bodyPath.Some? && BadBody(c.resolve(e.bodyPath.value))
  {
  }

  ghost predicate SomeEntityRaises(c: Context, entities: seq<EntityMapping>, x: Issue) {
    exists i :: 0 <= i < |entities| && EntityRaises(c, i, entities[i], x)
  }

  lemma LastRaises(c: Context, entities: seq<EntityMapping>, x: Issue)
    requires entities != []
    ensures var n := |entities| - 1;
      SomeEntityRaises(c, entities, x) <==>
        SomeEntityRaises(c, entities[..n], x) || EntityRaises(c, n, entities[n], x)
  {
    var init := entities[..|entities| - 1];
    if i :| 0 <= i < |init| && EntityRaises(c, i, init[i], x) {
      assert entities[i] == init[i];
    }
    if i :| 0 <= i < |init| && EntityRaises(c, i, entities[i], x) {
      assert entities[i] == init[i];
    }
  }

  lemma LastEntityIssues(c: Context, entities: seq<EntityMapping>, x: Issue)
    requires entities != []
    ensures var n := |entities| - 1;
      x in AllEntityIssues(c, entities) <==>
        x in AllEntityIssues(c, entities[..n]) || EntityRaises(c, n, entities[n], x)
  {
    EntityIssuesExactly(c, |entities| - 1, entities[|entities| - 1], x);
  }

  lemma {:induction false} AllEntityIssuesExactly(c: Context, entities: seq<EntityMapping>, x: Issue)
    ensures x in AllEntityIssues(c, entities) <==> SomeEntityRaises(c, entities, x)
  {
    if entities != [] {
      var n := |entities| - 1;
      AllEntityIssuesExactly(c, entities[..n], x);
      LastEntityIssues(c, entities, x);
      LastRaises(c, entities, x);
    }
  }

  lemma AbsentExactly(c: Context, entities: seq<EntityMapping>, key: string)
    ensures key !in EntityRefs(c, entities) <==> Absent(c, entities, key)
  {
    RefKeys(c, entities, key);
    forall e ensures Emits(c, e) <==> Present(c, e) {
      EntityExactly(c, e);
    }
  }

  ghost predicate SomeLinkRaises(c: Context, entities: seq<EntityMapping>, relationships: seq<RelationshipMapping>,
      x: Issue) {
    exists j :: 0 <= j < |relationships| && LinkRaises(c, entities, j, relationships[j], x)
  }

  lemma SomeLinkSnoc(c: Context, entities: seq<EntityMapping>, relationships: seq<RelationshipMapping>,
      r: RelationshipMapping, x: Issue)
    ensures SomeLinkRaises(c, entities, relationships + [r], x) <==>
      SomeLinkRaises(c, entities, relationships, x) || LinkRaises(c, entities, |relationships|, r, x)
  {
    var all := relationships + [r];
    if j :| 0 <= j < |relationships| && LinkRaises(c, entities, j, relationships[j], x) {
      assert all[j] == relationships[j];
    }
    if LinkRaises(c, entities, |relationships|, r, x) {
      assert all[|relationships|] == r;
    }
  }

  lemma {:induction false} LinkIssuesExactly(c: Context, entities: seq<EntityMapping>,
      relationships: seq<RelationshipMapping>, x: Issue)
    ensures x in LinkIssues(EntityRefs(c, entities), relationships) <==> SomeLinkRaises(c, entities, relationships, x)
  {
    if relationships != [] {
      var n := |relationships| - 1;
      LinkIssuesExactly(c, entities, relationships[..n], x);
      AbsentExactly(c, entities, relationships[n].from);
      AbsentExactly(c, entities, relationships[n].to);
      SomeLinkSnoc(c, entities, relationships[..n], relationships[n], x);
      assert relationships == relationships[..n] + [relationships[n]];
    }
  }

  /** The issues reported, and so what makes a strict normalization fail, are exactly these. */
  lemma {:induction false} IssuesExactly(c: Context, m: Mapping, x: Issue)
    ensures x in AllIssues(c, m) <==> Raised(c, m, x)
  {
    AllEntityIssuesExactly(c, m.entities, x);
    LinkIssuesExactly(c, m.entities, m.relationships, x);
  }
}
