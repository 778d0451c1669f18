/** The typed helpers of `packages/authz/src/client.ts` over the platform-role schema. */
module AuthzClient {
  import opened Options
  import opened Relations
  import opened InMemoryAuthz

  datatype EngagementRole = Viewer | Member | Admin

  datatype TenantRole = TenantMember | TenantAdmin

  function RoleName(role: EngagementRole): string {
    match role
    case Viewer => "viewer"
    case Member => "member"
    case Admin => "admin"
  }

  function TenantRoleName(role: TenantRole): string {
    match role
    case TenantMember => "member"
    case TenantAdmin => "admin"
  }

  /** `RULES` of `in-memory.ts` */
  const PLATFORM_RULES: Rules :=
    map[
      ("tenant", "administer") := [Rel("admin")],
      ("tenant", "belong") := [Rel("admin"), Rel("member")],
      ("engagement", "view") := [Rel("viewer"), Rel("member"), Rel("admin"), Arrow("parent_tenant", "administer")],
      ("engagement", "contribute") := [Rel("member"), Rel("admin")],
      ("engagement", "administer") := [Rel("admin")]
    ]

  datatype HelperCall =
    | GrantEngagementRole(user: string, engagement: string, role: EngagementRole)
    | RevokeEngagementRoles(user: string, engagement: string)
    | GrantTenantRole(user: string, tenant: string, tenantRole: TenantRole)
    | RevokeTenantRoles(user: string, tenant: string)
    | LinkEngagementToTenant(engagement: string, tenant: string)

  function EngagementTuple(user: string, engagement: string, role: EngagementRole): Tuple {
    Tuple("engagement", engagement, RoleName(role), "user", user, "")
  }

  function TenantTuple(user: string, tenant: string, role: TenantRole): Tuple {
    Tuple("tenant", tenant, TenantRoleName(role), "user", user, "")
  }

  function LinkTuple(engagement: string, tenant: string): Tuple {
    Tuple("engagement", engagement, "parent_tenant", "tenant", tenant, "")
  }

  /** What the delegated call does to the stored set. */
  function After(ts: set<Tuple>, call: HelperCall): set<Tuple> {
    match call
    case GrantEngagementRole(u, e, role) => ts + {EngagementTuple(u, e, role)}
    case RevokeEngagementRoles(u, e) => set t | t in ts && !MatchesFilter(t, RevocationFilter("engagement", e, u))
    case GrantTenantRole(u, tenant, role) => ts + {TenantTuple(u, tenant, role)}
    case RevokeTenantRoles(u, tenant) => set t | t in ts && !MatchesFilter(t, RevocationFilter("tenant", tenant, u))
    case LinkEngagementToTenant(e, tenant) => ts + {LinkTuple(e, tenant)}
  }

  function RevocationFilter(resourceType: string, resourceId: string, user: string): Filter {
    Filter(resourceType, Some(resourceId), None, Some(SubjectFilter("user", Some(user), None)))
  }

  function Run(ts: set<Tuple>, calls: seq<HelperCall>): set<Tuple> {
    if calls == [] then ts else After(Run(ts, calls[..|calls| - 1]), calls[|calls| - 1])
  }

  /** Each helper is one write or one delete, and never fails. */
  method Perform(store: InMemoryAuthzClient, call: HelperCall)
    requires NoDuplicates(store.tuples)
    modifies store
    ensures NoDuplicates(store.tuples)
    ensures Stored(store.tuples) == After(Stored(old(store.tuples)), call)
  {
    match call {
      case GrantEngagementRole(u, e, role) => TouchOne(store, EngagementTuple(u, e, role));
      case GrantTenantRole(u, tenant, role) => TouchOne(store, TenantTuple(u, tenant, role));
      case LinkEngagementToTenant(e, tenant) => TouchOne(store, LinkTuple(e, tenant));
      case RevokeEngagementRoles(u, e) => store.DeleteRelationships(RevocationFilter("engagement", e, u));
      case RevokeTenantRoles(u, tenant) => store.DeleteRelationships(RevocationFilter("tenant", tenant, u));
    }
  }

  method TouchOne(store: InMemoryAuthzClient, t: Tuple)
    requires NoDuplicates(store.tuples)
    modifies store
    ensures NoDuplicates(store.tuples)
    ensures Stored(store.tuples) == Stored(old(store.tuples)) + {t}
  {
    var us := [Update(TOUCH, t)];
    assert us[..0] == [] && us[..1] == us;
    assert UpdatedAll(Stored(store.tuples), us) == Updated(UpdatedAll(Stored(store.tuples), us[..0]), us[0]);
    var failed := store.WriteRelationships(us);
  }

  // ---------------------------------------------------------------------------
  // What a run of helpers lets a user do
  // ---------------------------------------------------------------------------

  /** The tuples the helpers write. */
  predicate Platform(t: Tuple) {
    t.subjectRelation == "" &&
    ( || (t.resourceType == "engagement" && t.relation in {"viewer", "member", "admin"} && t.subjectType == "user")
      || (t.resourceType == "engagement" && t.relation == "parent_tenant" && t.subjectType == "tenant")
      || (t.resourceType == "tenant" && t.relation in {"member", "admin"} && t.subjectType == "user"))
  }

  lemma AfterIsPlatform(ts: set<Tuple>, call: HelperCall)
    requires forall t :: t in ts ==> Platform(t)
    ensures forall t :: t in After(ts, call) ==> Platform(t)
  {
    match call {
      case GrantEngagementRole(u, e, role) => assert RoleName(role) in {"viewer", "member", "admin"};
      case GrantTenantRole(u, tenant, role) => assert TenantRoleName(role) in {"member", "admin"};
      case _ =>
    }
  }

  lemma {:induction false} RunIsPlatform(calls: seq<HelperCall>)
    ensures forall t :: t in Run({}, calls) ==> Platform(t)
  {
    if calls != [] {
      RunIsPlatform(calls[..|calls| - 1]);
      AfterIsPlatform(Run({}, calls[..|calls| - 1]), calls[|calls| - 1]);
    }
  }

  ghost predicate Can(ts: seq<Tuple>, user: string, permission: string, resourceType: string, resourceId: string) {
    Key(resourceType, resourceId, permission) in Derivable(ts, PLATFORM_RULES, Subject("user", user))
  }

  ghost predicate HasRole(ts: set<Tuple>, user: string, engagement: string, role: EngagementRole) {
    EngagementTuple(user, engagement, role) in ts
  }

  ghost predicate AdminOfLinkedTenant(ts: set<Tuple>, user: string, engagement: string) {
    exists tenant :: LinkTuple(engagement, tenant) in ts && TenantTuple(user, tenant, TenantAdmin) in ts
  }

  /** On platform tuples a relation holds exactly by a direct tuple. */
  lemma DirectRelation(ts: seq<Tuple>, s: Subject, granted: iset<Key>, resourceType: string, resourceId: string,
      relation: string)
    requires forall t :: t in ts ==> Platform(t)
    ensures RelationGiven(ts, s, granted, resourceType, resourceId, relation)
       <==> Tuple(resourceType, resourceId, relation, s.stype, s.id, "") in ts
  {
    var t := Tuple(resourceType, resourceId, relation, s.stype, s.id, "");
    if t in ts {
      assert On(t, resourceType, resourceId, relation) && Grants(s, granted, t);
    }
  }

  lemma RuleOf(ts: seq<Tuple>, s: Subject, n: Key, union: seq<Rule>)
    requires (n.resourceType, n.name) in PLATFORM_RULES && PLATFORM_RULES[(n.resourceType, n.name)] == union
    ensures n in Derivable(ts, PLATFORM_RULES, s) <==>
            exists i :: 0 <= i < |union|
              && RuleGiven(ts, s, Derivable(ts, PLATFORM_RULES, s), n.resourceType, n.resourceId, union[i])
  {
    DerivableIsFixedPoint(ts, PLATFORM_RULES, s, n);
    assert forall i :: 0 <= i < |union| ==> union[i] in union;
  }

  lemma {:induction false} TenantAdministerExactly(ts: seq<Tuple>, user: string, tenant: string)
    requires forall t :: t in ts ==> Platform(t)
    ensures Can(ts, user, "administer", "tenant", tenant) <==> TenantTuple(user, tenant, TenantAdmin) in Stored(ts)
  {
    var s := Subject("user", user);
    var D := Derivable(ts, PLATFORM_RULES, s);
    var union := [Rel("admin")];
    RuleOf(ts, s, Key("tenant", tenant, "administer"), union);
    DirectRelation(ts, s, D, "tenant", tenant, "admin");
    assert RuleGiven(ts, s, D, "tenant", tenant, union[0]) <==> TenantTuple(user, tenant, TenantAdmin) in ts;
  }

  lemma {:induction false} ContributeExactly(ts: seq<Tuple>, user: string, engagement: string)
    requires forall t :: t in ts ==> Platform(t)
    ensures Can(ts, user, "contribute", "engagement", engagement)
       <==> HasRole(Stored(ts), user, engagement, Member) || HasRole(Stored(ts), user, engagement, Admin)
  {
    var s := Subject("user", user);
    var D := Derivable(ts, PLATFORM_RULES, s);
    var union := [Rel("member"), Rel("admin")];
    RuleOf(ts, s, Key("engagement", engagement, "contribute"), union);
    DirectRelation(ts, s, D, "engagement", engagement, "member");
    DirectRelation(ts, s, D, "engagement", engagement, "admin");
    assert RuleGiven(ts, s, D, "engagement", engagement, union[0]) <==> EngagementTuple(user, engagement, Member) in ts;
    assert RuleGiven(ts, s, D, "engagement", engagement, union[1]) <==> EngagementTuple(user, engagement, Admin) in ts;
  }

  lemma {:induction false} AdministerExactly(ts: seq<Tuple>, user: string, engagement: string)
    requires forall t :: t in ts ==> Platform(t)
    ensures Can(ts, user, "administer", "engagement", engagement) <==> HasRole(Stored(ts), user, engagement, Admin)
  {
    var s := Subject("user", user);
    var D := Derivable(ts, PLATFORM_RULES, s);
    var union := [Rel("admin")];
    RuleOf(ts, s, Key("engagement", engagement, "administer"), union);
    DirectRelation(ts, s, D, "engagement", engagement, "admin");
    assert RuleGiven(ts, s, D, "engagement", engagement, union[0]) <==> EngagementTuple(user, engagement, Admin) in ts;
  }

  lemma ArrowExactly(ts: seq<Tuple>, user: string, engagement: string)
    requires forall t :: t in ts ==> Platform(t)
    ensures RuleGiven(ts, Subject("user", user), Derivable(ts, PLATFORM_RULES, Subject("user", user)), "engagement",
      engagement, Arrow("parent_tenant", "administer"))
       <==> AdminOfLinkedTenant(Stored(ts), user, engagement)
  {
    var s := Subject("user", user);
    var D := Derivable(ts, PLATFORM_RULES, s);
    if RuleGiven(ts, s, D, "engagement", engagement, Arrow("parent_tenant", "administer")) {
      var t :| t in ts && On(t, "engagement", engagement, "parent_tenant") && SubjectKey(t, "administer") in D;
      assert t == LinkTuple(engagement, t.subjectId);
      TenantAdministerExactly(ts, user, t.subjectId);
    }
    if AdminOfLinkedTenant(Stored(ts), user, engagement) {
      var tenant :| LinkTuple(engagement, tenant) in Stored(ts) && TenantTuple(user, tenant, TenantAdmin) in Stored(ts);
      TenantAdministerExactly(ts, user, tenant);
      var t := LinkTuple(engagement, tenant);
      assert On(t, "engagement", engagement, "parent_tenant") && SubjectKey(t, "administer") in D;
    }
  }

  lemma {:induction false} ViewExactly(ts: seq<Tuple>, user: string, engagement: string)
    requires forall t :: t in ts ==> Platform(t)
    ensures Can(ts, user, "view", "engagement", engagement)
       <==>
          (exists role :: HasRole(Stored(ts), user, engagement, role))
          || AdminOfLinkedTenant(Stored(ts), user, engagement)
  {
    var s := Subject("user", user);
    var D := Derivable(ts, PLATFORM_RULES, s);
    var union := [Rel("viewer"), Rel("member"), Rel("admin"), Arrow("parent_tenant", "administer")];
    RuleOf(ts, s, Key("engagement", engagement, "view"), union);
    DirectRelation(ts, s, D, "engagement", engagement, "viewer");
    DirectRelation(ts, s, D, "engagement", engagement, "member");
    DirectRelation(ts, s, D, "engagement", engagement, "admin");
    ArrowExactly(ts, user, engagement);
    assert RuleGiven(ts, s, D, "engagement", engagement, union[0]) <==> HasRole(Stored(ts), user, engagement, Viewer);
    assert RuleGiven(ts, s, D, "engagement", engagement, union[1]) <==> HasRole(Stored(ts), user, engagement, Member);
    assert RuleGiven(ts, s, D, "engagement", engagement, union[2]) <==> HasRole(Stored(ts), user, engagement, Admin);
    assert RuleGiven(ts, s, D, "engagement", engagement, union[3]) <==>
      AdminOfLinkedTenant(Stored(ts), user, engagement);
  }

  /** No call of the run grants the user a role on the engagement. */
  ghost predicate NeverGrants(calls: seq<HelperCall>, user: string, engagement: string) {
    forall i :: 0 <= i < |calls| && calls[i].GrantEngagementRole? ==>
      calls[i].user != user || calls[i].engagement != engagement
  }

  lemma AfterKeepsRevoked(ts: set<Tuple>, call: HelperCall, user: string, engagement: string)
    requires call.GrantEngagementRole? ==> call.user != user || call.engagement != engagement
    requires forall role :: !HasRole(ts, user, engagement, role)
    ensures forall role :: !HasRole(After(ts, call), user, engagement, role)
  {
    assert |"tenant"| != |"engagement"| && |"tenant"| != |"user"|;
    forall role ensures !HasRole(After(ts, call), user, engagement, role) {
      assert !HasRole(ts, user, engagement, role);
    }
  }

  lemma {:induction false} RevokedStays(ts: set<Tuple>, calls: seq<HelperCall>, user: string, engagement: string)
    requires NeverGrants(calls, user, engagement)
    requires forall role :: !HasRole(ts, user, engagement, role)
    ensures forall role :: !HasRole(Run(ts, calls), user, engagement, role)
  {
    if calls != [] {
      RevokedStays(ts, calls[..|calls| - 1], user, engagement);
      AfterKeepsRevoked(Run(ts, calls[..|calls| - 1]), calls[|calls| - 1], user, engagement);
    }
  }

  /** After any run of helpers, `revokeEngagementRoles`, and any further run that does not grant the
      user a role on that engagement again: the user can neither contribute nor administer, and can
      view exactly as an administrator of a linked parent tenant. */
  lemma {:induction false} RevocationHolds(before: seq<HelperCall>, later: seq<HelperCall>, ts: seq<Tuple>,
      user: string, engagement: string)
    requires Stored(ts) == Run(After(Run({}, before), RevokeEngagementRoles(user, engagement)), later)
    requires NeverGrants(later, user, engagement)
    ensures !Can(ts, user, "contribute", "engagement", engagement)
    ensures !Can(ts, user, "administer", "engagement", engagement)
    ensures Can(ts, user, "view", "engagement", engagement) <==> AdminOfLinkedTenant(Stored(ts), user, engagement)
  {
    var calls := before + [RevokeEngagementRoles(user, engagement)];
    assert calls[..|calls| - 1] == before;
    RunAppend({}, calls, later);
    RunIsPlatform(calls + later);
    assert forall t :: t in ts ==> t in Stored(ts);
    RevokedStays(Run({}, calls), later, user, engagement);
    ContributeExactly(ts, user, engagement);
    AdministerExactly(ts, user, engagement);
    ViewExactly(ts, user, engagement);
  }

  lemma {:induction false} RunAppend(ts: set<Tuple>, calls: seq<HelperCall>, later: seq<HelperCall>)
    ensures Run(ts, calls + later) == Run(Run(ts, calls), later)
  {
    if later == [] {
      assert calls + later == calls;
    } else {
      var n := |later| - 1;
      assert (calls + later)[..|calls + later| - 1] == calls + later[..n];
      RunAppend(ts, calls, later[..n]);
    }
  }

  /** Revoking one user on one engagement changes nobody else's permissions, nor that user's elsewhere. */
  lemma {:induction false} RevocationIsLocal(before: seq<HelperCall>, ts: seq<Tuple>, ts': seq<Tuple>, user: string,
      engagement: string, user': string, engagement': string)
    requires Stored(ts) == Run({}, before)
    requires Stored(ts') == After(Run({}, before), RevokeEngagementRoles(user, engagement))
    requires user' != user || engagement' != engagement
    ensures Can(ts, user', "view", "engagement", engagement') <==> Can(ts', user', "view", "engagement", engagement')
    ensures Can(ts, user', "contribute", "engagement", engagement') <==>
      Can(ts', user', "contribute", "engagement", engagement')
    ensures Can(ts, user', "administer", "engagement", engagement') <==>
      Can(ts', user', "administer", "engagement", engagement')
  {
    RunIsPlatform(before);
    assert forall t :: t in ts ==> t in Stored(ts);
    assert forall t :: t in ts' ==> t in Stored(ts');
    ContributeExactly(ts, user', engagement');
    ContributeExactly(ts', user', engagement');
    AdministerExactly(ts, user', engagement');
    AdministerExactly(ts', user', engagement');
    ViewExactly(ts, user', engagement');
    ViewExactly(ts', user', engagement');
    assert forall role :: HasRole(Stored(ts), user', engagement', role) <==>
      HasRole(Stored(ts'), user', engagement', role);
    assert forall tenant :: LinkTuple(engagement', tenant) in Stored(ts) <==>
      LinkTuple(engagement', tenant) in Stored(ts');
    assert forall tenant :: TenantTuple(user', tenant, TenantAdmin) in Stored(ts) <==>
      TenantTuple(user', tenant, TenantAdmin) in Stored(ts');
  }

  lemma {:induction false} BelongExactly(ts: seq<Tuple>, user: string, tenant: string)
    requires forall t :: t in ts ==> Platform(t)
    ensures Can(ts, user, "belong", "tenant", tenant)
       <==>
          TenantTuple(user, tenant, TenantMember) in Stored(ts) || TenantTuple(user, tenant, TenantAdmin) in Stored(ts)
  {
    var s := Subject("user", user);
    var D := Derivable(ts, PLATFORM_RULES, s);
    var union := [Rel("admin"), Rel("member")];
    RuleOf(ts, s, Key("tenant", tenant, "belong"), union);
    DirectRelation(ts, s, D, "tenant", tenant, "admin");
    DirectRelation(ts, s, D, "tenant", tenant, "member");
    assert RuleGiven(ts, s, D, "tenant", tenant, union[0]) <==> TenantTuple(user, tenant, TenantAdmin) in ts;
    assert RuleGiven(ts, s, D, "tenant", tenant, union[1]) <==> TenantTuple(user, tenant, TenantMember) in ts;
  }

  // ---------------------------------------------------------------------------
  // Permissions by the history of calls
  // ---------------------------------------------------------------------------

  /** One call was made, and the other one not since. */
  ghost predicate Stands(calls: seq<HelperCall>, grant: HelperCall, revoke: HelperCall) {
    exists i :: 0 <= i < |calls| && calls[i] == grant && forall j :: i < j < |calls| ==> calls[j] != revoke
  }

  ghost predicate HoldsRole(calls: seq<HelperCall>, user: string, engagement: string, role: EngagementRole) {
    Stands(calls, GrantEngagementRole(user, engagement, role), RevokeEngagementRoles(user, engagement))
  }

  ghost predicate HoldsTenantRole(calls: seq<HelperCall>, user: string, tenant: string, role: TenantRole) {
    Stands(calls, GrantTenantRole(user, tenant, role), RevokeTenantRoles(user, tenant))
  }

  lemma StandsSnoc(calls: seq<HelperCall>, call: HelperCall, grant: HelperCall, revoke: HelperCall)
    requires grant != revoke
    ensures Stands(calls + [call], grant, revoke) <==> call == grant || (Stands(calls, grant, revoke) && call != revoke)
  {
    var all := calls + [call];
    if call == grant {
      assert all[|calls|] == grant;
    }
    if Stands(calls, grant, revoke) && call != revoke {
      var i :| 0 <= i < |calls| && calls[i] == grant && forall j :: i < j < |calls| ==> calls[j] != revoke;
      assert all[i] == grant;
    }
    if Stands(all, grant, revoke) {
      StoodBefore(calls, call, grant, revoke);
    }
  }

  lemma StoodBefore(calls: seq<HelperCall>, call: HelperCall, grant: HelperCall, revoke: HelperCall)
    requires Stands(calls + [call], grant, revoke)
    ensures call == grant || (Stands(calls, grant, revoke) && call != revoke)
  {
    var all := calls + [call];
    var i :| 0 <= i < |all| && all[i] == grant && forall j :: i < j < |all| ==> all[j] != revoke;
    if i < |calls| {
      assert all[|calls|] == call;
      assert calls[i] == grant && forall j :: i < j < |calls| ==> calls[j] == all[j];
    }
  }

  lemma AfterRole(ts: set<Tuple>, call: HelperCall, user: string, engagement: string, role: EngagementRole)
    ensures EngagementTuple(user, engagement, role) in After(ts, call) <==>
      || call == GrantEngagementRole(user, engagement, role)
      || (EngagementTuple(user, engagement, role) in ts && call != RevokeEngagementRoles(user, engagement))
  {
    NamesDiffer();
  }

  lemma AfterTenantRole(ts: set<Tuple>, call: HelperCall, user: string, tenant: string, role: TenantRole)
    ensures TenantTuple(user, tenant, role) in After(ts, call) <==>
      || call == GrantTenantRole(user, tenant, role)
      || (TenantTuple(user, tenant, role) in ts && call != RevokeTenantRoles(user, tenant))
  {
    NamesDiffer();
  }

  lemma AfterLink(ts: set<Tuple>, call: HelperCall, engagement: string, tenant: string)
    ensures LinkTuple(engagement, tenant) in After(ts, call) <==>
      LinkTuple(engagement, tenant) in ts || call == LinkEngagementToTenant(engagement, tenant)
  {
    NamesDiffer();
  }

  lemma NamesDiffer()
    ensures "tenant" != "engagement" && "tenant" != "user"
    ensures forall r, r' :: RoleName(r) == RoleName(r') ==> r == r'
    ensures forall r, r' :: TenantRoleName(r) == TenantRoleName(r') ==> r == r'
    ensures forall r :: RoleName(r) != "parent_tenant"
  {
    assert |"tenant"| != |"engagement"| && |"tenant"| != |"user"|;
    assert "viewer"[0] != "member"[0] && "viewer"[0] != "admin"[0] && "member"[0] != "admin"[0];
    assert |"parent_tenant"| > 6;
  }

  lemma {:induction false} StoredByHistory(calls: seq<HelperCall>, user: string, place: string)
    ensures forall role :: EngagementTuple(user, place, role) in Run({}, calls) <==> HoldsRole(calls, user, place, role)
    ensures forall role :: TenantTuple(user, place, role) in Run({}, calls) <==>
      HoldsTenantRole(calls, user, place, role)
  {
    if calls != [] {
      var before, call := calls[..|calls| - 1], calls[|calls| - 1];
      assert calls == before + [call];
      StoredByHistory(before, user, place);
      forall role
        ensures EngagementTuple(user, place, role) in Run({}, calls) <==> HoldsRole(calls, user, place, role)
      {
        StandsSnoc(before, call, GrantEngagementRole(user, place, role), RevokeEngagementRoles(user, place));
        AfterRole(Run({}, before), call, user, place, role);
      }
      forall role
        ensures TenantTuple(user, place, role) in Run({}, calls) <==> HoldsTenantRole(calls, user, place, role)
      {
        StandsSnoc(before, call, GrantTenantRole(user, place, role), RevokeTenantRoles(user, place));
        AfterTenantRole(Run({}, before), call, user, place, role);
      }
    }
  }

  lemma {:induction false} LinksByHistory(calls: seq<HelperCall>, engagement: string, tenant: string)
    ensures LinkTuple(engagement, tenant) in Run({}, calls) <==> LinkEngagementToTenant(engagement, tenant) in calls
  {
    if calls != [] {
      var before, call := calls[..|calls| - 1], calls[|calls| - 1];
      assert calls == before + [call];
      LinksByHistory(before, engagement, tenant);
      AfterLink(Run({}, before), call, engagement, tenant);
    }
  }

  /** What a user can do after any run of the helpers, in terms of the calls alone. */
  lemma {:induction false} PermissionsByHistory(calls: seq<HelperCall>, ts: seq<Tuple>, user: string,
      engagement: string, tenant: string)
    requires Stored(ts) == Run({}, calls)
    ensures Can(ts, user, "administer", "engagement", engagement) <==> HoldsRole(calls, user, engagement, Admin)
    ensures Can(ts, user, "contribute", "engagement", engagement) <==>
      HoldsRole(calls, user, engagement, Admin) || HoldsRole(calls, user, engagement, Member)
    ensures Can(ts, user, "view", "engagement", engagement) <==>
      || (exists role :: HoldsRole(calls, user, engagement, role))
      || AdministersParent(calls, user, engagement)
    ensures Can(ts, user, "administer", "tenant", tenant) <==> HoldsTenantRole(calls, user, tenant, TenantAdmin)
    ensures Can(ts, user, "belong", "tenant", tenant) <==> exists role :: HoldsTenantRole(calls, user, tenant, role)
  {
    RunIsPlatform(calls);
    assert forall t :: t in ts ==> t in Stored(ts);
    StoredByHistory(calls, user, engagement);
    StoredByHistory(calls, user, tenant);
    AdministerExactly(ts, user, engagement);
    ContributeExactly(ts, user, engagement);
    ViewExactly(ts, user, engagement);
    TenantAdministerExactly(ts, user, tenant);
    BelongExactly(ts, user, tenant);
    AdminByHistory(calls, user, engagement);
    assert forall role :: HasRole(Stored(ts), user, engagement, role) <==> HoldsRole(calls, user, engagement, role);
    assert (exists role :: HoldsTenantRole(calls, user, tenant, role)) <==>
      HoldsTenantRole(calls, user, tenant, TenantMember) || HoldsTenantRole(calls, user, tenant, TenantAdmin);
  }

  /** An admin, not revoked since, of a tenant that the engagement has been linked to. */
  ghost predicate AdministersParent(calls: seq<HelperCall>, user: string, engagement: string) {
    exists parent :: LinkEngagementToTenant(engagement, parent) in calls
      && HoldsTenantRole(calls, user, parent, TenantAdmin)
  }

  lemma AdminByHistory(calls: seq<HelperCall>, user: string, engagement: string)
    ensures AdminOfLinkedTenant(Run({}, calls), user, engagement) <==> AdministersParent(calls, user, engagement)
  {
    forall parent
      ensures LinkTuple(engagement, parent) in Run({}, calls) <==> LinkEngagementToTenant(engagement, parent) in calls
      ensures TenantTuple(user, parent, TenantAdmin) in Run({}, calls) <==>
        HoldsTenantRole(calls, user, parent, TenantAdmin)
    {
      LinksByHistory(calls, engagement, parent);
      StoredByHistory(calls, user, parent);
    }
  }

  // ---------------------------------------------------------------------------
  // What each helper brings and takes
  // ---------------------------------------------------------------------------

  /** One user's permissions on one engagement and one tenant. */
  datatype Rights = Rights(view: bool, contribute: bool, administer: bool, administerTenant: bool, belong: bool)

  ghost function RightsOf(ts: seq<Tuple>, user: string, engagement: string, tenant: string): Rights {
    Rights(Can(ts, user, "view", "engagement", engagement),
           Can(ts, user, "contribute", "engagement", engagement),
           Can(ts, user, "administer", "engagement", engagement),
           Can(ts, user, "administer", "tenant", tenant),
           Can(ts, user, "belong", "tenant", tenant))
  }

  /** `after` is what `call` makes of `before`, both reached by helpers alone. */
  ghost predicate Follows(before: seq<Tuple>, call: HelperCall, after: seq<Tuple>) {
    exists calls :: Stored(before) == Run({}, calls) && Stored(after) == Run({}, calls + [call])
  }

  /** A grant adds to the user's rights on the engagement what the role stands for: a viewer may view, a
      member also contribute, an admin do all three.  Nobody else's rights change, and none elsewhere. */
  lemma {:induction false} EngagementGrantBrings(before: seq<Tuple>, after: seq<Tuple>, user: string,
      engagement: string, role: EngagementRole, user': string, engagement': string, tenant': string)
    requires Follows(before, GrantEngagementRole(user, engagement, role), after)
    ensures var (r, r') := (RightsOf(before, user', engagement', tenant'),
      RightsOf(after, user', engagement', tenant'));
      r' == if user' != user || engagement' != engagement then r
        else r.(view := true,
                contribute := r.contribute || role.Member? || role.Admin?,
                administer := r.administer || role.Admin?)
  {
    var calls :| Stored(before) == Run({}, calls)
      && Stored(after) == Run({}, calls + [GrantEngagementRole(user, engagement, role)]);
    RightsStep(calls, before, user', engagement', tenant');
    RightsStep(calls + [GrantEngagementRole(user, engagement, role)], after, user', engagement', tenant');
    EngagementGrantHistory(calls, user, engagement, role, user', engagement', tenant');
  }

  /** A tenant grant: any role belongs, only an admin administers, and then views the linked engagements. */
  lemma {:induction false} TenantGrantBrings(before: seq<Tuple>, after: seq<Tuple>, user: string, tenant: string,
      role: TenantRole, user': string, engagement': string, tenant': string)
    requires Follows(before, GrantTenantRole(user, tenant, role), after)
    ensures var (r, r') := (RightsOf(before, user', engagement', tenant'),
      RightsOf(after, user', engagement', tenant'));
      && r'.contribute == r.contribute && r'.administer == r.administer
      && (r'.belong <==> r.belong || (user' == user && tenant' == tenant))
      && (r'.administerTenant <==> r.administerTenant || (user' == user && tenant' == tenant && role.TenantAdmin?))
      && (user' != user || role.TenantMember? ==> r'.view == r.view)
      && (r.view ==> r'.view)
  {
    var calls :| Stored(before) == Run({}, calls)
      && Stored(after) == Run({}, calls + [GrantTenantRole(user, tenant, role)]);
    RightsStep(calls, before, user', engagement', tenant');
    RightsStep(calls + [GrantTenantRole(user, tenant, role)], after, user', engagement', tenant');
    TenantGrantHistory(calls, user, tenant, role, user', engagement', tenant');
  }

  /** After a tenant revocation the user neither belongs to the tenant nor administers it. */
  lemma {:induction false} TenantRevocationTakes(before: seq<Tuple>, after: seq<Tuple>, user: string, tenant: string,
      user': string, engagement': string, tenant': string)
    requires Follows(before, RevokeTenantRoles(user, tenant), after)
    ensures var (r, r') := (RightsOf(before, user', engagement', tenant'),
      RightsOf(after, user', engagement', tenant'));
      && r'.contribute == r.contribute && r'.administer == r.administer
      && (r'.belong <==> r.belong && !(user' == user && tenant' == tenant))
      && (r'.administerTenant <==> r.administerTenant && !(user' == user && tenant' == tenant))
      && (user' != user ==> r'.view == r.view) && (r'.view ==> r.view)
  {
    var calls :| Stored(before) == Run({}, calls)
      && Stored(after) == Run({}, calls + [RevokeTenantRoles(user, tenant)]);
    RightsStep(calls, before, user', engagement', tenant');
    RightsStep(calls + [RevokeTenantRoles(user, tenant)], after, user', engagement', tenant');
    TenantRevocationHistory(calls, user, tenant, user', engagement', tenant');
  }

  /** A link lets exactly the tenant's admins view, besides those who could. */
  lemma {:induction false} LinkBrings(before: seq<Tuple>, after: seq<Tuple>, engagement: string, tenant: string,
      user': string, engagement': string, tenant': string)
    requires Follows(before, LinkEngagementToTenant(engagement, tenant), after)
    ensures var (r, r') := (RightsOf(before, user', engagement', tenant'),
      RightsOf(after, user', engagement', tenant'));
      r' == r.(view := r.view || (engagement' == engagement && Can(before, user', "administer", "tenant", tenant)))
  {
    var calls :| Stored(before) == Run({}, calls)
      && Stored(after) == Run({}, calls + [LinkEngagementToTenant(engagement, tenant)]);
    RightsStep(calls, before, user', engagement', tenant');
    RightsStep(calls + [LinkEngagementToTenant(engagement, tenant)], after, user', engagement', tenant');
    LinkHistory(calls, engagement, tenant, user', engagement', tenant');
    PermissionsByHistory(calls, before, user', engagement', tenant);
  }

  lemma RoleStep(calls: seq<HelperCall>, call: HelperCall, user: string, engagement: string)
    ensures forall role :: HoldsRole(calls + [call], user, engagement, role) <==>
      || call == GrantEngagementRole(user, engagement, role)
      || (HoldsRole(calls, user, engagement, role) && call != RevokeEngagementRoles(user, engagement))
  {
    forall role
      ensures HoldsRole(calls + [call], user, engagement, role) <==>
        || call == GrantEngagementRole(user, engagement, role)
        || (HoldsRole(calls, user, engagement, role) && call != RevokeEngagementRoles(user, engagement))
    {
      StandsSnoc(calls, call, GrantEngagementRole(user, engagement, role), RevokeEngagementRoles(user, engagement));
    }
  }

  lemma TenantRoleStep(calls: seq<HelperCall>, call: HelperCall, user: string, tenant: string)
    ensures forall role :: HoldsTenantRole(calls + [call], user, tenant, role) <==>
      || call == GrantTenantRole(user, tenant, role)
      || (HoldsTenantRole(calls, user, tenant, role) && call != RevokeTenantRoles(user, tenant))
  {
    forall role
      ensures HoldsTenantRole(calls + [call], user, tenant, role) <==>
        || call == GrantTenantRole(user, tenant, role)
        || (HoldsTenantRole(calls, user, tenant, role) && call != RevokeTenantRoles(user, tenant))
    {
      StandsSnoc(calls, call, GrantTenantRole(user, tenant, role), RevokeTenantRoles(user, tenant));
    }
  }

  lemma RightsStep(calls: seq<HelperCall>, ts: seq<Tuple>, user: string, engagement: string, tenant: string)
    requires Stored(ts) == Run({}, calls)
    ensures RightsOf(ts, user, engagement, tenant) == HistoryRights(calls, user, engagement, tenant)
  {
    PermissionsByHistory(calls, ts, user, engagement, tenant);
  }

  lemma ParentStep(calls: seq<HelperCall>, call: HelperCall, user: string, engagement: string)
    ensures AdministersParent(calls + [call], user, engagement) <==>
      exists parent ::
        && (LinkEngagementToTenant(engagement, parent) in calls || call == LinkEngagementToTenant(engagement, parent))
        && (call == GrantTenantRole(user, parent, TenantAdmin)
            || (HoldsTenantRole(calls, user, parent, TenantAdmin) && call != RevokeTenantRoles(user, parent)))
  {
    forall parent
      ensures HoldsTenantRole(calls + [call], user, parent, TenantAdmin) <==>
        || call == GrantTenantRole(user, parent, TenantAdmin)
        || (HoldsTenantRole(calls, user, parent, TenantAdmin) && call != RevokeTenantRoles(user, parent))
      ensures LinkEngagementToTenant(engagement, parent) in calls + [call] <==>
        LinkEngagementToTenant(engagement, parent) in calls || call == LinkEngagementToTenant(engagement, parent)
    {
      TenantRoleStep(calls, call, user, parent);
    }
  }

  lemma EngagementGrantHistory(calls: seq<HelperCall>, user: string, engagement: string, role: EngagementRole,
      user': string, engagement': string, tenant': string)
    ensures var call := GrantEngagementRole(user, engagement, role);
      var (r, r') := (HistoryRights(calls, user', engagement', tenant'),
        HistoryRights(calls + [call], user', engagement', tenant'));
      r' == if user' != user || engagement' != engagement then r
        else r.(view := true,
                contribute := r.contribute || role.Member? || role.Admin?,
                administer := r.administer || role.Admin?)
  {
    var call := GrantEngagementRole(user, engagement, role);
    RoleStep(calls, call, user', engagement');
    TenantRoleStep(calls, call, user', tenant');
    ParentStep(calls, call, user', engagement');
  }

  lemma TenantGrantHistory(calls: seq<HelperCall>, user: string, tenant: string, role: TenantRole, user': string,
      engagement': string, tenant': string)
    ensures var call := GrantTenantRole(user, tenant, role);
      var (r, r') := (HistoryRights(calls, user', engagement', tenant'),
        HistoryRights(calls + [call], user', engagement', tenant'));
      && r'.contribute == r.contribute && r'.administer == r.administer
      && (r'.belong <==> r.belong || (user' == user && tenant' == tenant))
      && (r'.administerTenant <==> r.administerTenant || (user' == user && tenant' == tenant && role.TenantAdmin?))
      && (user' != user || role.TenantMember? ==> r'.view == r.view)
      && (r.view ==> r'.view)
  {
    var call := GrantTenantRole(user, tenant, role);
    RoleStep(calls, call, user', engagement');
    TenantRoleStep(calls, call, user', tenant');
    ParentStep(calls, call, user', engagement');
  }

  lemma TenantRevocationHistory(calls: seq<HelperCall>, user: string, tenant: string, user': string,
      engagement': string, tenant': string)
    ensures var call := RevokeTenantRoles(user, tenant);
      var (r, r') := (HistoryRights(calls, user', engagement', tenant'),
        HistoryRights(calls + [call], user', engagement', tenant'));
      && r'.contribute == r.contribute && r'.administer == r.administer
      && (r'.belong <==> r.belong && !(user' == user && tenant' == tenant))
      && (r'.administerTenant <==> r.administerTenant && !(user' == user && tenant' == tenant))
      && (user' != user ==> r'.view == r.view) && (r'.view ==> r.view)
  {
    var call := RevokeTenantRoles(user, tenant);
    RoleStep(calls, call, user', engagement');
    TenantRoleStep(calls, call, user', tenant');
    ParentStep(calls, call, user', engagement');
  }

  lemma LinkHistory(calls: seq<HelperCall>, engagement: string, tenant: string, user': string, engagement': string,
      tenant': string)
    ensures var call := LinkEngagementToTenant(engagement, tenant);
      var (r, r') := (HistoryRights(calls, user', engagement', tenant'),
        HistoryRights(calls + [call], user', engagement', tenant'));
      r' == r.(view := r.view || (engagement' == engagement && HoldsTenantRole(calls, user', tenant, TenantAdmin)))
  {
    var call := LinkEngagementToTenant(engagement, tenant);
    RoleStep(calls, call, user', engagement');
    TenantRoleStep(calls, call, user', tenant');
    ParentStep(calls, call, user', engagement');
  }

  ghost function HistoryRights(calls: seq<HelperCall>, user: string, engagement: string, tenant: string): Rights {
    Rights((exists role :: HoldsRole(calls, user, engagement, role)) || AdministersParent(calls, user, engagement),
           HoldsRole(calls, user, engagement, Admin) || HoldsRole(calls, user, engagement, Member),
           HoldsRole(calls, user, engagement, Admin),
           HoldsTenantRole(calls, user, tenant, TenantAdmin),
           exists role :: HoldsTenantRole(calls, user, tenant, role))
  }
}
