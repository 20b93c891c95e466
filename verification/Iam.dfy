/**
 The permission evaluation chain against a declarative policy.  The rows it consults are
 a value; the chain's steps and the audit log are recorded.
 */
module Iam {
  import opened Prelude

  datatype Role = Role(id: string, level: int, primary: bool)

  datatype Effect = Allow | Deny

  /** A window in minutes of the day, or text that is not one. */
  datatype TimeRange = Malformed | Window(open: int, close: int)

  datatype Conditions = Conditions(timeRange: Option<TimeRange>, ipAllowlist: seq<string>, mfaRequired: bool,
    maxRisk: Option<real>)

  const MINUTES_A_DAY := 1440

  const NO_CONDITIONS := Conditions(None, [], false, None)

  datatype Context = Context(ip: Option<string>, mfaVerified: bool, risk: real, minuteOfDay: int)

  /** What is asked for: namespace, resource, action. */
  datatype Permission = Permission(namespace: string, resource: string, action: string)

  datatype Grant = Grant(role: string, permission: Permission, effect: Effect, conditions: Conditions,
    expires: Option<real>)

  datatype Restriction = Restriction(user: Option<string>, role: Option<string>, expires: Option<real>,
    denied: seq<string>)

  datatype Elevation = Elevation(user: string, permission: Permission, active: bool, expires: Option<real>)

  datatype Plan = Plan(included: seq<string>, selected: seq<string>)

  datatype Rows = Rows(
    grants: seq<Grant>, restrictions: seq<Restriction>, elevations: seq<Elevation>,
    sensitive: set<Permission>, plan: Option<Plan>, freeServices: set<string>)

  datatype Query = Query(user: string, roles: seq<Role>, permission: Permission, context: Context, now: real)

  predicate Current(expires: Option<real>, now: real) {
    expires.None? || expires.value > now
  }

  function KeyOf(p: Permission): string {
    p.namespace + ":" + p.resource + ":" + p.action
  }

  // ---- The checks ----

  function FirstPrimary(roles: seq<Role>): Option<Role> {
    if roles == [] then None else if roles[0].primary then Some(roles[0]) else FirstPrimary(roles[1..])
  }

  /** The first of the roles with the smallest level. */
  function Highest(roles: seq<Role>): Role
    requires roles != []
  {
    if |roles| == 1 then roles[0]
    else
      var r := Highest(roles[1..]);
      if roles[0].level <= r.level then roles[0] else r
  }

  function ActiveRole(roles: seq<Role>): Option<Role> {
    if FirstPrimary(roles).Some? then FirstPrimary(roles)
    else if roles == [] then None else Some(Highest(roles))
  }

  function Wildcard(p: Permission): Permission {
    p.(resource := "*")
  }

  /** The role's grants that have not expired, in row order. */
  function Granted(rows: Rows, role: string, now: real): seq<Grant> {
    Filter((g: Grant) => g.role == role && Current(g.expires, now), rows.grants)
  }

  function First(grants: seq<Grant>, p: Permission, effect: Effect): Option<Grant> {
    if grants == [] then None
    else if grants[0].permission == p && grants[0].effect == effect then Some(grants[0])
    else First(grants[1..], p, effect)
  }

  predicate Elevated(rows: Rows, q: Query) {
    && q.permission in rows.sensitive
    && exists e :: e in rows.elevations && Elevates(e, q)
  }

  predicate Elevates(e: Elevation, q: Query) {
    e.user == q.user && e.permission == q.permission && e.active && Current(e.expires, q.now)
  }

  predicate Applies(r: Restriction, user: string, role: string, now: real) {
    (r.user == Some(user) || r.role == Some(role)) && Current(r.expires, now)
  }

  predicate Restricted(rows: Rows, q: Query, role: string) {
    exists r :: r in rows.restrictions && Applies(r, q.user, role, q.now) &&
      (KeyOf(q.permission) in r.denied || "*" in r.denied)
  }

  predicate Subscribed(rows: Rows, namespace: string) {
    || namespace in rows.freeServices
    || (rows.plan.Some? && (namespace in rows.plan.value.included || namespace in rows.plan.value.selected))
  }

  /** A malformed window, a missing address or an empty allowlist checks nothing. */
  predicate Satisfied(c: Conditions, x: Context) {
    && (c.timeRange.Some? && c.timeRange.value.Window? ==>
         c.timeRange.value.open <= x.minuteOfDay <= c.timeRange.value.close)
    && (c.ipAllowlist != [] && x.ip.Some? && x.ip.value != "" ==> x.ip.value in c.ipAllowlist)
    && (c.mfaRequired ==> x.mfaVerified)
    && (c.maxRisk.Some? ==> x.risk <= c.maxRisk.value)
  }

  // ---- The chain ----

  datatype Step = NoRole | RoleOk | ExplicitDeny | ElevationOk | NotGranted | GrantOk | RestrictionDeny | RestrictionOk
    | AbacDeny | AbacOk | SubscriptionDeny | SubscriptionOk | Logged

  datatype Verdict = Verdict(allowed: bool, chain: seq<Step>)

  /** The conditions of the grant the chain settles on. */
  function Matching(rows: Rows, q: Query, role: string): Option<Conditions> {
    var grants := Granted(rows, role, q.now);
    var exact, wild := First(grants, q.permission, Allow), First(grants, Wildcard(q.permission), Allow);
    if exact.Some? then Some(exact.value.conditions)
    else if wild.Some? then Some(wild.value.conditions)
    else if Elevated(rows, q) then Some(NO_CONDITIONS)
    else None
  }

  /** Whether the chain allows. */
  function Decision(rows: Rows, q: Query): bool {
    var role := ActiveRole(q.roles);
    && role.Some?
    && First(Granted(rows, role.value.id, q.now), q.permission, Deny).None?
    && Matching(rows, q, role.value.id).Some?
    && !Restricted(rows, q, role.value.id)
    && Satisfied(Matching(rows, q, role.value.id).value, q.context)
    && Subscribed(rows, q.permission.namespace)
  }

  /** The last step of the chain: the first check that fails. */
  function Reason(rows: Rows, q: Query): Step {
    var role := ActiveRole(q.roles);
    if role.None? then NoRole
    else if First(Granted(rows, role.value.id, q.now), q.permission, Deny).Some? then ExplicitDeny
    else if Matching(rows, q, role.value.id).None? then NotGranted
    else if Restricted(rows, q, role.value.id) then RestrictionDeny
    else if !Satisfied(Matching(rows, q, role.value.id).value, q.context) then AbacDeny
    else if !Subscribed(rows, q.permission.namespace) then SubscriptionDeny
    else Logged
  }

  /** Permitted by elevation alone: no grant allows it. */
  predicate ByElevation(rows: Rows, q: Query) {
    var role := ActiveRole(q.roles);
    && role.Some?
    && First(Granted(rows, role.value.id, q.now), q.permission, Allow).None?
    && First(Granted(rows, role.value.id, q.now), Wildcard(q.permission), Allow).None?
    && Elevated(rows, q)
  }

  /** The whole chain that ends in a step. */
  function Route(end: Step, elevation: bool): seq<Step> {
    var granted := (if elevation then [RoleOk] + [ElevationOk] else [RoleOk]) + [GrantOk];
    match end
    case ExplicitDeny => [RoleOk] + [ExplicitDeny]
    case NotGranted => [RoleOk] + [NotGranted]
    case RestrictionDeny => granted + [RestrictionDeny]
    case AbacDeny => granted + [RestrictionOk] + [AbacDeny]
    case SubscriptionDeny => granted + [RestrictionOk] + [AbacOk] + [SubscriptionDeny]
    case Logged => granted + [RestrictionOk] + [AbacOk] + [SubscriptionOk] + [Logged]
    case _ => [end]
  }

  class IAMService {
    /** The decisions logged so far. */
    var auditLog: seq<(string, Permission, bool)>

    constructor ()
      ensures auditLog == []
    {
      auditLog := [];
    }

    static method PrimaryRole(roles: seq<Role>) returns (role: Option<Role>)
      ensures role == ActiveRole(roles)
      ensures role.None? <==> roles == []
    {
      for i := 0 to |roles|
        invariant FirstPrimary(roles) == FirstPrimary(roles[i..])
      {
        if roles[i].primary {
          return Some(roles[i]);
        }
        assert roles[i..][1..] == roles[i + 1..];
      }
      if roles == [] {
        return None;
      }
      var best := roles[|roles| - 1];
      var j := |roles| - 1;
      assert roles[j..] == [roles[j]];
      while j > 0
        invariant 0 <= j < |roles| && best == Highest(roles[j..])
      {
        j := j - 1;
        assert roles[j..][1..] == roles[j + 1..];
        if roles[j].level <= best.level {
          best := roles[j];
        }
      }
      assert roles[0..] == roles;
      role := Some(best);
    }

    static method Find(grants: seq<Grant>, p: Permission, effect: Effect) returns (g: Option<Grant>)
      ensures g == First(grants, p, effect)
    {
      for i := 0 to |grants|
        invariant First(grants, p, effect) == First(grants[i..], p, effect)
      {
        if grants[i].permission == p && grants[i].effect == effect {
          return Some(grants[i]);
        }
        assert grants[i..][1..] == grants[i + 1..];
      }
      g := None;
    }

    /** The exact grant, else the wildcard grant, else elevation. */
    static method FindConditions(
      rows: Rows, q: Query, role: string) returns (conditions: Option<Conditions>, elevation: bool)
      ensures conditions == Matching(rows, q, role)
      ensures ActiveRole(q.roles).Some? && role == ActiveRole(q.roles).value.id ==> elevation == ByElevation(rows, q)
    {
      hide First, Granted, Elevated, ActiveRole;
      var grants := Granted(rows, role, q.now);
      elevation := false;
      var grant := Find(grants, q.permission, Allow);
      if grant.None? {
        grant := Find(grants, Wildcard(q.permission), Allow);
      }
      if grant.Some? {
        conditions := Some(grant.value.conditions);
      } else {
        elevation := Elevated(rows, q);
        conditions := if elevation then Some(NO_CONDITIONS) else None;
      }
    }

    static method CheckRestrictions(rows: Rows, q: Query, role: string) returns (restricted: bool)
      ensures restricted == Restricted(rows, q, role)
    {
      for i := 0 to |rows.restrictions|
        invariant forall j :: 0 <= j < i ==>
          !(Applies(rows.restrictions[j], q.user, role, q.now) &&
            (KeyOf(q.permission) in rows.restrictions[j].denied || "*" in rows.restrictions[j].denied))
      {
        var r := rows.restrictions[i];
        if Applies(r, q.user, role, q.now) && (KeyOf(q.permission) in r.denied || "*" in r.denied) {
          return true;
        }
      }
      restricted := false;
    }

    /**
     Every decision but the one for a user without roles is logged, once, as it is returned,
     if the database takes the entry; if not, the decision is the same.
     */
    method EvaluatePermission(rows: Rows, q: Query, flushes: bool) returns (v: Verdict)
      modifies this
      ensures v.allowed == Decision(rows, q)
      ensures auditLog ==
        old(auditLog) + (if q.roles == [] || !flushes then [] else [(q.user, q.permission, v.allowed)])
      ensures v.chain == Route(Reason(rows, q), ByElevation(rows, q))
    {
      hide First, Granted, Matching, Restricted, Satisfied, Subscribed, Elevated, ActiveRole;
      var role := PrimaryRole(q.roles);
      if role.None? {
        return Verdict(false, [NoRole]);
      }
      var chain := [RoleOk];
      var deny := Find(Granted(rows, role.value.id, q.now), q.permission, Deny);
      if deny.Some? {
        Log(q, false, flushes);
        return Verdict(false, chain + [ExplicitDeny]);
      }
      var conditions, elevation := FindConditions(rows, q, role.value.id);
      if conditions.None? {
        Log(q, false, flushes);
        return Verdict(false, chain + [NotGranted]);
      }
      if elevation {
        chain := chain + [ElevationOk];
      }
      chain := chain + [GrantOk];
      var restricted := CheckRestrictions(rows, q, role.value.id);
      if restricted {
        Log(q, false, flushes);
        return Verdict(false, chain + [RestrictionDeny]);
      }
      chain := chain + [RestrictionOk];
      if !Satisfied(conditions.value, q.context) {
        Log(q, false, flushes);
        return Verdict(false, chain + [AbacDeny]);
      }
      chain := chain + [AbacOk];
      if !Subscribed(rows, q.permission.namespace) {
        Log(q, false, flushes);
        return Verdict(false, chain + [SubscriptionDeny]);
      }
      chain := chain + [SubscriptionOk];
      Log(q, true, flushes);
      v := Verdict(true, chain + [Logged]);
    }

    /** A failed flush is swallowed. */
    method Log(q: Query, allowed: bool, flushes: bool)
      modifies this
      ensures auditLog == old(auditLog) + (if flushes then [(q.user, q.permission, allowed)] else [])
    {
      if flushes {
        auditLog := auditLog + [(q.user, q.permission, allowed)];
      }
    }
  }

  // ---- The declarative policy ----

  /** A row that grants or denies exactly this to the role, now. */
  ghost predicate Holds(rows: Rows, role: string, now: real, g: Grant, p: Permission, effect: Effect) {
    g in rows.grants && g.role == role && Current(g.expires, now) && g.permission == p && g.effect == effect
  }

  ghost predicate Has(rows: Rows, role: string, now: real, p: Permission, effect: Effect) {
    exists g :: Holds(rows, role, now, g, p, effect)
  }

  ghost predicate HasOpen(rows: Rows, role: string, now: real, p: Permission, x: Context) {
    exists g :: Holds(rows, role, now, g, p, Allow) && Satisfied(g.conditions, x)
  }

  /**
   Not denied; allowed by the most specific kind of row there is, under its conditions, or
   by elevation when there is none; not restricted; subscribed.
   */
  ghost predicate Policy(rows: Rows, q: Query, role: string) {
    && !Has(rows, role, q.now, q.permission, Deny)
    && (if Has(rows, role, q.now, q.permission, Allow) then HasOpen(rows, role, q.now, q.permission, q.context)
        else if Has(rows, role, q.now, Wildcard(q.permission), Allow)
          then HasOpen(rows, role, q.now, Wildcard(q.permission), q.context)
        else Elevated(rows, q))
    && !Restricted(rows, q, role)
    && Subscribed(rows, q.permission.namespace)
  }

  /** A role has at most one row for each permission. */
  ghost predicate UniqueGrants(rows: Rows) {
    forall g, h :: g in rows.grants && h in rows.grants && g.role == h.role && g.permission == h.permission ==> g == h
  }

  lemma {:induction false} FirstExact(grants: seq<Grant>, p: Permission, effect: Effect)
    ensures First(grants, p, effect).Some? ==>
      var g := First(grants, p, effect).value; g in grants && g.permission == p && g.effect == effect
    ensures First(grants, p, effect).None? ==> forall g :: g in grants ==> !(g.permission == p && g.effect == effect)
  {
    if grants != [] {
      FirstExact(grants[1..], p, effect);
      assert grants == [grants[0]] + grants[1..];
    }
  }

  lemma FirstHas(rows: Rows, role: string, now: real, p: Permission, effect: Effect)
    ensures First(Granted(rows, role, now), p, effect).Some? <==> Has(rows, role, now, p, effect)
    ensures First(Granted(rows, role, now), p, effect).Some? ==>
      Holds(rows, role, now, First(Granted(rows, role, now), p, effect).value, p, effect)
  {
    hide First;
    var f := First(Granted(rows, role, now), p, effect);
    FirstExact(Granted(rows, role, now), p, effect);
    if f.Some? {
      assert Holds(rows, role, now, f.value, p, effect);
    }
    if Has(rows, role, now, p, effect) {
      var g :| Holds(rows, role, now, g, p, effect);
      assert g in Granted(rows, role, now);
    }
  }

  lemma FirstOpen(rows: Rows, role: string, now: real, p: Permission, x: Context)
    requires UniqueGrants(rows)
    ensures var f := First(Granted(rows, role, now), p, Allow);
      f.Some? ==> (Satisfied(f.value.conditions, x) <==> HasOpen(rows, role, now, p, x))
  {
    hide Satisfied;
    FirstHas(rows, role, now, p, Allow);
  }

  /** The chain ends in an entry of the log of permissions exactly when it permits. */
  lemma ReasonExplains(rows: Rows, q: Query)
    ensures Decision(rows, q) <==> Reason(rows, q) == Logged
  {
    hide Satisfied, Restricted, Subscribed, Elevated, Granted, First, ActiveRole;
  }

  /** With unique rows, the chain allows exactly what the policy does. */
  lemma DecisionIsPolicy(rows: Rows, q: Query)
    requires UniqueGrants(rows)
    ensures Decision(rows, q) <==> ActiveRole(q.roles).Some? && Policy(rows, q, ActiveRole(q.roles).value.id)
  {
    if ActiveRole(q.roles).Some? {
      hide Satisfied, Restricted, Subscribed, Elevated, Granted, First, ActiveRole;
      var role, p := ActiveRole(q.roles).value.id, q.permission;
      FirstHas(rows, role, q.now, p, Deny);
      FirstHas(rows, role, q.now, p, Allow);
      FirstHas(rows, role, q.now, Wildcard(p), Allow);
      FirstOpen(rows, role, q.now, p, q.context);
      FirstOpen(rows, role, q.now, Wildcard(p), q.context);
      UnconditionalElevation(q.context);
    }
  }

  lemma UnconditionalElevation(x: Context)
    ensures Satisfied(NO_CONDITIONS, x)
  {
  }

  /** With unique rows, neither the order of the rows nor repeated ones matter. */
  lemma RowOrderIrrelevant(rows: Rows, rows': Rows, q: Query)
    requires UniqueGrants(rows)
    requires forall g :: g in rows.grants <==> g in rows'.grants
    requires forall r :: r in rows.restrictions <==> r in rows'.restrictions
    requires forall e :: e in rows.elevations <==> e in rows'.elevations
    requires rows.sensitive == rows'.sensitive && rows.plan == rows'.plan && rows.freeServices == rows'.freeServices
    ensures Decision(rows, q) == Decision(rows', q)
  {
    DecisionIsPolicy(rows, q);
    DecisionIsPolicy(rows', q);
    if ActiveRole(q.roles).Some? {
      SamePolicy(rows, rows', q, ActiveRole(q.roles).value.id);
    }
  }

  lemma SamePolicy(rows: Rows, rows': Rows, q: Query, role: string)
    requires forall g :: g in rows.grants <==> g in rows'.grants
    requires forall r :: r in rows.restrictions <==> r in rows'.restrictions
    requires forall e :: e in rows.elevations <==> e in rows'.elevations
    requires rows.sensitive == rows'.sensitive && rows.plan == rows'.plan && rows.freeServices == rows'.freeServices
    ensures Policy(rows, q, role) == Policy(rows', q, role)
  {
    hide Satisfied, Applies;
    assert forall g, p, effect :: Holds(rows, role, q.now, g, p, effect) == Holds(rows', role, q.now, g, p, effect);
    assert Elevated(rows, q) == Elevated(rows', q);
    assert Restricted(rows, q, role) == Restricted(rows', q, role);
    assert forall p, effect :: Has(rows, role, q.now, p, effect) == Has(rows', role, q.now, p, effect);
    assert forall p :: HasOpen(rows, role, q.now, p, q.context) == HasOpen(rows', role, q.now, p, q.context);
  }

  /** Adding restrictions never turns a denial into a permission. */
  lemma RestrictionsOnlyDeny(rows: Rows, more: seq<Restriction>, q: Query)
    requires Decision(rows.(restrictions := rows.restrictions + more), q)
    ensures Decision(rows, q)
  {
    hide Satisfied, Subscribed, ActiveRole, Granted, First;
    var rows' := rows.(restrictions := rows.restrictions + more);
    var role := ActiveRole(q.roles).value.id;
    assert Elevated(rows, q) == Elevated(rows', q);
    assert Granted(rows, role, q.now) == Granted(rows', role, q.now) by { SameGranted(rows, rows', role, q.now); }
    SameSubscribed(rows, rows', q.permission.namespace);
  }

  lemma SameGranted(rows: Rows, rows': Rows, role: string, now: real)
    requires rows'.grants == rows.grants
    ensures Granted(rows, role, now) == Granted(rows', role, now)
  {
  }

  lemma SameSubscribed(rows: Rows, rows': Rows, namespace: string)
    requires rows'.plan == rows.plan && rows'.freeServices == rows.freeServices
    ensures Subscribed(rows, namespace) == Subscribed(rows', namespace)
  {
  }

  lemma {:induction false} FirstSkips(a: seq<Grant>, d: Grant, b: seq<Grant>, p: Permission, effect: Effect)
    requires !(d.permission == p && d.effect == effect)
    ensures First(a + [d] + b, p, effect) == First(a + b, p, effect)
  {
    if a == [] {
      assert a + [d] + b == [d] + b && a + b == b && ([d] + b)[1..] == b;
    } else {
      FirstSkips(a[1..], d, b, p, effect);
      assert (a + [d] + b)[1..] == a[1..] + [d] + b && (a + b)[1..] == a[1..] + b;
    }
  }

  /** Inserting a deny row anywhere never turns a denial into a permission. */
  lemma DenyRowsOnlyDeny(rows: Rows, a: seq<Grant>, d: Grant, b: seq<Grant>, q: Query)
    requires rows.grants == a + b && d.effect == Deny
    requires Decision(rows.(grants := a + [d] + b), q)
    ensures Decision(rows, q)
  {
    hide Satisfied, ActiveRole, First, Filter;
    var rows' := rows.(grants := a + [d] + b);
    var role := ActiveRole(q.roles).value.id;
    var live := (g: Grant) => g.role == role && Current(g.expires, q.now);
    var fa, fb := Filter(live, a), Filter(live, b);
    FilterConcat(live, a, b);
    FilterConcat(live, a, [d] + b);
    FilterCons(live, d, b);
    assert a + ([d] + b) == a + [d] + b;
    assert Granted(rows, role, q.now) == fa + fb;
    assert Granted(rows', role, q.now) == if live(d) then fa + [d] + fb else fa + fb by {
      assert fa + ([d] + fb) == fa + [d] + fb;
      assert fa + ([] + fb) == fa + fb;
    }
    FirstSkips(fa, d, fb, q.permission, Allow);
    FirstSkips(fa, d, fb, Wildcard(q.permission), Allow);
    if live(d) { NoDenyBefore(fa, d, fb, q.permission); }
  }

  lemma NoDenyBefore(a: seq<Grant>, d: Grant, b: seq<Grant>, p: Permission)
    requires First(a + [d] + b, p, Deny).None?
    ensures First(a + b, p, Deny).None?
  {
    FirstExact(a + [d] + b, p, Deny);
    FirstExact(a + b, p, Deny);
    assert forall g :: g in a + b ==> g in a + [d] + b;
  }

  // ---- The active role ----

  /** The first role marked primary, else the first among those of the smallest level. */
  ghost predicate IsActive(roles: seq<Role>, i: nat) {
    && i < |roles|
    && (roles[i].primary ==> forall j :: 0 <= j < i ==> !roles[j].primary)
    && (!roles[i].primary ==>
         forall j :: 0 <= j < |roles| ==>
           !roles[j].primary && (if j < i then roles[j].level > roles[i].level else roles[j].level >= roles[i].level))
  }

  lemma ActiveRoleExact(roles: seq<Role>)
    ensures ActiveRole(roles).None? <==> roles == []
    ensures roles != [] ==> exists i: nat :: IsActive(roles, i) && ActiveRole(roles) == Some(roles[i])
  {
    if roles != [] {
      var i := FirstPrimaryAt(roles);
      if i == |roles| { i := HighestAt(roles); }
      assert IsActive(roles, i);
    }
  }

  lemma {:induction false} FirstPrimaryAt(roles: seq<Role>) returns (i: nat)
    ensures i <= |roles| && forall j :: 0 <= j < i ==> !roles[j].primary
    ensures FirstPrimary(roles) == if i < |roles| then Some(roles[i]) else None
    ensures i < |roles| ==> roles[i].primary
  {
    if roles == [] || roles[0].primary {
      i := 0;
    } else {
      i := FirstPrimaryAt(roles[1..]);
      i := i + 1;
    }
  }

  lemma {:induction false} HighestAt(roles: seq<Role>) returns (i: nat)
    requires roles != []
    ensures i < |roles| && Highest(roles) == roles[i]
    ensures forall j :: 0 <= j < |roles| ==>
      if j < i then roles[j].level > roles[i].level else roles[j].level >= roles[i].level
  {
    i := 0;
    if |roles| > 1 {
      var r := HighestAt(roles[1..]);
      if roles[0].level > roles[1..][r].level { i := r + 1; }
    }
  }

  // ---- Two limits of the chain ----

  /**
   A deny row on the wildcard resource, wherever it stands, denies nothing: only exact rows
   are looked up as denials.
   */
  lemma WildcardDenyIgnored(rows: Rows, a: seq<Grant>, d: Grant, b: seq<Grant>, q: Query)
    requires rows.grants == a + b && d.effect == Deny && d.permission == Wildcard(q.permission) &&
      q.permission.resource != "*"
    ensures Decision(rows.(grants := a + [d] + b), q) == Decision(rows, q)
  {
    hide Satisfied, ActiveRole, First, Filter, Subscribed;
    if ActiveRole(q.roles).Some? {
      var role := ActiveRole(q.roles).value.id;
      var rows' := rows.(grants := a + [d] + b);
      InsertedFirst(rows, a, d, b, role, q.now, q.permission, Deny);
      InsertedFirst(rows, a, d, b, role, q.now, q.permission, Allow);
      InsertedFirst(rows, a, d, b, role, q.now, Wildcard(q.permission), Allow);
      assert Elevated(rows, q) == Elevated(rows', q);
      assert Restricted(rows, q, role) == Restricted(rows', q, role);
      SameSubscribed(rows, rows', q.permission.namespace);
    }
  }

  /** Inserting a row does not change what is first found of another permission or effect. */
  lemma InsertedFirst(
    rows: Rows, a: seq<Grant>, d: Grant, b: seq<Grant>, role: string, now: real, p: Permission, effect: Effect)
    requires rows.grants == a + b && !(d.permission == p && d.effect == effect)
    ensures First(Granted(rows.(grants := a + [d] + b), role, now), p, effect) ==
      First(Granted(rows, role, now), p, effect)
  {
    hide First, Filter;
    var live := (g: Grant) => g.role == role && Current(g.expires, now);
    var fa, fb := Filter(live, a), Filter(live, b);
    FilterConcat(live, a, b);
    FilterConcat(live, a, [d] + b);
    FilterCons(live, d, b);
    assert a + ([d] + b) == a + [d] + b;
    assert fa + ([d] + fb) == fa + [d] + fb && [] + fb == fb;
    FirstSkips(fa, d, fb, p, effect);
  }

  /** A window is ever open exactly when it does not cross midnight and meets the day. */
  lemma WindowOpensIff(c: Conditions)
    requires c.timeRange.Some? && c.timeRange.value.Window?
    ensures (exists x: Context :: 0 <= x.minuteOfDay < MINUTES_A_DAY && Satisfied(c, x)) <==>
      var w := c.timeRange.value; w.open <= w.close && w.open < MINUTES_A_DAY && 0 <= w.close
  {
    var w := c.timeRange.value;
    if w.open <= w.close && w.open < MINUTES_A_DAY && 0 <= w.close {
      var risk := if c.maxRisk.Some? then c.maxRisk.value else 0.0;
      assert Satisfied(c, Context(None, true, risk, if w.open < 0 then 0 else w.open));
    }
  }

  /** The allowlist compares addresses as texts: with one entry it admits that text and no other. */
  lemma AllowlistIsLiteral(entry: string, address: string, x: Context)
    requires address != ""
    ensures Satisfied(NO_CONDITIONS.(ipAllowlist := [entry]), x.(ip := Some(address))) <==> address == entry
  {
    assert address in [entry] <==> address == entry;
  }
}
