/**
 Where the permission chain ends and why, said of the rows, the request and the clock
 alone: a reference for every check the chain makes.
 */
module IamReasons {
  import opened Prelude
  import opened Iam

  // ---- The checks, in plain terms ----

  ghost predicate Unexpired(expires: Option<real>, now: real) {
    match expires
    case None => true
    case Some(t) => now < t
  }

  /** A row that allows or denies exactly this to the role, now. */
  ghost predicate Counts(g: Grant, role: string, now: real, p: Permission, effect: Effect) {
    g.role == role && g.permission == p && g.effect == effect && Unexpired(g.expires, now)
  }

  ghost predicate FirstRow(grants: seq<Grant>, role: string, now: real, p: Permission, effect: Effect, i: nat) {
    && i < |grants| && Counts(grants[i], role, now, p, effect)
    && forall j :: 0 <= j < i ==> !Counts(grants[j], role, now, p, effect)
  }

  ghost predicate AnyRow(grants: seq<Grant>, role: string, now: real, p: Permission, effect: Effect) {
    exists i :: 0 <= i < |grants| && Counts(grants[i], role, now, p, effect)
  }

  ghost predicate FirstHas(grants: seq<Grant>, role: string, now: real, p: Permission, c: Conditions) {
    exists i: nat :: FirstRow(grants, role, now, p, Allow, i) && grants[i].conditions == c
  }

  /** The permission is sensitive, and a current active elevation of the user is for it. */
  ghost predicate HasElevation(rows: Rows, q: Query) {
    && q.permission in rows.sensitive
    && exists e :: e in rows.elevations && e.user == q.user && e.permission == q.permission && e.active
                   && Unexpired(e.expires, q.now)
  }

  /** The conditions of the first exact row, else of the first wildcard row, else none at all by elevation. */
  ghost predicate Settles(rows: Rows, q: Query, role: string, c: Conditions) {
    var p := q.permission;
    var wild := Permission(p.namespace, "*", p.action);
    if AnyRow(rows.grants, role, q.now, p, Allow) then FirstHas(rows.grants, role, q.now, p, c)
    else if AnyRow(rows.grants, role, q.now, wild, Allow) then FirstHas(rows.grants, role, q.now, wild, c)
    else HasElevation(rows, q) && c == Conditions(None, [], false, None)
  }

  /** A current profile of the user or of the role denies this permission, or all. */
  ghost predicate DeniedByProfile(rows: Rows, q: Query, role: string) {
    exists r :: r in rows.restrictions && DeniesThis(r, q, role)
  }

  ghost predicate DeniesThis(r: Restriction, q: Query, role: string) {
    && (r.user == Some(q.user) || r.role == Some(role)) && Unexpired(r.expires, q.now)
    && (Spelled(q.permission) in r.denied || "*" in r.denied)
  }

  /** The permission as profiles spell it. */
  function Spelled(p: Permission): string {
    p.namespace + ":" + p.resource + ":" + p.action
  }

  ghost predicate OutsideWindow(c: Conditions, x: Context) {
    exists open, close :: c.timeRange == Some(Window(open, close)) && (x.minuteOfDay < open || close < x.minuteOfDay)
  }

  ghost predicate UnlistedAddress(c: Conditions, x: Context) {
    c.ipAllowlist != [] && exists ip :: x.ip == Some(ip) && ip != "" && ip !in c.ipAllowlist
  }

  ghost predicate FactorMissing(c: Conditions, x: Context) {
    c.mfaRequired && !x.mfaVerified
  }

  ghost predicate TooRisky(c: Conditions, x: Context) {
    exists limit :: c.maxRisk == Some(limit) && limit < x.risk
  }

  /** One of the four conditions fails. */
  ghost predicate Fails(c: Conditions, x: Context) {
    OutsideWindow(c, x) || UnlistedAddress(c, x) || FactorMissing(c, x) || TooRisky(c, x)
  }

  /** The namespace is free for all, or in the user's tier, or among the user's selected services. */
  ghost predicate HasService(rows: Rows, namespace: string) {
    || namespace in rows.freeServices
    || (exists plan :: rows.plan == Some(plan) && (namespace in plan.included || namespace in plan.selected))
  }

  // ---- They are what the chain checks ----

  lemma SatisfiedExact(c: Conditions, x: Context)
    ensures Satisfied(c, x) <==> !Fails(c, x)
  {
    if c.timeRange.Some? && c.timeRange.value.Window? {
      assert c.timeRange == Some(Window(c.timeRange.value.open, c.timeRange.value.close));
    }
    if c.maxRisk.Some? { assert c.maxRisk == Some(c.maxRisk.value); }
    if x.ip.Some? { assert x.ip == Some(x.ip.value); }
  }

  lemma RestrictedExact(rows: Rows, q: Query, role: string)
    ensures Restricted(rows, q, role) <==> DeniedByProfile(rows, q, role)
  {
  }

  lemma ElevatedExact(rows: Rows, q: Query)
    ensures Elevated(rows, q) <==> HasElevation(rows, q)
  {
  }

  lemma SubscribedExact(rows: Rows, namespace: string)
    ensures Subscribed(rows, namespace) <==> HasService(rows, namespace)
  {
    if rows.plan.Some? { assert rows.plan == Some(rows.plan.value); }
  }

  lemma FirstSkipsOther(d: Grant, grants: seq<Grant>, p: Permission, effect: Effect)
    requires !(d.permission == p && d.effect == effect)
    ensures First([d] + grants, p, effect) == First(grants, p, effect)
  {
    assert ([d] + grants)[1..] == grants;
  }

  lemma {:induction false} FirstAt(
    grants: seq<Grant>, role: string, now: real, p: Permission, effect: Effect) returns (i: nat)
    ensures i <= |grants| && forall j :: 0 <= j < i ==> !Counts(grants[j], role, now, p, effect)
    ensures var live := (g: Grant) => g.role == role && Current(g.expires, now);
      if i < |grants| then
        Counts(grants[i], role, now, p, effect) && First(Filter(live, grants), p, effect) == Some(grants[i])
      else First(Filter(live, grants), p, effect) == None
  {
    var live := (g: Grant) => g.role == role && Current(g.expires, now);
    if grants == [] || Counts(grants[0], role, now, p, effect) {
      i := 0;
    } else {
      i := FirstAt(grants[1..], role, now, p, effect);
      assert Filter(live, grants) == (if live(grants[0]) then [grants[0]] else []) + Filter(live, grants[1..]);
      if live(grants[0]) { FirstSkipsOther(grants[0], Filter(live, grants[1..]), p, effect); }
      i := i + 1;
    }
  }

  lemma FirstExactly(rows: Rows, role: string, now: real, p: Permission, effect: Effect)
    ensures First(Granted(rows, role, now), p, effect).Some? <==> AnyRow(rows.grants, role, now, p, effect)
    ensures effect == Allow && AnyRow(rows.grants, role, now, p, Allow) ==>
      forall c :: FirstHas(rows.grants, role, now, p, c) <==>
        First(Granted(rows, role, now), p, Allow).value.conditions == c
  {
    hide First, Filter, Counts;
    var i := FirstAt(rows.grants, role, now, p, effect);
    if i < |rows.grants| && effect == Allow {
      assert FirstRow(rows.grants, role, now, p, Allow, i);
      assert forall j: nat :: FirstRow(rows.grants, role, now, p, Allow, j) ==> j == i;
    }
  }

  /** The chain settles on exactly these conditions, if on any. */
  lemma MatchingExact(rows: Rows, q: Query, role: string)
    ensures forall c :: Matching(rows, q, role) == Some(c) <==> Settles(rows, q, role, c)
  {
    hide First, Granted, AnyRow, FirstHas, Elevated, HasElevation;
    FirstExactly(rows, role, q.now, q.permission, Allow);
    FirstExactly(rows, role, q.now, Wildcard(q.permission), Allow);
    ElevatedExact(rows, q);
    assert Wildcard(q.permission) == Permission(q.permission.namespace, "*", q.permission.action);
  }

  // ---- Where the chain ends ----

  /** The role the chain takes as active, of a user with roles. */
  function Active(q: Query): string
    requires q.roles != []
  {
    ActiveRoleExact(q.roles);
    ActiveRole(q.roles).value.id
  }

  ghost predicate Denies(rows: Rows, q: Query)
    requires q.roles != []
  {
    AnyRow(rows.grants, Active(q), q.now, q.permission, Deny)
  }

  /** Not denied, and granted under these conditions. */
  ghost predicate GrantedUnder(rows: Rows, q: Query, c: Conditions)
    requires q.roles != []
  {
    !Denies(rows, q) && Settles(rows, q, Active(q), c)
  }

  /**
   Each end of the chain, exactly: an explicit denial, no grant, a profile, one of the four
   conditions, the subscription, in this order; else access is allowed.
   */
  lemma ReasonExact(rows: Rows, q: Query)
    requires q.roles != []
    ensures Reason(rows, q) == ExplicitDeny <==> Denies(rows, q)
    ensures Reason(rows, q) == NotGranted <==>
      !Denies(rows, q) && forall c :: !Settles(rows, q, Active(q), c)
    ensures Reason(rows, q) == RestrictionDeny <==>
      (exists c :: GrantedUnder(rows, q, c)) && DeniedByProfile(rows, q, Active(q))
    ensures Reason(rows, q) == AbacDeny <==>
      !DeniedByProfile(rows, q, Active(q)) && exists c :: GrantedUnder(rows, q, c) && Fails(c, q.context)
    ensures Reason(rows, q) == SubscriptionDeny <==>
      && !DeniedByProfile(rows, q, Active(q)) && !HasService(rows, q.permission.namespace)
      && exists c :: GrantedUnder(rows, q, c) && !Fails(c, q.context)
    ensures Reason(rows, q) == Logged <==> Decision(rows, q)
    ensures Decision(rows, q) <==>
      && !DeniedByProfile(rows, q, Active(q)) && HasService(rows, q.permission.namespace)
      && exists c :: GrantedUnder(rows, q, c) && !Fails(c, q.context)
  {
    hide First, Granted, Matching, Restricted, Satisfied, Subscribed, ActiveRole;
    hide AnyRow, Settles, DeniedByProfile, Fails, HasService;
    ActiveRoleExact(q.roles);
    var role := Active(q);
    FirstExactly(rows, role, q.now, q.permission, Deny);
    MatchingExact(rows, q, role);
    RestrictedExact(rows, q, role);
    SubscribedExact(rows, q.permission.namespace);
    var m := Matching(rows, q, role);
    if m.Some? {
      SatisfiedExact(m.value, q.context);
      assert m == Some(m.value) && Settles(rows, q, role, m.value);
      assert forall c :: Settles(rows, q, role, c) ==> c == m.value;
      assert !Denies(rows, q) ==> GrantedUnder(rows, q, m.value);
      assert forall c :: GrantedUnder(rows, q, c) ==> c == m.value;
    } else {
      assert forall c :: !GrantedUnder(rows, q, c);
    }
    assert Reason(rows, q) != NoRole;
    hide Denies, Active;
  }

  /** Without a role nothing is allowed, and nothing else ends the chain so early. */
  lemma NoRoleExact(rows: Rows, q: Query)
    ensures Reason(rows, q) == NoRole <==> q.roles == []
    ensures q.roles == [] ==> !Decision(rows, q)
  {
    hide First, Granted, Matching, Restricted, Satisfied, Subscribed, ActiveRole;
    ActiveRoleExact(q.roles);
  }

  // ---- What denies ----

  /**
   When the conditions settled on ask for a second factor and there is none, access is
   denied; and so for a risk above the maximum, a minute outside the window, and an address
   missing from the list.
   */
  lemma FailingConditionDenies(rows: Rows, q: Query, c: Conditions)
    requires q.roles != [] && Settles(rows, q, Active(q), c)
    ensures c.mfaRequired && !q.context.mfaVerified ==> !Decision(rows, q)
    ensures c.maxRisk.Some? && q.context.risk > c.maxRisk.value ==> !Decision(rows, q)
    ensures forall open, close :: c.timeRange == Some(Window(open, close)) ==>
      !(open <= q.context.minuteOfDay <= close) ==> !Decision(rows, q)
    ensures forall ip :: c.ipAllowlist != [] && q.context.ip == Some(ip) && ip != "" && ip !in c.ipAllowlist ==>
      !Decision(rows, q)
  {
    hide Decision, DeniedByProfile, HasService, Denies;
    ReasonExact(rows, q);
    OnlyOneSettles(rows, q, c);
    FailsExact(c, q.context);
    hide Settles, Fails;
  }

  lemma FailsExact(c: Conditions, x: Context)
    ensures Fails(c, x) <==>
      || (c.mfaRequired && !x.mfaVerified)
      || (c.maxRisk.Some? && x.risk > c.maxRisk.value)
      || (c.timeRange.Some? && c.timeRange.value.Window?
          && !(c.timeRange.value.open <= x.minuteOfDay <= c.timeRange.value.close))
      || (c.ipAllowlist != [] && x.ip.Some? && x.ip.value != "" && x.ip.value !in c.ipAllowlist)
  {
    SatisfiedExact(c, x);
    hide Fails;
  }

  lemma OnlyOneSettles(rows: Rows, q: Query, c: Conditions)
    requires q.roles != [] && Settles(rows, q, Active(q), c)
    ensures forall d :: Settles(rows, q, Active(q), d) ==> d == c
  {
    hide Settles, Matching;
    MatchingExact(rows, q, Active(q));
  }

  /** With at most one row for each role and permission, a current exact row is the one settled on. */
  lemma OwnRowGoverns(rows: Rows, q: Query, g: Grant)
    requires q.roles != [] && UniqueGrants(rows) && g in rows.grants
    requires Counts(g, Active(q), q.now, q.permission, Allow)
    ensures Settles(rows, q, Active(q), g.conditions)
  {
    hide Active;
    var i := FirstAt(rows.grants, Active(q), q.now, q.permission, Allow);
    var j :| 0 <= j < |rows.grants| && rows.grants[j] == g;
    assert i <= j;
    assert rows.grants[i] in rows.grants;
    assert FirstRow(rows.grants, Active(q), q.now, q.permission, Allow, i) && rows.grants[i] == g;
  }

  /** One current profile of the user or the role that denies the permission, or all, does deny. */
  lemma OneProfileDenies(rows: Rows, q: Query, r: Restriction)
    requires q.roles != [] && r in rows.restrictions
    requires (r.user == Some(q.user) || r.role == Some(Active(q))) && (r.expires.None? || r.expires.value > q.now)
    requires Spelled(q.permission) in r.denied || "*" in r.denied
    ensures !Decision(rows, q)
  {
    hide Decision, Settles, Denies, Fails, HasService, Active;
    assert DeniesThis(r, q, Active(q));
    assert DeniedByProfile(rows, q, Active(q));
    ReasonExact(rows, q);
  }

  /** One current explicit denial of the active role does deny. */
  lemma OneDenyRowDenies(rows: Rows, q: Query, g: Grant)
    requires q.roles != [] && g in rows.grants && g.role == Active(q) && g.permission == q.permission
    requires g.effect == Deny && (g.expires.None? || g.expires.value > q.now)
    ensures !Decision(rows, q)
  {
    hide Decision, Settles, DeniedByProfile, Fails, HasService, Active;
    var i :| 0 <= i < |rows.grants| && rows.grants[i] == g;
    assert Counts(rows.grants[i], Active(q), q.now, q.permission, Deny);
    assert Denies(rows, q);
    ReasonExact(rows, q);
  }

  /** A namespace in no plan of the user and not free does deny. */
  lemma NoServiceDenies(rows: Rows, q: Query)
    requires q.roles != [] && q.permission.namespace !in rows.freeServices
    requires rows.plan.Some? ==>
      q.permission.namespace !in rows.plan.value.included && q.permission.namespace !in rows.plan.value.selected
    ensures !Decision(rows, q)
  {
    hide Decision, Settles, DeniedByProfile, Fails, Denies, Active;
    assert !HasService(rows, q.permission.namespace);
    ReasonExact(rows, q);
  }

  // ---- What the chain shows ----

  /** The elevation step is shown exactly when elevation is what permits: no row does. */
  lemma ElevationExact(rows: Rows, q: Query)
    requires q.roles != []
    ensures ByElevation(rows, q) <==>
      && !AnyRow(rows.grants, Active(q), q.now, q.permission, Allow)
      && !AnyRow(rows.grants, Active(q), q.now, Wildcard(q.permission), Allow)
      && HasElevation(rows, q)
  {
    hide First, Granted, AnyRow, Elevated, HasElevation, ActiveRole;
    ActiveRoleExact(q.roles);
    FirstExactly(rows, Active(q), q.now, q.permission, Allow);
    FirstExactly(rows, Active(q), q.now, Wildcard(q.permission), Allow);
    ElevatedExact(rows, q);
  }

  /**
   A chain ends in the step it is named for, shows a grant exactly when it got past the
   rows, the elevation exactly then and if there was one, and each later check as passed
   exactly when a still later one was made.
   */
  lemma ChainExact(end: Step, elevation: bool)
    requires end in {NoRole, ExplicitDeny, NotGranted, RestrictionDeny, AbacDeny, SubscriptionDeny, Logged}
    ensures var chain := Route(end, elevation);
      && chain != [] && chain[|chain| - 1] == end
      && (RoleOk in chain <==> end != NoRole)
      && (GrantOk in chain <==> end in {RestrictionDeny, AbacDeny, SubscriptionDeny, Logged})
      && (ElevationOk in chain <==> elevation && GrantOk in chain)
      && (RestrictionOk in chain <==> end in {AbacDeny, SubscriptionDeny, Logged})
      && (AbacOk in chain <==> end in {SubscriptionDeny, Logged})
      && (SubscriptionOk in chain <==> end == Logged)
      && |chain| == |set s: Step | s in chain|
  {
    var chain := Route(end, elevation);
    DistinctSteps(chain);
  }

  lemma {:induction false} DistinctSteps(chain: seq<Step>)
    requires forall i, j :: 0 <= i < j < |chain| ==> chain[i] != chain[j]
    ensures |set s: Step | s in chain| == |chain|
  {
    if chain != [] {
      var init, last := chain[..|chain| - 1], chain[|chain| - 1];
      DistinctSteps(init);
      assert chain == init + [last];
      assert (set s: Step | s in chain) == (set s: Step | s in init) + {last};
    }
  }
}
