/**
 What each takeover handler decides, in plain terms, and which proposed actions are
 executed over whole runs.
 */
module TakeoverOutcomes {
  import opened Prelude
  import opened Takeover

  // ---- One call ----

  /** A refused call changes nothing. */
  lemma RefusedChangesNothing(st: State, op: Op)
    requires Step(st, op).1 != Ok
    ensures Step(st, op).0 == st
  {
    hide Newest, Refusal, PendingOf, Cancelling;
  }

  /** No type is both allowed and blocked. */
  lemma AllowedNotBlocked(kind: string)
    ensures !(IsAllowed(kind) && IsBlocked(kind))
  {
  }

  const ALLOWED_KINDS := {
    "navigation", "form_fill", "settings_adjust", "app_interaction", "screenshot", "read_aloud", "dictation",
    "emergency"}

  const BLOCKED_KINDS := {
    "payment", "delete_data", "install_app", "change_password", "send_message", "camera_record", "location_share",
    "contact_access"}

  /** Each of the eight allowed types is accepted; each of the eight blocked ones is refused. */
  lemma EightAndEight(kind: string)
    ensures kind in ALLOWED_KINDS ==> Refusal([kind]) == Ok
    ensures kind in BLOCKED_KINDS ==> IsBlocked(kind) && Refusal([kind]) == BadRequest
  {
    assert [kind][1..] == [];
    RefusalIsUnknownType([kind]);
    assert kind in [kind];
    AllowedNotBlocked(kind);
  }

  lemma {:induction false} RefusalIsUnknownType(allowed: seq<string>)
    ensures Refusal(allowed) == if forall kind :: kind in allowed ==> IsAllowed(kind) then Ok else BadRequest
  {
    hide IsAllowed, IsBlocked;
    if allowed != [] {
      RefusalIsUnknownType(allowed[1..]);
      AllowedNotBlocked(allowed[0]);
      assert allowed == [allowed[0]] + allowed[1..];
    }
  }

  /** Another session's record is not touched, nor are stores and other sessions lost. */
  ghost predicate OnlySession(st: State, st': State, sid: string) {
    && st'.sessions.Keys == st.sessions.Keys + {sid}
    && forall x :: x in st.sessions && x != sid ==> st'.sessions[x] == st.sessions[x]
  }

  /**
   A request is refused exactly for an unknown action type, blocked ones being unknown, so
   the answer that a type is never allowed does not occur; else the session waits for
   consent with what was asked for, and has done nothing.
   */
  lemma RequestExact(st: State, id: string, user: string, allowed: seq<string>, confirmEach: bool)
    requires id !in st.sessions
    ensures var (st', reply) := Step(st, Request(id, user, allowed, confirmEach));
      && reply == (if forall kind :: kind in allowed ==> IsAllowed(kind) then Ok else BadRequest)
      && (reply == Ok ==>
           && OnlySession(st, st', id) && st'.pending == st.pending && st'.history == st.history
           && st'.trail == st.trail + [TakeoverRequested(id)]
           && (var s := st'.sessions[id];
               && s.status == PendingConsent && !s.consent && s.user == user && s.allowed == allowed
               && s.confirmEach == confirmEach && s.performed == s.approved == s.rejected == 0))
  {
    hide Newest, IsAllowed, Refusal;
    RefusalIsUnknownType(allowed);
  }

  /** Only the user of a waiting session decides it: consent makes it active, refusal denies it. */
  lemma ConsentExact(st: State, sid: string, user: string, given: bool)
    ensures var (st', reply) := Step(st, Consent(sid, user, given));
      && (reply == NotFound <==> sid !in st.sessions)
      && (reply == BadRequest <==> sid in st.sessions && st.sessions[sid].status != PendingConsent)
      && (reply == Forbidden <==>
           sid in st.sessions && st.sessions[sid].status == PendingConsent && st.sessions[sid].user != user)
      && (reply == Ok ==>
           && OnlySession(st, st', sid) && st'.pending == st.pending && st'.history == st.history
           && st'.trail == st.trail + [if given then TakeoverConsented(sid) else TakeoverDenied(sid)]
           && (var s, s' := st.sessions[sid], st'.sessions[sid];
               && (given ==> s'.status == Active && s'.consent)
               && (!given ==> s'.status == Denied && s'.consent == s.consent)
               && s' == s.(status := s'.status, consent := s'.consent)))
  {
    hide Newest;
  }

  /** An allowed action of an active session is executed at once exactly when the session asks for no confirmation. */
  lemma ProposeExact(st: State, id: string, sid: string, kind: string)
    requires Inv(st) && id !in st.pending && id !in st.history
    ensures var (st', reply) := Step(st, Propose(id, sid, kind));
      && (reply == NotFound <==> sid !in st.sessions)
      && (reply == BadRequest <==> sid in st.sessions && st.sessions[sid].status != Active)
      && (reply == Forbidden <==>
           sid in st.sessions && st.sessions[sid].status == Active && kind !in st.sessions[sid].allowed)
      && (reply == Ok ==>
           && OnlySession(st, st', sid)
           && (var s := st.sessions[sid];
               && (s.confirmEach ==>
                    && st' == st.(pending := st'.pending)
                    && st'.pending == st.pending[id := Action(sid, kind, PendingApproval)])
               && (!s.confirmEach ==>
                    && st'.pending == st.pending && st'.history == st.history[id := Action(sid, kind, Executed)]
                    && st'.trail == st.trail + [ActionExecuted(id)]
                    && st'.sessions[sid] == s.(performed := s.performed + 1, approved := s.approved + 1))))
  {
    hide Newest, IsAllowed, IsBlocked, PendingSafe, HistorySafe, Accounted, Audited;
    if sid in st.sessions { assert kind in st.sessions[sid].allowed ==> !IsBlocked(kind); }
  }

  /** In every reachable state a confirmation executes the pending action if it approves, and rejects it if not. */
  lemma ConfirmExact(st: State, id: string, approve: bool)
    requires Inv(st)
    ensures var (st', reply) := Step(st, Confirm(id, approve));
      && reply == (if id in st.pending then Ok else NotFound)
      && (id in st.pending ==>
           var a := st.pending[id];
           && a.session in st.sessions && OnlySession(st, st', a.session) && id !in st'.pending && id in st'.history
           && (st'.history[id].status == Executed <==> approve)
           && (st'.history[id].status == Rejected <==> !approve)
           && st'.history[id].kind == a.kind && st'.history[id].session == a.session
           && (forall x :: x in st.pending && x != id ==> x in st'.pending && st'.pending[x] == st.pending[x])
           && (forall x :: x in st.history && x != id ==> x in st'.history && st'.history[x] == st.history[x])
           && st'.trail == st.trail + [if approve then ActionApproved(id) else ActionRejected(id)]
           && (var s, s' := st.sessions[a.session], st'.sessions[a.session];
               && s'.status == s.status
               && s'.performed == s.performed + (if approve then 1 else 0)
               && s'.approved == s.approved + (if approve then 1 else 0)
               && s'.rejected == s.rejected + (if approve then 0 else 1)))
  {
    hide Newest, Permitted, HistorySafe, SessionsSafe, Accounted, Audited;
    if id in st.pending { assert st.pending[id].session in st.sessions; }
    hide PendingSafe;
  }

  /** A stop ends a known session, whatever it was, and cancels its pending actions and no others. */
  lemma StopExact(st: State, sid: string)
    requires Inv(st)
    ensures var (st', reply) := Step(st, Stop(sid));
      && reply == (if sid in st.sessions then Ok else NotFound)
      && (sid in st.sessions ==>
           && OnlySession(st, st', sid)
           && st'.sessions[sid] == st.sessions[sid].(status := Terminated)
           && (forall id :: id in st.pending && st.pending[id].session == sid ==>
                id !in st'.pending && id in st'.history && st'.history[id] == st.pending[id].(status := Cancelled))
           && (forall id :: id in st.pending && st.pending[id].session != sid ==>
                id in st'.pending && st'.pending[id] == st.pending[id] && id !in st'.history)
           && (forall id :: id in st.history ==> id in st'.history && st'.history[id] == st.history[id])
           && st'.trail == st.trail + [EmergencyStop(sid, |Mine(st.pending, sid, st.pending.Keys)|)])
  {
    hide Newest, Permitted, HistorySafe, SessionsSafe, Accounted, Audited;
    CancelledAreNew(st, sid);
    assert forall id :: id in st.pending ==> id !in st.history by { hide Cancelling, PendingOf; }
    assert PendingOf(st, sid) == Mine(st.pending, sid, st.pending.Keys);
    hide PendingSafe;
  }

  /** A denied or a terminated session has ended, and no other. */
  lemma EndedExact(st: State, sid: string)
    ensures sid in st.sessions && st.sessions[sid].status == Denied ==> Ended(st, sid)
    ensures sid in st.sessions && st.sessions[sid].status == Terminated ==> Ended(st, sid)
    ensures Ended(st, sid) ==>
      sid in st.sessions && st.sessions[sid].status != Active && st.sessions[sid].status != PendingConsent
  {
  }

  // ---- Over runs ----

  /** What a session was asked for never changes. */
  ghost predicate SameRequest(st: State, st': State) {
    forall sid :: sid in st.sessions ==>
      && sid in st'.sessions && st'.sessions[sid].user == st.sessions[sid].user
      && st'.sessions[sid].allowed == st.sessions[sid].allowed
      && st'.sessions[sid].confirmEach == st.sessions[sid].confirmEach
  }

  lemma StepSameRequest(st: State, op: Op)
    requires FreshFor(st, op)
    ensures SameRequest(st, Step(st, op).0)
  {
    forall sid | sid in st.sessions
      ensures sid in Step(st, op).0.sessions
      ensures var s, s' := st.sessions[sid], Step(st, op).0.sessions[sid];
        s'.user == s.user && s'.allowed == s.allowed && s'.confirmEach == s.confirmEach
    {
      SameRequestOf(st, op, sid);
    }
  }

  lemma SameRequestOf(st: State, op: Op, sid: string)
    requires FreshFor(st, op) && sid in st.sessions
    ensures sid in Step(st, op).0.sessions
    ensures var s, s' := st.sessions[sid], Step(st, op).0.sessions[sid];
      s'.user == s.user && s'.allowed == s.allowed && s'.confirmEach == s.confirmEach
  {
    hide Newest, Refusal, PendingOf, Cancelling, IsBlocked;
  }

  lemma {:induction false} SessionsAsRequested(st: State, ops: seq<Op>)
    requires Possible(st, ops)
    ensures SameRequest(st, After(st, ops))
    decreases |ops|
  {
    hide Step, FreshFor;
    if ops != [] {
      StepSameRequest(st, ops[0]);
      SessionsAsRequested(Step(st, ops[0]).0, ops[1..]);
    }
  }

  /** Every pending action is of a session that asks for confirmation. */
  ghost predicate PendingAsks(st: State) {
    forall id :: id in st.pending ==>
      st.pending[id].session in st.sessions && st.sessions[st.pending[id].session].confirmEach
  }

  lemma StepAsks(st: State, op: Op)
    requires PendingAsks(st) && FreshFor(st, op)
    ensures PendingAsks(Step(st, op).0)
  {
    hide Newest, Refusal, PendingOf, Cancelling, IsBlocked;
  }

  /** A confirmation that approves an action while it is pending. */
  predicate Approves(st: State, op: Op, id: string) {
    op == Confirm(id, true) && id in st.pending
  }

  /** A proposal accepted by a session that does not ask for confirmation. */
  predicate Immediate(st: State, op: Op, id: string) {
    && op.Propose? && op.newAction == id && Step(st, op).1 == Ok
    && op.session in st.sessions && !st.sessions[op.session].confirmEach
  }

  /** Some approval of the action in the run. */
  predicate Approved(st: State, ops: seq<Op>, id: string)
    decreases |ops|
  {
    ops != [] && (Approves(st, ops[0], id) || Approved(Step(st, ops[0]).0, ops[1..], id))
  }

  predicate ProposedUnasked(st: State, ops: seq<Op>, id: string)
    decreases |ops|
  {
    ops != [] && (Immediate(st, ops[0], id) || ProposedUnasked(Step(st, ops[0]).0, ops[1..], id))
  }

  lemma StepExecutes(st: State, op: Op, id: string)
    requires Inv(st) && FreshFor(st, op)
    ensures HasOutcome(Step(st, op).0, id, Executed) <==>
      HasOutcome(st, id, Executed) || Approves(st, op, id) || Immediate(st, op, id)
  {
    hide Inv, Step, HasOutcome, Approves, Immediate;
    match op
    case Propose(newAction, sid, kind) => ProposeExecutes(st, newAction, sid, kind, id);
    case Confirm(action, approve) => ConfirmExecutes(st, action, approve, id);
    case Stop(sid) => StopExecutes(st, sid, id);
    case _ => OpenExecutes(st, op, id);
  }

  lemma OpenExecutes(st: State, op: Op, id: string)
    requires op.Request? || op.Consent? || op.Profile?
    ensures HasOutcome(Step(st, op).0, id, Executed) <==>
      HasOutcome(st, id, Executed) || Approves(st, op, id) || Immediate(st, op, id)
  {
    hide Step;
    OpenStores(st, op);
  }

  lemma ProposeExecutes(st: State, newAction: string, sid: string, kind: string, id: string)
    requires Inv(st) && newAction !in st.pending && newAction !in st.history
    ensures var op := Propose(newAction, sid, kind);
      HasOutcome(Step(st, op).0, id, Executed) <==>
        HasOutcome(st, id, Executed) || Approves(st, op, id) || Immediate(st, op, id)
  {
    hide Inv, Step;
    ProposeExact(st, newAction, sid, kind);
    RefusedUnlessOk(st, Propose(newAction, sid, kind));
  }

  lemma ConfirmExecutes(st: State, action: string, approve: bool, id: string)
    requires Inv(st)
    ensures var op := Confirm(action, approve);
      HasOutcome(Step(st, op).0, id, Executed) <==>
        HasOutcome(st, id, Executed) || Approves(st, op, id) || Immediate(st, op, id)
  {
    PendingNotFinished(st);
    hide Inv, Step, OnlySession;
    ConfirmExact(st, action, approve);
    ConfirmHistory(st, action, approve);
    RefusedUnlessOk(st, Confirm(action, approve));
  }

  lemma ConfirmHistory(st: State, action: string, approve: bool)
    ensures forall x :: x in Step(st, Confirm(action, approve)).0.history ==> x in st.history || x == action
  {
    hide Newest;
  }

  lemma StopExecutes(st: State, sid: string, id: string)
    requires Inv(st)
    ensures HasOutcome(Step(st, Stop(sid)).0, id, Executed) <==>
      HasOutcome(st, id, Executed) || Approves(st, Stop(sid), id) || Immediate(st, Stop(sid), id)
  {
    hide Inv, Step;
    StopExact(st, sid);
    StopHistory(st, sid);
    RefusedUnlessOk(st, Stop(sid));
  }

  lemma RefusedUnlessOk(st: State, op: Op)
    ensures Step(st, op).1 == Ok || Step(st, op).0 == st
  {
    if Step(st, op).1 != Ok { RefusedChangesNothing(st, op); }
  }

  lemma PendingNotFinished(st: State)
    requires Inv(st)
    ensures forall id :: id in st.pending ==> id !in st.history
  {
    hide Permitted, HistorySafe, SessionsSafe, Accounted, Audited;
  }

  lemma StopHistory(st: State, sid: string)
    ensures var st' := Step(st, Stop(sid)).0;
      forall id :: id in st'.history ==> id in st.history || (id in st.pending && st'.history[id].status == Cancelled)
  {
    hide Newest;
  }

  /**
   In every run an action is executed exactly when a confirmation approved it while it was
   pending, in a session that asks for confirmation, or when it was accepted from a session
   that does not ask.
   */
  lemma ExecutedIffApprovedOrUnasked(ops: seq<Op>, id: string)
    requires Possible(Start(), ops)
    ensures var st := After(Start(), ops);
      && (HasOutcome(st, id, Executed) <==> Approved(Start(), ops, id) || ProposedUnasked(Start(), ops, id))
      && (AsksOf(st, id, true) ==> (HasOutcome(st, id, Executed) <==> Approved(Start(), ops, id)))
      && (Approved(Start(), ops, id) ==> AsksOf(st, id, true))
      && (ProposedUnasked(Start(), ops, id) ==> AsksOf(st, id, false))
  {
    StartInv();
    ExecutedFrom(Start(), ops, id);
    AskedFrom(Start(), ops, id);
  }

  /** The finished action's session does, or does not, ask for confirmation. */
  predicate AsksOf(st: State, id: string, asks: bool) {
    id in st.history && st.history[id].session in st.sessions && st.sessions[st.history[id].session].confirmEach == asks
  }

  lemma {:induction false} ExecutedFrom(st: State, ops: seq<Op>, id: string)
    requires Inv(st) && Possible(st, ops)
    ensures HasOutcome(After(st, ops), id, Executed) <==>
      HasOutcome(st, id, Executed) || Approved(st, ops, id) || ProposedUnasked(st, ops, id)
    decreases |ops|
  {
    hide Inv, Step, FreshFor, Approves, Immediate, HasOutcome;
    if ops != [] {
      StepKeepsInv(st, ops[0]);
      StepExecutes(st, ops[0], id);
      ExecutedFrom(Step(st, ops[0]).0, ops[1..], id);
    }
  }

  lemma StepAsksOf(st: State, op: Op, id: string)
    requires Inv(st) && PendingAsks(st) && FreshFor(st, op)
    ensures Approves(st, op, id) ==> AsksOf(Step(st, op).0, id, true)
    ensures Immediate(st, op, id) ==> AsksOf(Step(st, op).0, id, false)
  {
    hide Inv;
    StepSameRequest(st, op);
    if Approves(st, op, id) {
      ConfirmExact(st, id, true);
      hide Step;
    } else if Immediate(st, op, id) {
      ProposeExact(st, id, op.session, op.kind);
      hide Step;
    }
  }

  lemma {:induction false} AsksOfStays(st: State, ops: seq<Op>, id: string, asks: bool)
    requires Inv(st) && Possible(st, ops) && AsksOf(st, id, asks)
    ensures AsksOf(After(st, ops), id, asks)
  {
    hide Inv, Step;
    HistoryIsAppendOnly(st, ops);
    SessionsAsRequested(st, ops);
  }

  lemma {:induction false} AskedFrom(st: State, ops: seq<Op>, id: string)
    requires Inv(st) && PendingAsks(st) && Possible(st, ops)
    ensures Approved(st, ops, id) ==> AsksOf(After(st, ops), id, true)
    ensures ProposedUnasked(st, ops, id) ==> AsksOf(After(st, ops), id, false)
    decreases |ops|
  {
    hide Inv, Step, FreshFor, Approves, Immediate, AsksOf, PendingAsks;
    if ops != [] {
      var st1 := Step(st, ops[0]).0;
      StepKeepsInv(st, ops[0]);
      StepAsks(st, ops[0]);
      StepAsksOf(st, ops[0], id);
      AskedFrom(st1, ops[1..], id);
      if Approves(st, ops[0], id) { AsksOfStays(st1, ops[1..], id, true); }
      if Immediate(st, ops[0], id) { AsksOfStays(st1, ops[1..], id, false); }
    }
  }
}
