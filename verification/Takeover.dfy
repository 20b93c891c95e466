/**
 Takeover sessions and their actions.  Each handler runs without interruption, so a run
 is any sequence of handler calls, by any users.
 */
module Takeover {
  import opened Prelude

  const MAX_AUDIT := 10000

  predicate IsAllowed(kind: string) {
    kind in {
      "navigation", "form_fill", "settings_adjust", "app_interaction", "screenshot", "read_aloud", "dictation",
      "emergency"}
  }

  /** Never permitted during takeover, whatever a session asks for. */
  predicate IsBlocked(kind: string) {
    kind in {
      "payment", "delete_data", "install_app", "change_password", "send_message", "camera_record", "location_share",
      "contact_access"}
  }

  datatype Status = PendingConsent | Active | Denied | Terminated

  datatype Session = Session(
    status: Status, user: string, allowed: seq<string>, confirmEach: bool,
    consent: bool, performed: nat, approved: nat, rejected: nat)

  datatype ActionStatus = PendingApproval | Executed | Rejected | Cancelled

  datatype Action = Action(session: string, kind: string, status: ActionStatus)

  datatype Audit =
    | TakeoverRequested(session: string)
    | TakeoverDenied(session: string)
    | TakeoverConsented(session: string)
    | ActionExecuted(action: string)
    | ActionApproved(action: string)
    | ActionRejected(action: string)
    | EmergencyStop(session: string, cancelled: nat)
    | ProfileUpdated(user: string)

  datatype Reply = Ok | NotFound | BadRequest | Forbidden

  /** `audit` is the log, which keeps its newest entries only; `trail` is everything ever appended to it. */
  datatype State = State(
    sessions: map<string, Session>, pending: map<string, Action>, history: map<string, Action>,
    audit: seq<Audit>, trail: seq<Audit>)

  function Logged(st: State, e: Audit): State {
    st.(audit := Newest(st.audit + [e], MAX_AUDIT), trail := st.trail + [e])
  }

  /** The handlers; ids of new sessions and actions are chosen by the caller, fresh. */
  datatype Op =
    | Request(newId: string, user: string, allowed: seq<string>, confirmEach: bool)
    | Consent(session: string, user: string, given: bool)
    | Propose(newAction: string, session: string, kind: string)
    | Confirm(action: string, approve: bool)
    | Stop(session: string)
    | Profile(user: string)

  predicate FreshFor(st: State, op: Op) {
    match op
    case Request(id, _, _, _) => id !in st.sessions
    case Propose(id, _, _) => id !in st.pending && id !in st.history
    case _ => true
  }

  /** The pending actions of one session. */
  function PendingOf(st: State, session: string): set<string> {
    set id | id in st.pending && st.pending[id].session == session
  }

  function Cancelling(pending: map<string, Action>, ids: set<string>): map<string, Action> {
    map id | id in ids && id in pending :: pending[id].(status := Cancelled)
  }

  /** The first complaint about the requested action types, in order. */
  function Refusal(allowed: seq<string>): Reply {
    if allowed == [] then Ok
    else if !IsAllowed(allowed[0]) then BadRequest
    else if IsBlocked(allowed[0]) then Forbidden
    else Refusal(allowed[1..])
  }

  function AfterRequest(st: State, id: string, user: string, allowed: seq<string>, confirmEach: bool): (State, Reply) {
    if Refusal(allowed) != Ok then (st, Refusal(allowed))
    else
      var s := Session(PendingConsent, user, allowed, confirmEach, false, 0, 0, 0);
      (Logged(st.(sessions := st.sessions[id := s]), TakeoverRequested(id)), Ok)
  }

  function AfterConsent(st: State, sid: string, user: string, given: bool): (State, Reply) {
    if sid !in st.sessions then (st, NotFound)
    else
      var s := st.sessions[sid];
      if s.status != PendingConsent then (st, BadRequest)
      else if s.user != user then (st, Forbidden)
      else if !given then
        (Logged(st.(sessions := st.sessions[sid := s.(status := Denied)]), TakeoverDenied(sid)), Ok)
      else
        (Logged(st.(sessions := st.sessions[sid := s.(status := Active, consent := true)]), TakeoverConsented(sid)), Ok)
  }

  function AfterPropose(st: State, id: string, sid: string, kind: string): (State, Reply) {
    if sid !in st.sessions then (st, NotFound)
    else
      var s := st.sessions[sid];
      if s.status != Active then (st, BadRequest)
      else if kind !in s.allowed then (st, Forbidden)
      else if IsBlocked(kind) then (st, Forbidden)
      else if s.confirmEach then (st.(pending := st.pending[id := Action(sid, kind, PendingApproval)]), Ok)
      else
        var s' := s.(performed := s.performed + 1, approved := s.approved + 1);
        var st' := st.(history := st.history[id := Action(sid, kind, Executed)], sessions := st.sessions[sid := s']);
        (Logged(st', ActionExecuted(id)), Ok)
  }

  function AfterConfirm(st: State, id: string, approve: bool): (State, Reply) {
    if id !in st.pending then (st, NotFound)
    else
      var a := st.pending[id];
      if a.session !in st.sessions then (st, NotFound)
      else
        var s := st.sessions[a.session];
        var s' :=
          if approve then s.(performed := s.performed + 1, approved := s.approved + 1)
          else s.(rejected := s.rejected + 1);
        var st' := st.(
          sessions := st.sessions[a.session := s'], pending := st.pending - {id},
          history := st.history[id := a.(status := if approve then Executed else Rejected)]);
        (Logged(st', if approve then ActionApproved(id) else ActionRejected(id)), Ok)
  }

  function AfterStop(st: State, sid: string): (State, Reply) {
    if sid !in st.sessions then (st, NotFound)
    else
      var ids := PendingOf(st, sid);
      var st' := st.(
        sessions := st.sessions[sid := st.sessions[sid].(status := Terminated)], pending := st.pending - ids,
        history := st.history + Cancelling(st.pending, ids));
      (Logged(st', EmergencyStop(sid, |ids|)), Ok)
  }

  function Step(st: State, op: Op): (State, Reply) {
    match op
    case Request(id, user, allowed, confirmEach) => AfterRequest(st, id, user, allowed, confirmEach)
    case Consent(sid, user, given) => AfterConsent(st, sid, user, given)
    case Propose(id, sid, kind) => AfterPropose(st, id, sid, kind)
    case Confirm(id, approve) => AfterConfirm(st, id, approve)
    case Stop(sid) => AfterStop(st, sid)
    case Profile(user) => (Logged(st, ProfileUpdated(user)), Ok)
  }

  // ---- The invariant ----

  /** The finished actions of a session with a given outcome. */
  function Finished(st: State, session: string, status: ActionStatus): set<string> {
    set id | id in st.history && st.history[id].session == session && st.history[id].status == status
  }

  predicate Permitted(kind: string, s: Session) {
    kind in s.allowed && !IsBlocked(kind)
  }

  /** Every pending action belongs to an active session and has a permitted type. */
  ghost predicate PendingSafe(st: State) {
    forall id :: id in st.pending ==>
      && id !in st.history && st.pending[id].session in st.sessions && st.pending[id].status == PendingApproval
      && st.sessions[st.pending[id].session].status == Active
      && Permitted(st.pending[id].kind, st.sessions[st.pending[id].session])
  }

  /** Every finished action belongs to a consented session and has a permitted type. */
  ghost predicate HistorySafe(st: State) {
    forall id :: id in st.history ==>
      && st.history[id].session in st.sessions && st.history[id].status != PendingApproval
      && st.sessions[st.history[id].session].consent
      && Permitted(st.history[id].kind, st.sessions[st.history[id].session])
  }

  ghost predicate SessionsSafe(st: State) {
    forall sid :: sid in st.sessions ==>
      var s := st.sessions[sid];
      && (s.status == Active ==> s.consent)
      && (s.status == PendingConsent || s.status == Denied ==> !s.consent)
      && AllPermissible(s.allowed)
  }

  ghost predicate Accounted(st: State) {
    forall sid :: sid in st.sessions ==>
      var s := st.sessions[sid];
      && s.performed == s.approved == |Finished(st, sid, Executed)|
      && s.rejected == |Finished(st, sid, Rejected)|
  }

  /** An entry that records the execution of an action. */
  predicate Records(e: Audit, id: string) {
    e == ActionExecuted(id) || e == ActionApproved(id)
  }

  predicate Recorded(entries: seq<Audit>, id: string) {
    exists i :: 0 <= i < |entries| && Records(entries[i], id)
  }

  ghost predicate RecordedOnce(trail: seq<Audit>) {
    forall id, i, j :: 0 <= i < j < |trail| && Records(trail[i], id) ==> !Records(trail[j], id)
  }

  /**
   The trail names exactly the executed and the rejected actions, each execution once; the
   log is the newest part of the trail.
   */
  ghost predicate Audited(st: State) {
    && (forall id :: Recorded(st.trail, id) <==> HasOutcome(st, id, Executed))
    && (forall id :: ActionRejected(id) in st.trail <==> HasOutcome(st, id, Rejected))
    && RecordedOnce(st.trail)
    && st.audit == Newest(st.trail, MAX_AUDIT)
  }

  ghost predicate Inv(st: State) {
    Safe(st) && Accounted(st) && Audited(st)
  }

  ghost predicate AllPermissible(kinds: seq<string>) {
    forall kind :: kind in kinds ==> IsAllowed(kind) && !IsBlocked(kind)
  }

  lemma {:induction false} RefusalOk(allowed: seq<string>)
    ensures Refusal(allowed) == Ok <==> AllPermissible(allowed)
  {
    if allowed != [] {
      RefusalOk(allowed[1..]);
      assert allowed == [allowed[0]] + allowed[1..];
    }
  }

  lemma FinishedAdd(st: State, st': State, id: string, a: Action, sid: string, status: ActionStatus)
    requires id !in st.history && st'.history == st.history[id := a]
    ensures |Finished(st', sid, status)| ==
      |Finished(st, sid, status)| + (if a.session == sid && a.status == status then 1 else 0)
  {
    var before, after := Finished(st, sid, status), Finished(st', sid, status);
    var counts := a.session == sid && a.status == status;
    forall x
      ensures x in after <==> x in before || (counts && x == id)
    {
    }
    assert id !in before;
    hide Finished;
    OneMore(before, after, id, counts);
  }

  lemma OneMore(before: set<string>, after: set<string>, id: string, more: bool)
    requires id !in before && forall x :: x in after <==> x in before || (more && x == id)
    ensures |after| == |before| + (if more then 1 else 0)
  {
    assert after == if more then before + {id} else before;
  }

  ghost predicate Safe(st: State) {
    PendingSafe(st) && HistorySafe(st) && SessionsSafe(st)
  }

  /** No session is lost, loses its consent, changes what it allows, or stops being active. */
  ghost predicate SessionsKept(st: State, st': State) {
    forall sid :: sid in st.sessions ==>
      && sid in st'.sessions && st'.sessions[sid].allowed == st.sessions[sid].allowed
      && (st.sessions[sid].status == Active ==> st'.sessions[sid].status == Active)
      && (st.sessions[sid].consent ==> st'.sessions[sid].consent)
  }

  lemma OpenSafe(st: State, op: Op)
    requires Safe(st) && FreshFor(st, op) && (op.Request? || op.Consent? || op.Profile?)
    ensures Safe(Step(st, op).0)
  {
    hide IsAllowed, IsBlocked, AllPermissible, Refusal, Newest, PendingSafe, HistorySafe;
    if op.Request? { RefusalOk(op.allowed); }
    var st' := Step(st, op).0;
    assert SessionsSafe(st') by { hide SessionsKept; }
    assert SessionsKept(st, st') by { hide SessionsSafe; }
    hide Step, SessionsSafe, SessionsKept;
    assert st'.pending == st.pending && st'.history == st.history by { OpenStores(st, op); }
    SameStoresSafe(st, st');
  }

  lemma OpenStores(st: State, op: Op)
    requires op.Request? || op.Consent? || op.Profile?
    ensures Step(st, op).0.pending == st.pending && Step(st, op).0.history == st.history
  {
    hide Refusal, Newest;
  }

  lemma SameStoresSafe(st: State, st': State)
    requires PendingSafe(st) && HistorySafe(st) && SessionsKept(st, st')
    requires st'.pending == st.pending && st'.history == st.history
    ensures PendingSafe(st') && HistorySafe(st')
  {
    hide IsBlocked;
  }

  lemma ProposeSafe(st: State, op: Op)
    requires Safe(st) && FreshFor(st, op) && op.Propose?
    ensures Safe(Step(st, op).0)
  {
    hide IsAllowed, IsBlocked, AllPermissible, Newest;
    var st' := Step(st, op).0;
    if st' != st {
      var a := if op.newAction in st'.pending then st'.pending[op.newAction] else st'.history[op.newAction];
      assert SessionsKept(st, st') && SessionsSafe(st');
      assert Permitted(a.kind, st'.sessions[a.session]) && st'.sessions[a.session].status == Active;
      hide Step, SessionsSafe, SessionsKept, Permitted;
      if op.newAction in st'.pending {
        PendingAdded(st, st', op.newAction, a);
      } else {
        HistoryAdded(st, st', op.newAction, a);
      }
    }
  }

  lemma PendingAdded(st: State, st': State, id: string, a: Action)
    requires PendingSafe(st) && HistorySafe(st) && SessionsKept(st, st')
    requires id !in st.history && a.status == PendingApproval && a.session in st'.sessions
    requires st'.sessions[a.session].status == Active && Permitted(a.kind, st'.sessions[a.session])
    requires st'.pending == st.pending[id := a] && st'.history == st.history
    ensures PendingSafe(st') && HistorySafe(st')
  {
    hide IsBlocked;
  }

  lemma HistoryAdded(st: State, st': State, id: string, a: Action)
    requires PendingSafe(st) && HistorySafe(st) && SessionsKept(st, st')
    requires id !in st.pending && a.status != PendingApproval && a.session in st'.sessions
    requires st'.sessions[a.session].consent && Permitted(a.kind, st'.sessions[a.session])
    requires st'.pending == st.pending && st'.history == st.history[id := a]
    ensures PendingSafe(st') && HistorySafe(st')
  {
    hide IsBlocked;
  }

  lemma ConfirmSafe(st: State, op: Op)
    requires Safe(st) && op.Confirm?
    ensures Safe(Step(st, op).0)
  {
    hide IsAllowed, IsBlocked, AllPermissible, Permitted, AfterRequest, AfterConsent, AfterPropose, AfterStop;
    if op.action in st.pending {
      var st' := Step(st, op).0;
      forall sid | sid in st.sessions
        ensures sid in st'.sessions && st'.sessions[sid].status == st.sessions[sid].status
        ensures st'.sessions[sid].consent == st.sessions[sid].consent
        ensures forall kind :: Permitted(kind, st'.sessions[sid]) == Permitted(kind, st.sessions[sid])
        ensures st'.sessions[sid].allowed == st.sessions[sid].allowed
      {
        SamePermitted(st.sessions[sid], st'.sessions[sid]);
      }
    }
  }

  lemma SamePermitted(s: Session, s': Session)
    requires s'.allowed == s.allowed
    ensures forall kind :: Permitted(kind, s') == Permitted(kind, s)
  {
    hide IsBlocked;
  }

  lemma StopSafe(st: State, op: Op)
    requires Safe(st) && op.Stop?
    ensures Safe(Step(st, op).0)
  {
    hide AfterStop, PendingSafe, HistorySafe, SessionsSafe;
    StopPendingSafe(st, op.session);
    StopHistorySafe(st, op.session);
    StopSessionsSafe(st, op.session);
  }

  lemma StopPendingSafe(st: State, sid: string)
    requires PendingSafe(st)
    ensures PendingSafe(AfterStop(st, sid).0)
  {
    hide IsBlocked;
  }

  lemma StopHistorySafe(st: State, sid: string)
    requires PendingSafe(st) && HistorySafe(st) && SessionsSafe(st)
    ensures HistorySafe(AfterStop(st, sid).0)
  {
    hide IsBlocked, AllPermissible, Newest;
    if sid in st.sessions {
      var st', ids := AfterStop(st, sid).0, PendingOf(st, sid);
      forall id | id in st'.history
        ensures st'.history[id].session in st'.sessions && st'.history[id].status != PendingApproval
        ensures st'.sessions[st'.history[id].session].consent
        ensures Permitted(st'.history[id].kind, st'.sessions[st'.history[id].session])
      {
        if id in ids {
          assert st'.history[id] == st.pending[id].(status := Cancelled);
        } else {
          assert id in st.history && st'.history[id] == st.history[id];
        }
      }
    }
  }

  lemma StopSessionsSafe(st: State, sid: string)
    requires SessionsSafe(st)
    ensures SessionsSafe(AfterStop(st, sid).0)
  {
    hide AllPermissible, PendingOf, Cancelling;
  }

  lemma SafeStep(st: State, op: Op)
    requires Safe(st) && FreshFor(st, op)
    ensures Safe(Step(st, op).0)
  {
    hide Safe, Step;
    match op
    case Propose(_, _, _) => ProposeSafe(st, op);
    case Confirm(_, _) => ConfirmSafe(st, op);
    case Stop(_) => StopSafe(st, op);
    case _ => OpenSafe(st, op);
  }

  /** Cancelled actions do not count. */
  lemma SameAccounts(st: State, st': State)
    requires forall id :: id in st.history ==> id in st'.history && st'.history[id] == st.history[id]
    requires forall id :: id in st'.history && id !in st.history ==> st'.history[id].status == Cancelled
    ensures forall sid :: Finished(st', sid, Executed) == Finished(st, sid, Executed)
    ensures forall sid :: Finished(st', sid, Rejected) == Finished(st, sid, Rejected)
  {
  }

  lemma CountedOnce(st: State, st': State, id: string, a: Action)
    requires Accounted(st) && a.session in st.sessions && id !in st.history && st'.history == st.history[id := a]
    requires forall sid :: sid in st'.sessions && sid != a.session ==>
      sid in st.sessions && st'.sessions[sid] == st.sessions[sid]
    requires a.session in st'.sessions
    requires var s, s' := st.sessions[a.session], st'.sessions[a.session];
      && s'.performed - s.performed == s'.approved - s.approved == (if a.status == Executed then 1 else 0)
      && s'.rejected - s.rejected == (if a.status == Rejected then 1 else 0)
    ensures Accounted(st')
  {
    hide Finished;
    forall sid | sid in st'.sessions
      ensures
        var s := st'.sessions[sid];
        && s.performed == s.approved == |Finished(st', sid, Executed)|
        && s.rejected == |Finished(st', sid, Rejected)|
    {
      FinishedAdd(st, st', id, a, sid, Executed);
      FinishedAdd(st, st', id, a, sid, Rejected);
      assert sid in st.sessions;
    }
  }

  lemma ActionAccounted(st: State, op: Op)
    requires PendingSafe(st) && Accounted(st) && FreshFor(st, op) && (op.Propose? || op.Confirm?)
    ensures Accounted(Step(st, op).0)
  {
    hide PendingSafe, IsBlocked, Finished;
    var st' := Step(st, op).0;
    match op
    case Propose(id, sid, kind) =>
      if st'.history != st.history {
        CountedOnce(st, st', id, Action(sid, kind, Executed));
      } else {
        SameAccounts(st, st');
      }
    case Confirm(id, approve) =>
      if id in st.pending {
        PendingIsNew(st, id);
        CountedOnce(st, st', id, st.pending[id].(status := if approve then Executed else Rejected));
      }
  }

  lemma AccountedStep(st: State, op: Op)
    requires Safe(st) && Accounted(st) && FreshFor(st, op)
    ensures Accounted(Step(st, op).0)
  {
    hide SessionsSafe, PendingSafe, HistorySafe, Refusal, Finished, AfterPropose, AfterConfirm;
    var st' := Step(st, op).0;
    match op
    case Request(id, _, _, _) =>
      NothingFinished(st, id);
      SameAccounts(st, st');
    case Consent(_, _, _) => SameAccounts(st, st');
    case Profile(_) => SameAccounts(st, st');
    case Stop(sid) =>
      CancelledAreNew(st, sid);
      SameAccounts(st, st');
    case _ => ActionAccounted(st, op);
  }

  lemma PendingIsNew(st: State, id: string)
    requires PendingSafe(st) && id in st.pending
    ensures id !in st.history && st.pending[id].session in st.sessions
  {
    hide Permitted;
  }

  lemma CancelledAreNew(st: State, sid: string)
    requires PendingSafe(st)
    ensures forall id :: id in Cancelling(st.pending, PendingOf(st, sid)) ==> id !in st.history
  {
    hide Permitted;
  }

  lemma NothingFinished(st: State, sid: string)
    requires HistorySafe(st) && sid !in st.sessions
    ensures Finished(st, sid, Executed) == Finished(st, sid, Rejected) == {}
  {
    hide Permitted;
  }

  /** What a handler appends to the trail, if anything. */
  function Entry(st: State, op: Op): Option<Audit> {
    if Step(st, op).0.trail == st.trail then None else Some(Step(st, op).0.trail[|st.trail|])
  }

  lemma EntryAppended(st: State, op: Op)
    ensures var st', e := Step(st, op).0, Entry(st, op);
      && st'.trail == (if e.Some? then st.trail + [e.value] else st.trail)
      && st'.audit == (if e.Some? then Newest(st.audit + [e.value], MAX_AUDIT) else st.audit)
  {
    hide Newest, Refusal, PendingOf, Cancelling, IsBlocked;
  }

  /** The history changes as the entry says. */
  lemma EntryTells(st: State, op: Op)
    requires PendingSafe(st) && FreshFor(st, op)
    ensures Tells(st, Step(st, op).0, Entry(st, op))
    ensures forall id :: Entry(st, op).Some? && Records(Entry(st, op).value, id) ==> id !in st.history
  {
    hide Step, Entry, Tells, PendingSafe;
    match op
    case Stop(sid) => StopTells(st, sid);
    case Propose(_, _, _) => ActionTells(st, op);
    case Confirm(_, _) => ActionTells(st, op);
    case _ => OpenTells(st, op);
  }

  lemma OpenTells(st: State, op: Op)
    requires op.Request? || op.Consent? || op.Profile?
    ensures Tells(st, Step(st, op).0, Entry(st, op))
    ensures forall id :: !(Entry(st, op).Some? && Records(Entry(st, op).value, id))
  {
    hide Newest, Refusal;
    OpenStores(st, op);
  }

  lemma ActionTells(st: State, op: Op)
    requires PendingSafe(st) && FreshFor(st, op) && (op.Propose? || op.Confirm?)
    ensures Tells(st, Step(st, op).0, Entry(st, op))
    ensures forall id :: Entry(st, op).Some? && Records(Entry(st, op).value, id) ==> id !in st.history
  {
    hide Newest, IsBlocked, PendingSafe;
    if op.Confirm? && op.action in st.pending { PendingIsNew(st, op.action); }
  }

  lemma StopTells(st: State, sid: string)
    requires PendingSafe(st)
    ensures Tells(st, Step(st, Stop(sid)).0, Entry(st, Stop(sid)))
    ensures forall id :: !(Entry(st, Stop(sid)).Some? && Records(Entry(st, Stop(sid)).value, id))
  {
    hide Newest, PendingSafe;
    CancelledAreNew(st, sid);
  }

  /** The outcomes in the history differ by what the entry says. */
  ghost predicate Tells(st: State, st': State, e: Option<Audit>) {
    && (forall id :: HasOutcome(st', id, Executed) <==>
      HasOutcome(st, id, Executed) || (e.Some? && Records(e.value, id)))
    && (forall id :: HasOutcome(st', id, Rejected) <==> HasOutcome(st, id, Rejected) || e == Some(ActionRejected(id)))
  }

  predicate HasOutcome(st: State, id: string, status: ActionStatus) {
    id in st.history && st.history[id].status == status
  }

  lemma RecordedSnoc(trail: seq<Audit>, e: Audit, id: string)
    ensures Recorded(trail + [e], id) <==> Recorded(trail, id) || Records(e, id)
  {
    var trail' := trail + [e];
    assert trail'[|trail|] == e;
    if Recorded(trail, id) {
      var i :| 0 <= i < |trail| && Records(trail[i], id);
      assert trail'[i] == trail[i];
    }
  }

  lemma AuditedStep(st: State, op: Op)
    requires PendingSafe(st) && Audited(st) && FreshFor(st, op)
    ensures Audited(Step(st, op).0)
  {
    hide Step, Entry, Newest, PendingSafe, Recorded, Records;
    var st', e := Step(st, op).0, Entry(st, op);
    EntryAppended(st, op);
    EntryTells(st, op);
    if e.Some? {
      NewestSnoc(st.trail, e.value, MAX_AUDIT);
      forall id
        ensures Recorded(st'.trail, id) <==> Recorded(st.trail, id) || Records(e.value, id)
      {
        RecordedSnoc(st.trail, e.value, id);
      }
      OnceMore(st.trail, e.value);
    }
  }

  lemma OnceMore(trail: seq<Audit>, e: Audit)
    requires RecordedOnce(trail) && forall id :: Records(e, id) ==> !Recorded(trail, id)
    ensures RecordedOnce(trail + [e])
  {
  }

  /** Every handler keeps the invariant. */
  lemma StepKeepsInv(st: State, op: Op)
    requires Inv(st) && FreshFor(st, op)
    ensures Inv(Step(st, op).0)
  {
    SafeStep(st, op);
    AccountedStep(st, op);
    AuditedStep(st, op);
  }

  // ---- Runs ----

  function Start(): State {
    State(map[], map[], map[], [], [])
  }

  ghost predicate Possible(st: State, ops: seq<Op>)
    decreases |ops|
  {
    ops == [] || (FreshFor(st, ops[0]) && Possible(Step(st, ops[0]).0, ops[1..]))
  }

  function After(st: State, ops: seq<Op>): State
    decreases |ops|
  {
    if ops == [] then st else After(Step(st, ops[0]).0, ops[1..])
  }

  lemma StartInv()
    ensures Inv(Start())
  {
  }

  lemma {:induction false} RunKeepsInv(st: State, ops: seq<Op>)
    requires Inv(st) && Possible(st, ops)
    ensures Inv(After(st, ops))
    decreases |ops|
  {
    if ops != [] {
      hide Inv;
      StepKeepsInv(st, ops[0]);
      RunKeepsInv(Step(st, ops[0]).0, ops[1..]);
    }
  }

  /**
   `confirm` does not look at the session's status, and need not: whatever it executes
   belongs to an active, consented session and is of a type that session allows.
   */
  lemma ConfirmOnlyActsOnActiveSessions(ops: seq<Op>, id: string)
    requires Possible(Start(), ops)
    requires var st := After(Start(), ops); id in st.pending
    ensures var st := After(Start(), ops);
      var a := st.pending[id];
      && a.session in st.sessions && st.sessions[a.session].status == Active && st.sessions[a.session].consent
      && IsAllowed(a.kind) && !IsBlocked(a.kind) && a.kind in st.sessions[a.session].allowed
      && Step(st, Confirm(id, true)).1 == Ok && Step(st, Confirm(id, true)).0.history[id].status == Executed
  {
    RunKeepsInv(Start(), ops);
  }

  /** In every run: no blocked action was ever executed, and each execution has consent and was recorded, once. */
  lemma ExecutedActionsWerePermitted(ops: seq<Op>, id: string)
    requires Possible(Start(), ops)
    requires var st := After(Start(), ops); id in st.history && st.history[id].status == Executed
    ensures var st := After(Start(), ops);
      var a := st.history[id];
      && !IsBlocked(a.kind) && IsAllowed(a.kind)
      && a.session in st.sessions && st.sessions[a.session].consent && a.kind in st.sessions[a.session].allowed
      && Recorded(st.trail, id) && RecordedOnce(st.trail)
  {
    RunKeepsInv(Start(), ops);
  }

  // ---- How long the log keeps a record ----

  /** How many entries were appended after the last record of an action. */
  function AppendedAfter(trail: seq<Audit>, id: string): nat {
    if trail == [] || Records(trail[|trail| - 1], id) then 0 else AppendedAfter(trail[..|trail| - 1], id) + 1
  }

  lemma {:induction false} NewestRecords(trail: seq<Audit>, id: string, n: nat)
    requires Recorded(trail, id)
    ensures Recorded(Newest(trail, n), id) <==> AppendedAfter(trail, id) < n
    decreases |trail|
  {
    var init, last := trail[..|trail| - 1], trail[|trail| - 1];
    assert trail == init + [last];
    if n > 0 {
      assert Newest(trail, n) == Newest(init, n - 1) + [last];
      RecordedSnoc(Newest(init, n - 1), last, id);
      RecordedSnoc(init, last, id);
      if !Records(last, id) { NewestRecords(init, id, n - 1); }
    }
  }

  /**
   In every run, the log still has the record of an executed action exactly when fewer than
   `MAX_AUDIT` entries came after it.
   */
  lemma RecordKeptIff(ops: seq<Op>, id: string)
    requires Possible(Start(), ops)
    requires var st := After(Start(), ops); id in st.history && st.history[id].status == Executed
    ensures var st := After(Start(), ops);
      Recorded(st.audit, id) <==> AppendedAfter(st.trail, id) < MAX_AUDIT
  {
    hide Recorded, Newest, AppendedAfter, Safe, Accounted;
    StartInv();
    RunKeepsInv(Start(), ops);
    NewestRecords(After(Start(), ops).trail, id, MAX_AUDIT);
  }

  lemma {:induction false} AfterConcat(st: State, a: seq<Op>, b: seq<Op>)
    requires Possible(st, a) && Possible(After(st, a), b)
    ensures Possible(st, a + b) && After(st, a + b) == After(After(st, a), b)
    decreases |a|
  {
    if a == [] {
      assert a + b == b;
    } else {
      assert (a + b)[1..] == a[1..] + b;
      AfterConcat(Step(st, a[0]).0, a[1..], b);
    }
  }

  lemma {:induction false} ProfilesAppend(st: State, user: string, n: nat, id: string)
    ensures var ops := Copies(Profile(user), n); var st' := After(st, ops);
      && Possible(st, ops) && st'.history == st.history
      && AppendedAfter(st'.trail, id) == AppendedAfter(st.trail, id) + n
    decreases n
  {
    hide Newest;
    if n > 0 {
      var st1 := Step(st, Profile(user)).0;
      assert Copies(Profile(user), n)[1..] == Copies(Profile(user), n - 1);
      assert st1.trail[..|st.trail|] == st.trail;
      ProfilesAppend(st1, user, n - 1, id);
    }
  }

  /**
   An executed action whose record the log has lost: one action without confirmation, then
   as many profile updates as the log holds.
   */
  lemma RecordCanBeLost(sid: string, id: string, user: string)
    ensures var ops := [Request(sid, user, ["navigation"], false), Consent(sid, user, true),
      Propose(id, sid, "navigation")]
                       + Copies(Profile(user), MAX_AUDIT);
      var st := After(Start(), ops);
      && Possible(Start(), ops) && id in st.history && st.history[id].status == Executed && !Recorded(st.audit, id)
  {
    var a := [Request(sid, user, ["navigation"], false), Consent(sid, user, true), Propose(id, sid, "navigation")];
    var profiles := Copies(Profile(user), MAX_AUDIT);
    OneExecution(sid, id, user, a);
    var st := After(Start(), a);
    ProfilesAppend(st, user, MAX_AUDIT, id);
    AfterConcat(Start(), a, profiles);
    RecordKeptIff(a + profiles, id);
  }

  lemma OneExecution(sid: string, id: string, user: string, ops: seq<Op>)
    requires ops == [Request(sid, user, ["navigation"], false), Consent(sid, user, true),
      Propose(id, sid, "navigation")]
    ensures var st := After(Start(), ops);
      Possible(Start(), ops) && id in st.history && st.history[id].status == Executed
  {
    hide Newest;
    RefusalOk(["navigation"]);
    var s1 := Step(Start(), ops[0]).0;
    var s2 := Step(s1, ops[1]).0;
    var s3 := Step(s2, ops[2]).0;
    assert s3.history[id].status == Executed;
    assert ops[1..][1..] == [ops[2]] && ops[1..][1..][1..] == [];
    assert Possible(s2, [ops[2]]) && After(s2, [ops[2]]) == s3;
    assert Possible(s1, ops[1..]) && After(s1, ops[1..]) == s3;
  }

  /** In every run the session counters count exactly its finished actions. */
  lemma CountersExact(ops: seq<Op>, sid: string)
    requires Possible(Start(), ops)
    requires sid in After(Start(), ops).sessions
    ensures var st := After(Start(), ops);
      && st.sessions[sid].performed == st.sessions[sid].approved == |Finished(st, sid, Executed)|
      && st.sessions[sid].rejected == |Finished(st, sid, Rejected)|
  {
    RunKeepsInv(Start(), ops);
  }

  /** The action ids a run has accepted. */
  function Proposed(st: State, ops: seq<Op>): set<string>
    decreases |ops|
  {
    if ops == [] then {}
    else
      (if ops[0].Propose? && Step(st, ops[0]).1 == Ok then {ops[0].newAction} else {})
        + Proposed(Step(st, ops[0]).0, ops[1..])
  }

  /** A session becomes active only by its own user's consent, given while it was waiting for it. */
  lemma OnlyOwnerActivates(st: State, op: Op, sid: string)
    requires FreshFor(st, op)
    requires var st' := Step(st, op).0; sid in st'.sessions && st'.sessions[sid].status == Active
    ensures sid in st.sessions
    ensures st.sessions[sid].status == Active
         || (op == Consent(sid, st.sessions[sid].user, true) && st.sessions[sid].status == PendingConsent)
  {
    hide Refusal, Cancelling, PendingOf;
  }

  /** Every accepted action is in exactly one of the two stores, and nothing else is. */
  lemma {:induction false} ProposedIsPendingOrFinished(st: State, ops: seq<Op>)
    requires Inv(st) && Possible(st, ops)
    ensures var st' := After(st, ops);
      && Stores(st') == Stores(st) + Proposed(st, ops)
      && st'.pending.Keys !! st'.history.Keys
    decreases |ops|
  {
    hide PendingSafe, Accounted, Audited, HistorySafe, SessionsSafe, Step, Stores, FreshFor;
    if ops == [] {
      StoresDisjoint(st);
    } else {
      StepKeepsInv(st, ops[0]);
      StepStores(st, ops[0]);
      ProposedIsPendingOrFinished(Step(st, ops[0]).0, ops[1..]);
    }
  }

  lemma StoresDisjoint(st: State)
    requires PendingSafe(st)
    ensures st.pending.Keys !! st.history.Keys
  {
    hide Permitted;
  }

  function Stores(st: State): set<string> {
    st.pending.Keys + st.history.Keys
  }

  lemma StopStores(st: State, sid: string)
    ensures Stores(Step(st, Stop(sid)).0) == Stores(st)
  {
    hide IsBlocked, Refusal;
    var ids := PendingOf(st, sid);
    assert ids <= st.pending.Keys;
    assert Cancelling(st.pending, ids).Keys == ids;
    MovedKeys(st.pending, st.history, Cancelling(st.pending, ids), ids);
  }

  lemma MovedKeys(
    pending: map<string, Action>, history: map<string, Action>, cancelled: map<string, Action>,
    ids: set<string>)
    requires ids <= pending.Keys && cancelled.Keys == ids
    ensures (pending - ids).Keys + (history + cancelled).Keys == pending.Keys + history.Keys
  {
    assert (pending - ids).Keys == pending.Keys - ids;
    assert (history + cancelled).Keys == history.Keys + ids;
  }

  lemma ConfirmStores(st: State, id: string, approve: bool)
    ensures Stores(Step(st, Confirm(id, approve)).0) == Stores(st)
  {
    assert (st.pending - {id}).Keys == st.pending.Keys - {id};
  }

  lemma StepStores(st: State, op: Op)
    ensures var (st', reply) := Step(st, op);
      Stores(st') == Stores(st) + (if op.Propose? && reply == Ok then {op.newAction} else {})
  {
    hide IsBlocked, Refusal, AfterStop, AfterConfirm;
    match op
    case Stop(sid) =>
      StopStores(st, sid);
    case Confirm(id, approve) => ConfirmStores(st, id, approve);
    case _ =>
  }

  /** No record of the history is ever changed or removed. */
  lemma {:induction false} HistoryIsAppendOnly(st: State, ops: seq<Op>)
    requires Inv(st) && Possible(st, ops)
    ensures forall id :: id in st.history ==>
      id in After(st, ops).history && After(st, ops).history[id] == st.history[id]
    decreases |ops|
  {
    hide PendingSafe, Accounted, Audited, HistorySafe, SessionsSafe, Step;
    if ops != [] {
      StepKeepsInv(st, ops[0]);
      StepAppends(st, ops[0]);
      HistoryIsAppendOnly(Step(st, ops[0]).0, ops[1..]);
    }
  }

  lemma StepAppends(st: State, op: Op)
    requires Inv(st) && FreshFor(st, op)
    ensures forall id :: id in st.history ==>
      id in Step(st, op).0.history && Step(st, op).0.history[id] == st.history[id]
  {
    hide Accounted, Audited, HistorySafe, SessionsSafe, Permitted, IsBlocked, Refusal;
    if op.Stop? { CancelledAreNew(st, op.session); }
  }

  predicate Ended(st: State, sid: string) {
    sid in st.sessions && (st.sessions[sid].status == Denied || st.sessions[sid].status == Terminated)
  }

  lemma NothingPendingAfterEnd(st: State, sid: string)
    requires PendingSafe(st) && Ended(st, sid)
    ensures PendingOf(st, sid) == {}
  {
    hide Permitted;
  }

  lemma EndStays(st: State, op: Op, sid: string)
    requires PendingSafe(st) && FreshFor(st, op) && Ended(st, sid)
    ensures Ended(Step(st, op).0, sid)
    ensures Step(st, op).0.sessions[sid].performed == st.sessions[sid].performed
  {
    hide Permitted, IsBlocked, Refusal, Cancelling, PendingOf;
  }

  lemma ExecutedStay(st: State, op: Op, sid: string)
    requires PendingSafe(st) && FreshFor(st, op) && Ended(st, sid)
    ensures Finished(Step(st, op).0, sid, Executed) == Finished(st, sid, Executed)
  {
    hide Permitted, IsBlocked, Refusal;
    var st' := Step(st, op).0;
    assert forall id :: id in st.pending ==> st.pending[id].session != sid;
    assert forall id :: id in Finished(st', sid, Executed) <==> id in Finished(st, sid, Executed);
  }

  lemma StepAfterEnd(st: State, op: Op, sid: string)
    requires Inv(st) && FreshFor(st, op) && Ended(st, sid)
    ensures var st' := Step(st, op).0;
      && Ended(st', sid) && PendingOf(st', sid) == {}
      && Finished(st', sid, Executed) == Finished(st, sid, Executed)
      && st'.sessions[sid].performed == st.sessions[sid].performed
  {
    hide Accounted, Audited, PendingSafe, SessionsSafe, HistorySafe, Step, Ended;
    EndStays(st, op, sid);
    ExecutedStay(st, op, sid);
    SafeStep(st, op);
    NothingPendingAfterEnd(Step(st, op).0, sid);
  }

  /**
   Once a session is denied or terminated, nothing is pending for it, nothing more is
   executed for it, and the records of what was executed stay as they are.
   */
  lemma {:induction false} EndedIsFinal(st: State, ops: seq<Op>, sid: string)
    requires Inv(st) && Possible(st, ops) && Ended(st, sid)
    ensures var st' := After(st, ops);
      && Ended(st', sid) && PendingOf(st', sid) == {}
      && Finished(st', sid, Executed) == Finished(st, sid, Executed)
      && (forall id :: id in Finished(st, sid, Executed) ==> id in st'.history && st'.history[id] == st.history[id])
      && st'.sessions[sid].performed == st.sessions[sid].performed
    decreases |ops|
  {
    HistoryIsAppendOnly(st, ops);
    assert forall id :: id in Finished(st, sid, Executed) ==> id in st.history;
    if ops == [] {
      hide Accounted, Audited, SessionsSafe, HistorySafe, IsAllowed, IsBlocked, Permitted, Refusal;
      assert forall id :: id in st.pending ==> st.pending[id].session != sid;
    } else {
      hide Inv, Ended, Finished, PendingOf;
      StepAfterEnd(st, ops[0], sid);
      StepKeepsInv(st, ops[0]);
      EndedKnown(st, sid);
      EndedKnown(Step(st, ops[0]).0, sid);
      EndedIsFinal(Step(st, ops[0]).0, ops[1..], sid);
    }
  }

  lemma EndedKnown(st: State, sid: string)
    requires Ended(st, sid)
    ensures sid in st.sessions
  {
  }

  // ---- The handlers ----

  class TakeoverService {
    var sessions: map<string, Session>
    var pending: map<string, Action>
    var history: map<string, Action>
    var audit: seq<Audit>
    ghost var trail: seq<Audit>

    ghost function Current(): State
      reads this
    {
      State(sessions, pending, history, audit, trail)
    }

    constructor ()
      ensures Current() == Start() && Inv(Current())
    {
      sessions, pending, history, audit, trail := map[], map[], map[], [], [];
    }

    method RequestTakeover(id: string, user: string, allowed: seq<string>, confirmEach: bool) returns (reply: Reply)
      requires Inv(Current()) && id !in sessions
      modifies this
      ensures Inv(Current())
      ensures (Current(), reply) == Step(old(Current()), Request(id, user, allowed, confirmEach))
    {
      hide Inv;
      StepKeepsInv(Current(), Request(id, user, allowed, confirmEach));
      for i := 0 to |allowed|
        invariant Refusal(allowed) == Refusal(allowed[i..])
      {
        if !IsAllowed(allowed[i]) {
          return BadRequest;
        }
        if IsBlocked(allowed[i]) {
          return Forbidden;
        }
        assert allowed[i..][1..] == allowed[i + 1..];
      }
      sessions := sessions[id := Session(PendingConsent, user, allowed, confirmEach, false, 0, 0, 0)];
      Append(TakeoverRequested(id));
      reply := Ok;
    }

    method GiveConsent(sid: string, user: string, given: bool) returns (reply: Reply)
      requires Inv(Current())
      modifies this
      ensures Inv(Current())
      ensures (Current(), reply) == Step(old(Current()), Consent(sid, user, given))
    {
      hide Inv;
      StepKeepsInv(Current(), Consent(sid, user, given));
      if sid !in sessions {
        return NotFound;
      }
      var session := sessions[sid];
      if session.status != PendingConsent {
        return BadRequest;
      }
      if session.user != user {
        return Forbidden;
      }
      if !given {
        sessions := sessions[sid := session.(status := Denied)];
        Append(TakeoverDenied(sid));
        return Ok;
      }
      sessions := sessions[sid := session.(status := Active, consent := true)];
      Append(TakeoverConsented(sid));
      reply := Ok;
    }

    method ProposeAction(id: string, sid: string, kind: string) returns (reply: Reply)
      requires Inv(Current()) && id !in pending && id !in history
      modifies this
      ensures Inv(Current())
      ensures (Current(), reply) == Step(old(Current()), Propose(id, sid, kind))
    {
      hide Inv;
      StepKeepsInv(Current(), Propose(id, sid, kind));
      if sid !in sessions {
        return NotFound;
      }
      var session := sessions[sid];
      if session.status != Active {
        return BadRequest;
      }
      if kind !in session.allowed || IsBlocked(kind) {
        return Forbidden;
      }
      if session.confirmEach {
        pending := pending[id := Action(sid, kind, PendingApproval)];
        return Ok;
      }
      history := history[id := Action(sid, kind, Executed)];
      sessions := sessions[sid := session.(performed := session.performed + 1, approved := session.approved + 1)];
      Append(ActionExecuted(id));
      reply := Ok;
    }

    method ConfirmAction(id: string, approve: bool) returns (reply: Reply)
      requires Inv(Current())
      modifies this
      ensures Inv(Current())
      ensures (Current(), reply) == Step(old(Current()), Confirm(id, approve))
    {
      hide Inv;
      StepKeepsInv(Current(), Confirm(id, approve));
      if id !in pending {
        return NotFound;
      }
      var action := pending[id];
      if action.session !in sessions {
        return NotFound;
      }
      var session := sessions[action.session];
      if approve {
        action := action.(status := Executed);
        session := session.(performed := session.performed + 1, approved := session.approved + 1);
      } else {
        action := action.(status := Rejected);
        session := session.(rejected := session.rejected + 1);
      }
      history := history[id := action];
      pending := pending - {id};
      sessions := sessions[action.session := session];
      Append(if approve then ActionApproved(id) else ActionRejected(id));
      reply := Ok;
    }

    method SetProfile(user: string)
      requires Inv(Current())
      modifies this
      ensures Inv(Current())
      ensures Current() == Step(old(Current()), Profile(user)).0
    {
      hide Inv;
      StepKeepsInv(Current(), Profile(user));
      Append(ProfileUpdated(user));
    }

    /** Adds to the log, trimmed to the newest entries. */
    method Append(e: Audit)
      modifies this`audit, this`trail
      ensures Current() == Logged(old(Current()), e)
    {
      audit := audit + [e];
      if |audit| > MAX_AUDIT {
        audit := audit[|audit| - MAX_AUDIT..];
      }
      trail := trail + [e];
    }

    /** Terminates the session, then cancels its pending actions one by one. */
    method Stop(sid: string) returns (reply: Reply)
      requires Inv(Current())
      modifies this
      ensures Inv(Current())
      ensures (Current(), reply) == Step(old(Current()), Op.Stop(sid))
    {
      hide Inv;
      StepKeepsInv(Current(), Op.Stop(sid));
      if sid !in sessions {
        return NotFound;
      }
      sessions := sessions[sid := sessions[sid].(status := Terminated)];
      var cancelled := CancelPending(sid);
      Append(EmergencyStop(sid, cancelled));
      reply := Ok;
    }

    method CancelPending(sid: string) returns (cancelled: nat)
      modifies this`pending, this`history
      ensures pending == old(pending) - PendingOf(old(Current()), sid)
      ensures history == old(history) + Cancelling(old(pending), PendingOf(old(Current()), sid))
      ensures cancelled == |PendingOf(old(Current()), sid)|
    {
      cancelled := 0;
      ghost var before := pending;
      var rest := pending.Keys;
      ghost var gone: set<string> := {};
      while rest != {}
        invariant rest + gone == before.Keys && rest !! gone
        invariant pending == before - Mine(before, sid, gone)
        invariant history == old(history) + Cancelling(before, Mine(before, sid, gone))
        invariant cancelled == |Mine(before, sid, gone)|
        decreases rest
      {
        var id :| id in rest;
        var action := pending[id];
        MineAdd(before, old(history), sid, gone, id);
        if action.session == sid {
          history := history[id := action.(status := Cancelled)];
          pending := pending - {id};
          cancelled := cancelled + 1;
        }
        rest := rest - {id};
        gone := gone + {id};
      }
      assert Mine(before, sid, gone) == PendingOf(old(Current()), sid);
    }
  }

  lemma MineAdd(pending: map<string, Action>, history: map<string, Action>, sid: string, ids: set<string>, id: string)
    requires id in pending && id !in ids
    ensures id !in Mine(pending, sid, ids)
    ensures var mine, mine' := Mine(pending, sid, ids), Mine(pending, sid, ids + {id});
      if pending[id].session == sid then
        && mine' == mine + {id} && pending - mine' == pending - mine - {id}
        && history + Cancelling(pending, mine') ==
          (history + Cancelling(pending, mine))[id := pending[id].(status := Cancelled)]
      else mine' == mine
  {
    var mine, mine' := Mine(pending, sid, ids), Mine(pending, sid, ids + {id});
    if pending[id].session == sid {
      assert mine' == mine + {id};
      assert Cancelling(pending, mine') == Cancelling(pending, mine)[id := pending[id].(status := Cancelled)];
    } else {
      assert mine' == mine;
    }
  }

  /** Those of `ids` that are pending for a session. */
  function Mine(pending: map<string, Action>, sid: string, ids: set<string>): set<string> {
    set id | id in ids && id in pending && pending[id].session == sid
  }
}
