/**
 The bus as a step machine.  Publishing, subscribing and unsubscribing interleave freely
 with the worker, which takes one event at a time and runs all its deliveries to the end
 before the next; the handler calls of different deliveries interleave in any order.
 */
module BusRuns {
  import opened Prelude
  import opened EventBus

  /** The delivery of the `event`-th dispatched event to subscription `id`. */
  datatype Delivery = Delivery(event: nat, id: string)

  /**
   `dispatched`, `targets` and `done` are the record of the run: the events taken from the
   queue, whom each was for, and the handler calls of every finished delivery.
   */
  datatype Bus = Bus(
    subs: map<string, Subscription>,
    published: seq<Event>, history: seq<Event>, queue: seq<Event>,
    dispatched: seq<Event>, targets: seq<set<string>>,
    running: map<string, seq<Outcome>>,
    done: map<Delivery, seq<Outcome>>,
    delivered: nat, deadLettered: nat, deadLog: seq<Delivery>, deadLetters: seq<Delivery>)

  datatype Action =
    | Publish(e: Event)
    | Subscribe(id: string, s: Subscription)
    | Unsubscribe(id: string)
    | Dispatch
    | Call(id: string, ended: Outcome)

  function Start(): Bus {
    Bus(map[], [], [], [], [], [], map[], map[], 0, 0, [], [])
  }

  /** The worker takes the next event only when all deliveries of the last one are over. */
  predicate Enabled(b: Bus, a: Action) {
    match a
    case Publish(_) => true
    case Subscribe(id, _) => id !in b.subs
    case Unsubscribe(_) => true
    case Dispatch => b.queue != [] && b.running == map[]
    case Call(id, _) => id in b.running && b.dispatched != []
  }

  function Step(m: Match, b: Bus, a: Action): Bus
    requires Enabled(b, a)
  {
    match a
    case Publish(e) =>
      b.(published := b.published + [e], history := Newest(b.history + [e], MAX_HISTORY), queue := b.queue + [e])
    case Subscribe(id, s) => b.(subs := b.subs[id := s])
    case Unsubscribe(id) => b.(subs := b.subs - {id})
    case Dispatch =>
      var e := b.queue[0];
      var ids := Matching(m, b.subs, e);
      b.(queue := b.queue[1..], dispatched := b.dispatched + [e], targets := b.targets + [ids],
         running := map id | id in ids :: [])
    case Call(id, ended) =>
      var calls := b.running[id] + [ended];
      if ended.Failure? && |calls| < MAX_RETRIES then b.(running := b.running[id := calls])
      else
        var d := Delivery(|b.dispatched| - 1, id);
        var b' := b.(running := b.running - {id}, done := b.done[d := calls]);
        match ended
        case Success => b'.(delivered := b.delivered + 1)
        case Lost => b'
        case Failure =>
          b'.(deadLettered := b.deadLettered + 1, deadLog := b.deadLog + [d],
              deadLetters := Newest(b.deadLetters + [d], MAX_DEAD_LETTERS))
  }

  /**
   What can happen when: publishing and cancelling always, subscribing under a new id, a
   dispatch when something is queued and nothing runs, a call of a running delivery.
   */
  lemma EnabledExact(b: Bus, e: Event, id: string, s: Subscription, ended: Outcome)
    ensures Enabled(b, Publish(e)) && Enabled(b, Unsubscribe(id))
    ensures Enabled(b, Subscribe(id, s)) <==> id !in b.subs
    ensures Enabled(b, Dispatch) <==> |b.queue| > 0 && |b.running| == 0
    ensures Queues(b) ==> (Enabled(b, Call(id, ended)) <==> id in b.running)
  {
    assert b.running == map[] <==> |b.running| == 0;
    hide Newest;
  }

  // ---- What every interleaving keeps ----

  /** The finished deliveries whose last call ended in a certain way. */
  function Ended(done: map<Delivery, seq<Outcome>>, last: Outcome): set<Delivery> {
    set d | d in done && EndsIn(done[d], last)
  }

  ghost predicate Due(b: Bus, d: Delivery) {
    d.event < |b.targets| && d.id in b.targets[d.event]
  }

  ghost predicate Running(b: Bus, d: Delivery) {
    d.event + 1 == |b.targets| && d.id in b.running
  }

  ghost predicate Queues(b: Bus) {
    && b.published == b.dispatched + b.queue
    && b.history == Newest(b.published, MAX_HISTORY)
    && |b.targets| == |b.dispatched|
    && (b.running != map[] ==> b.dispatched != [])
  }

  /** A due delivery is running or done, never both; nothing else is either. */
  ghost predicate Deliveries(b: Bus) {
    && (forall d :: Due(b, d) <==> (Running(b, d) || d in b.done))
    && (forall d :: !(Running(b, d) && d in b.done))
    && (forall id :: id in b.running ==>
         && |b.running[id]| < MAX_RETRIES
         && forall i :: 0 <= i < |b.running[id]| ==> b.running[id][i].Failure?)
    && (forall d :: d in b.done ==> Over(b.done[d]))
  }

  ghost predicate Counters(b: Bus) {
    && b.delivered == |Ended(b.done, Success)|
    && b.deadLettered == |Ended(b.done, Failure)| == |b.deadLog|
    && (forall d :: d in b.deadLog <==> d in Ended(b.done, Failure))
    && b.deadLetters == Newest(b.deadLog, MAX_DEAD_LETTERS)
  }

  lemma CallDeliveries(m: Match, b: Bus, id: string, ended: Outcome)
    requires Queues(b) && Deliveries(b) && Enabled(b, Call(id, ended))
    ensures Queues(Step(m, b, Call(id, ended))) && Deliveries(Step(m, b, Call(id, ended)))
    ensures Delivery(|b.dispatched| - 1, id) !in b.done
  {
    hide Newest;
    var b', d := Step(m, b, Call(id, ended)), Delivery(|b.dispatched| - 1, id);
    assert Running(b, d) && Due(b, d);
    forall x
      ensures Due(b', x) <==> (Running(b', x) || x in b'.done)
      ensures !(Running(b', x) && x in b'.done)
    {
      assert Due(b', x) == Due(b, x);
      if x != d {
        assert Running(b', x) == Running(b, x) && (x in b'.done) == (x in b.done);
      }
    }
  }

  lemma DispatchDeliveries(m: Match, b: Bus)
    requires Queues(b) && Deliveries(b) && Enabled(b, Dispatch)
    ensures Queues(Step(m, b, Dispatch)) && Deliveries(Step(m, b, Dispatch))
  {
    hide Newest, Matching;
    var b' := Step(m, b, Dispatch);
    forall x
      ensures Due(b', x) <==> (Running(b', x) || x in b'.done)
      ensures !(Running(b', x) && x in b'.done)
    {
      if x.event < |b.targets| {
        assert Due(b', x) == Due(b, x) && !Running(b, x);
      } else {
        assert !Due(b, x);
      }
    }
  }

  lemma DoneCounts(done: map<Delivery, seq<Outcome>>, d: Delivery, calls: seq<Outcome>, last: Outcome)
    requires d !in done
    ensures d !in Ended(done, last)
    ensures Ended(done[d := calls], last) == if EndsIn(calls, last) then Ended(done, last) + {d} else Ended(done, last)
  {
  }

  lemma StepKeeps(m: Match, b: Bus, a: Action)
    requires Enabled(b, a) && Queues(b) && Deliveries(b) && Counters(b)
    ensures var b' := Step(m, b, a); Queues(b') && Deliveries(b') && Counters(b')
  {
    hide Deliveries, Newest, Ended, Matching;
    match a
    case Publish(e) =>
      NewestSnoc(b.published, e, MAX_HISTORY);
      SameDeliveries(b, Step(m, b, a));
    case Dispatch => DispatchDeliveries(m, b);
    case Call(id, ended) =>
      CallDeliveries(m, b, id, ended);
      CallCounters(m, b, id, ended);
    case _ => SameDeliveries(b, Step(m, b, a));
  }

  lemma CallCounters(m: Match, b: Bus, id: string, ended: Outcome)
    requires Counters(b) && Enabled(b, Call(id, ended)) && Delivery(|b.dispatched| - 1, id) !in b.done
    ensures Counters(Step(m, b, Call(id, ended)))
  {
    hide Newest, Ended, EndsIn, Matching;
    var d, calls := Delivery(|b.dispatched| - 1, id), b.running[id] + [ended];
    if !ended.Failure? || |calls| >= MAX_RETRIES {
      VerdictCounts(b.done, b.deadLog, Step(m, b, Call(id, ended)).deadLog, d, calls, ended);
      NewestSnoc(b.deadLog, d, MAX_DEAD_LETTERS);
    }
  }

  lemma VerdictCounts(
    done: map<Delivery, seq<Outcome>>, deadLog: seq<Delivery>, newLog: seq<Delivery>,
    d: Delivery, calls: seq<Outcome>, ended: Outcome)
    requires newLog == if ended.Failure? then deadLog + [d] else deadLog
    requires d !in done && calls != [] && calls[|calls| - 1] == ended
    requires forall x :: x in deadLog <==> x in Ended(done, Failure)
    ensures |Ended(done[d := calls], Success)| == |Ended(done, Success)| + (if ended.Success? then 1 else 0)
    ensures |Ended(done[d := calls], Failure)| == |Ended(done, Failure)| + (if ended.Failure? then 1 else 0)
    ensures forall x :: x in newLog <==> x in Ended(done[d := calls], Failure)
  {
    hide Ended;
    DoneCounts(done, d, calls, Success);
    DoneCounts(done, d, calls, Failure);
  }

  lemma SameDeliveries(b: Bus, b': Bus)
    requires Deliveries(b) && b'.targets == b.targets && b'.running == b.running && b'.done == b.done
    ensures Deliveries(b')
  {
    assert forall d :: Due(b', d) == Due(b, d) && Running(b', d) == Running(b, d);
  }

  // ---- Runs ----

  ghost predicate Possible(m: Match, b: Bus, run: seq<Action>)
    decreases |run|
  {
    run == [] || (Enabled(b, run[0]) && Possible(m, Step(m, b, run[0]), run[1..]))
  }

  function After(m: Match, b: Bus, run: seq<Action>): Bus
    requires Possible(m, b, run)
    decreases |run|
  {
    if run == [] then b else After(m, Step(m, b, run[0]), run[1..])
  }

  lemma {:induction false} RunKeeps(m: Match, b: Bus, run: seq<Action>)
    requires Possible(m, b, run) && Queues(b) && Deliveries(b) && Counters(b)
    ensures var b' := After(m, b, run); Queues(b') && Deliveries(b') && Counters(b')
    decreases |run|
  {
    if run != [] {
      hide Queues, Deliveries, Counters;
      StepKeeps(m, b, run[0]);
      RunKeeps(m, Step(m, b, run[0]), run[1..]);
    }
  }

  /**
   In every run: what was published is what was dispatched plus what is queued, in order;
   the history is the newest published events; every due delivery is running or over, and
   over means at most three calls, all failed but perhaps the last; the finished ones are
   those counted as delivered, those dead-lettered, and those lost to a cancelled call.
   */
  lemma EveryDeliveryAccounted(m: Match, run: seq<Action>)
    requires Possible(m, Start(), run)
    ensures var b := After(m, Start(), run);
      && b.published == b.dispatched + b.queue && b.history == Newest(b.published, MAX_HISTORY)
      && (forall d :: Due(b, d) ==> Running(b, d) != (d in b.done))
      && (forall d :: d in b.done ==> Due(b, d) && Over(b.done[d]))
      && b.delivered == |Ended(b.done, Success)| && b.deadLettered == |Ended(b.done, Failure)|
      && |b.done| == b.delivered + b.deadLettered + |Ended(b.done, Lost)|
  {
    hide Over, Newest, Ended;
    var b := After(m, Start(), run);
    StartKeeps();
    RunKeeps(m, Start(), run);
    assert forall d :: d in b.done ==> b.done[d] != [] by { OverNotEmpty(); }
    DonePartition(b.done);
  }

  lemma OverNotEmpty()
    ensures forall calls :: Over(calls) ==> calls != []
  {
  }

  lemma DonePartition(done: map<Delivery, seq<Outcome>>)
    requires forall d :: d in done ==> done[d] != []
    ensures done.Keys == Ended(done, Success) + Ended(done, Failure) + Ended(done, Lost)
    ensures |done| == |Ended(done, Success)| + |Ended(done, Failure)| + |Ended(done, Lost)|
  {
    var a, b, c := Ended(done, Success), Ended(done, Failure), Ended(done, Lost);
    assert a !! b && (a + b) !! c;
    assert done.Keys == a + b + c by {
      forall d | d in done
        ensures d in a + b + c
      {
        var last := done[d][|done[d]| - 1];
        assert EndsIn(done[d], last) && (last == Success || last == Failure || last == Lost);
      }
    }
    assert |done.Keys| == |done|;
  }

  lemma StartKeeps()
    ensures Queues(Start()) && Deliveries(Start()) && Counters(Start())
  {
    assert forall last :: Ended(map[], last) == {};
  }

  /** Some handler call of the run was cancelled. */
  predicate Cancels(run: seq<Action>) {
    exists i :: 0 <= i < |run| && run[i].Call? && run[i].ended == Lost
  }

  lemma StepLoses(m: Match, b: Bus, a: Action)
    requires Enabled(b, a) && Queues(b) && Deliveries(b)
    ensures Ended(Step(m, b, a).done, Lost) == {} <==> Ended(b.done, Lost) == {} && !(a.Call? && a.ended == Lost)
  {
    hide Newest, Matching, Ended, EndsIn;
    if a.Call? {
      CallDeliveries(m, b, a.id, a.ended);
      var d, calls := Delivery(|b.dispatched| - 1, a.id), b.running[a.id] + [a.ended];
      DoneCounts(b.done, d, calls, Lost);
      assert EndsIn(calls, Lost) <==> a.ended == Lost by { LastOf(b.running[a.id], a.ended); }
    }
  }

  lemma LastOf(calls: seq<Outcome>, ended: Outcome)
    ensures forall last :: EndsIn(calls + [ended], last) <==> ended == last
  {
  }

  lemma {:induction false} LostIffCancelled(m: Match, b: Bus, run: seq<Action>)
    requires Possible(m, b, run) && Queues(b) && Deliveries(b) && Counters(b)
    ensures Ended(After(m, b, run).done, Lost) == {} <==> Ended(b.done, Lost) == {} && !Cancels(run)
    decreases |run|
  {
    hide Queues, Deliveries, Counters, Ended, Step;
    if run != [] {
      StepKeeps(m, b, run[0]);
      StepLoses(m, b, run[0]);
      LostIffCancelled(m, Step(m, b, run[0]), run[1..]);
      CancelsCons(run);
    }
  }

  lemma CancelsCons(run: seq<Action>)
    requires run != []
    ensures Cancels(run) <==> (run[0].Call? && run[0].ended == Lost) || Cancels(run[1..])
  {
    if Cancels(run) && !(run[0].Call? && run[0].ended == Lost) {
      var i :| 0 <= i < |run| && run[i].Call? && run[i].ended == Lost;
      assert run[1..][i - 1] == run[i];
    }
    if Cancels(run[1..]) {
      var i :| 0 <= i < |run[1..]| && run[1..][i].Call? && run[1..][i].ended == Lost;
      assert run[i + 1] == run[1..][i];
    }
  }

  /** The two counters account for every finished delivery exactly when no handler call was cancelled. */
  lemma CountedIffNothingCancelled(m: Match, run: seq<Action>)
    requires Possible(m, Start(), run)
    ensures var b := After(m, Start(), run);
      |b.done| == b.delivered + b.deadLettered <==> !Cancels(run)
  {
    hide Ended;
    EveryDeliveryAccounted(m, run);
    StartKeeps();
    assert Ended(Start().done, Lost) == {} by { NothingDone(); }
    LostIffCancelled(m, Start(), run);
  }

  lemma NothingDone()
    ensures forall last :: Ended(map[], last) == {}
  {
  }

  /**
   With the queue and all deliveries run dry, every published event was dispatched and all
   its deliveries are over; they all succeeded or were dead-lettered exactly when no
   handler call was cancelled.
   */
  lemma DrainedBus(m: Match, run: seq<Action>)
    requires Possible(m, Start(), run)
    requires var b := After(m, Start(), run); b.queue == [] && b.running == map[]
    ensures var b := After(m, Start(), run);
      && b.dispatched == b.published
      && (forall d :: Due(b, d) <==> d in b.done)
      && ((forall d :: Due(b, d) ==> d in Ended(b.done, Success) || d in Ended(b.done, Failure)) <==> !Cancels(run))
  {
    var b := After(m, Start(), run);
    StartKeeps();
    RunKeeps(m, Start(), run);
    assert b.dispatched + [] == b.dispatched;
    assert forall d :: !Running(b, d);
    NothingDone();
    LostIffCancelled(m, Start(), run);
    assert forall d :: d in b.done ==> b.done[d] != [] by { OverNotEmpty(); }
    DonePartition(b.done);
    assert forall d :: d in b.done ==> d in Ended(b.done, Success) + Ended(b.done, Failure) + Ended(b.done, Lost);
    hide Due, Running, Queues, Counters, Over;
    if Ended(b.done, Lost) != {} {
      var d :| d in Ended(b.done, Lost);
      assert Due(b, d) && d !in Ended(b.done, Success) && d !in Ended(b.done, Failure);
    }
  }

  lemma {:induction false} TargetsGrow(m: Match, b: Bus, run: seq<Action>)
    requires Possible(m, b, run)
    ensures b.targets <= After(m, b, run).targets && b.dispatched <= After(m, b, run).dispatched
    decreases |run|
  {
    if run != [] {
      TargetsGrow(m, Step(m, b, run[0]), run[1..]);
    }
  }

  /**
   Whom an event is for is settled when it is dispatched: by a direct scan of the
   subscriptions at that moment, whatever is subscribed or unsubscribed later.
   */
  lemma TargetsFixedAtDispatch(m: Match, b: Bus, run: seq<Action>)
    requires Queues(b) && Enabled(b, Dispatch) && Possible(m, Step(m, b, Dispatch), run)
    ensures var b' := After(m, Step(m, b, Dispatch), run);
      && |b.targets| < |b'.targets| && |b.dispatched| < |b'.dispatched|
      && b'.dispatched[|b.dispatched|] == b.queue[0]
      && (forall id :: Due(b', Delivery(|b.dispatched|, id)) <==> id in Matching(m, b.subs, b.queue[0]))
  {
    TargetsGrow(m, Step(m, b, Dispatch), run);
  }

  // ---- One delivery as handler calls ----

  /** How the calls of one subscriber end, in the order the run makes them. */
  function CallsOf(run: seq<Action>, id: string): seq<Outcome> {
    if run == [] then []
    else (if run[0].Call? && run[0].id == id then [run[0].ended] else []) + CallsOf(run[1..], id)
  }

  /**
   Until the next dispatch, whatever else the run does, a delivery's own calls decide it:
   it is over exactly when they are, and is then recorded with them.
   */
  lemma {:induction false} InterleavedDelivery(m: Match, b: Bus, run: seq<Action>, id: string)
    requires Possible(m, b, run) && Queues(b) && Deliveries(b) && Counters(b) && id in b.running
    requires forall a :: a in run ==> !a.Dispatch?
    ensures Decided(After(m, b, run), id, |b.dispatched| - 1, b.running[id] + CallsOf(run, id))
    decreases |run|
  {
    assert b.dispatched != [];
    hide Queues, Deliveries, Counters, Step, Enabled, Over, IsDone, CallsOf, Decided;
    if run == [] {
      NoCalls(run, id);
      assert b.running[id] + [] == b.running[id];
      RunningNotOver(b, id);
    } else {
      var b1, rest := Step(m, b, run[0]), run[1..];
      StepKeeps(m, b, run[0]);
      CallStep(m, b, run[0], id);
      FirstCall(run, id, b.running[id]);
      if id in b1.running {
        InterleavedDelivery(m, b1, rest, id);
      } else {
        NoMoreCalls(m, b1, rest, id);
        DoneStays(m, b1, rest, Delivery(|b.dispatched| - 1, id), b.running[id] + [run[0].ended]);
        DoneDecided(After(m, b, run), id, |b.dispatched| - 1, b.running[id] + CallsOf(run, id));
      }
    }
  }

  /** Nothing was dispatched since this event; its delivery is over with these calls, or still running after them. */
  predicate Decided(b: Bus, id: string, event: nat, calls: seq<Outcome>) {
    && |b.dispatched| == event + 1
    && if Over(calls) then id !in b.running && IsDone(b, Delivery(event, id), calls)
       else id in b.running && b.running[id] == calls
  }

  lemma DoneDecided(b: Bus, id: string, event: nat, calls: seq<Outcome>)
    requires |b.dispatched| == event + 1 && id !in b.running && IsDone(b, Delivery(event, id), calls) && Over(calls)
    ensures Decided(b, id, event, calls)
  {
  }

  lemma NoCalls(run: seq<Action>, id: string)
    requires run == []
    ensures CallsOf(run, id) == []
  {
  }

  lemma FirstCall(run: seq<Action>, id: string, before: seq<Outcome>)
    requires run != []
    ensures before + CallsOf(run, id) ==
      (if run[0].Call? && run[0].id == id then before + [run[0].ended] else before) + CallsOf(run[1..], id)
    ensures run[0].Call? && run[0].id == id && CallsOf(run[1..], id) == [] ==>
      before + CallsOf(run, id) == before + [run[0].ended]
  {
  }

  lemma RunningNotOver(b: Bus, id: string)
    requires Deliveries(b) && id in b.running && b.dispatched != []
    ensures !Over(b.running[id]) && Decided(b, id, |b.dispatched| - 1, b.running[id])
  {
  }

  lemma CallStep(m: Match, b: Bus, a: Action, id: string)
    requires Enabled(b, a) && Deliveries(b) && id in b.running && !a.Dispatch?
    ensures var b1 := Step(m, b, a);
      && |b1.dispatched| == |b.dispatched|
      && if a.Call? && a.id == id then
           var calls := b.running[id] + [a.ended];
           if Over(calls) then id !in b1.running && IsDone(b1, Delivery(|b.dispatched| - 1, id), calls)
           else id in b1.running && b1.running[id] == calls
         else id in b1.running && b1.running[id] == b.running[id]
  {
    hide Newest, Matching;
    assert forall i :: 0 <= i < |b.running[id]| ==> b.running[id][i].Failure?;
    hide Deliveries;
  }

  /** The delivery is over, with these calls. */
  predicate IsDone(b: Bus, d: Delivery, calls: seq<Outcome>) {
    d in b.done && b.done[d] == calls
  }

  lemma {:induction false} NoMoreCalls(m: Match, b: Bus, run: seq<Action>, id: string)
    requires Possible(m, b, run) && id !in b.running && forall a :: a in run ==> !a.Dispatch?
    ensures CallsOf(run, id) == [] && id !in After(m, b, run).running
    ensures |After(m, b, run).dispatched| == |b.dispatched|
    decreases |run|
  {
    hide Newest, Matching;
    if run != [] { NoMoreCalls(m, Step(m, b, run[0]), run[1..], id); }
  }

  /** What a finished delivery was is never changed, in any run. */
  lemma {:induction false} DoneStays(m: Match, b: Bus, run: seq<Action>, d: Delivery, calls: seq<Outcome>)
    requires Possible(m, b, run) && Queues(b) && Deliveries(b) && Counters(b) && IsDone(b, d, calls)
    ensures IsDone(After(m, b, run), d, calls)
    decreases |run|
  {
    hide Newest, Matching, Queues, Counters;
    if run != [] {
      var b1 := Step(m, b, run[0]);
      StepKeeps(m, b, run[0]);
      if run[0].Call? { CallDeliveries(m, b, run[0].id, run[0].ended); }
      hide Deliveries;
      DoneStays(m, b1, run[1..], d, calls);
    }
  }

  /**
   In particular, a delivery just begun whose calls come out as `outcome` says, in any
   interleaving, is over with the calls that `DeliverEvent` makes.
   */
  lemma DeliveryIsItsCalls(m: Match, b: Bus, run: seq<Action>, id: string, outcome: nat -> Outcome)
    requires Possible(m, b, run) && Queues(b) && Deliveries(b) && Counters(b)
    requires id in b.running && b.running[id] == []
    requires forall a :: a in run ==> !a.Dispatch?
    requires CallsOf(run, id) == Calls(outcome, 0)
    ensures IsDone(After(m, b, run), Delivery(|b.dispatched| - 1, id), Calls(outcome, 0))
  {
    hide Queues, Deliveries, Counters;
    InterleavedDelivery(m, b, run, id);
    OverIffCalls(Calls(outcome, 0));
    assert [] + Calls(outcome, 0) == Calls(outcome, 0);
  }

  /** One call of one delivery: the counters move as the last call says, and not before. */
  lemma CallEffect(m: Match, b: Bus, id: string, ended: Outcome)
    requires Enabled(b, Call(id, ended)) && |b.running[id]| < MAX_RETRIES
    requires forall i :: 0 <= i < |b.running[id]| ==> b.running[id][i].Failure?
    ensures var b', calls := Step(m, b, Call(id, ended)), b.running[id] + [ended];
      && b'.delivered == b.delivered + (if Over(calls) && EndsIn(calls, Success) then 1 else 0)
      && b'.deadLettered == b.deadLettered + (if Over(calls) && EndsIn(calls, Failure) then 1 else 0)
      && b'.deadLetters == if Over(calls) && EndsIn(calls, Failure)
                           then Newest(b.deadLetters + [Delivery(|b.dispatched| - 1, id)], MAX_DEAD_LETTERS)
                           else b.deadLetters
  {
    hide Newest, Matching;
  }

  // ---- Who is subscribed ----

  /** What the last of the run's subscriptions and cancellations of an id leaves. */
  function LastSubscription(run: seq<Action>, id: string, before: Option<Subscription>): Option<Subscription>
    decreases |run|
  {
    if run == [] then before
    else
      var now := match run[0]
        case Subscribe(x, s) => if x == id then Some(s) else before
        case Unsubscribe(x) => if x == id then None else before
        case _ => before;
      LastSubscription(run[1..], id, now)
  }

  lemma {:induction false} SubscriptionsExact(m: Match, b: Bus, run: seq<Action>, id: string)
    requires Possible(m, b, run)
    ensures (if id in After(m, b, run).subs then Some(After(m, b, run).subs[id]) else None)
      == LastSubscription(run, id, if id in b.subs then Some(b.subs[id]) else None)
    decreases |run|
  {
    hide Newest, Matching;
    if run != [] { SubscriptionsExact(m, Step(m, b, run[0]), run[1..], id); }
  }
}
