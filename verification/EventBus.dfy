/**
 The kernel event bus object: subscriptions with their index by topic pattern, the
 published-event bookkeeping, and one delivery with its retries.

 Topic matching is any given predicate of topic and pattern.
 */
module EventBus {
  import opened Prelude

  const MAX_HISTORY := 10000
  const MAX_DEAD_LETTERS := 1000
  const MAX_RETRIES := 3

  datatype Lane = Ai | User | Data | Cross | System
  datatype Priority = Critical | High | Normal | Low

  datatype Event = Event(id: string, topic: string, source: string, lane: Lane, priority: Priority)

  /** `callable` says that the subscription is active and has a handler. */
  datatype Subscription = Subscription(pattern: string, lane: Option<Lane>, priority: Option<Priority>, callable: bool)

  type Match = (string, string) -> bool

  predicate Accepts(s: Subscription, e: Event) {
    && s.callable
    && (s.lane.Some? ==> e.lane == s.lane.value)
    && (s.priority.Some? ==> e.priority == s.priority.value)
  }

  /** A direct scan: the subscriptions an event is for. */
  function Matching(m: Match, subs: map<string, Subscription>, e: Event): set<string> {
    set id | id in subs && m(e.topic, subs[id].pattern) && Accepts(subs[id], e)
  }

  /**
   A subscription gets an event exactly when its pattern matches, it can be called, and
   lane and priority are not other ones.
   */
  lemma MatchingExact(m: Match, subs: map<string, Subscription>, e: Event, id: string)
    ensures id in Matching(m, subs, e) <==>
      && id in subs && m(e.topic, subs[id].pattern) && subs[id].callable
      && (subs[id].lane == None || subs[id].lane == Some(e.lane))
      && (subs[id].priority == None || subs[id].priority == Some(e.priority))
  {
  }

  // ---- The index by pattern ----

  type Index = map<string, set<string>>

  function Patterns(subs: map<string, Subscription>): set<string> {
    set id | id in subs :: subs[id].pattern
  }

  function Members(subs: map<string, Subscription>, pattern: string): set<string> {
    set id | id in subs && subs[id].pattern == pattern
  }

  /** The subscriptions grouped by pattern; every group has a member. */
  function Grouped(subs: map<string, Subscription>): Index {
    map p | p in Patterns(subs) :: Members(subs, p)
  }

  lemma GroupedAt(subs: map<string, Subscription>, p: string)
    ensures p in Grouped(subs) <==> Members(subs, p) != {}
  {
    if p in Grouped(subs) {
      var id :| id in subs && subs[id].pattern == p;
      assert id in Members(subs, p);
    }
    if Members(subs, p) != {} {
      var id :| id in Members(subs, p);
      assert subs[id].pattern in Patterns(subs);
    }
  }

  lemma GroupedAdd(subs: map<string, Subscription>, id: string, s: Subscription)
    requires id !in subs
    ensures Grouped(subs[id := s])
         == Grouped(subs)[s.pattern := (if s.pattern in Grouped(subs) then Grouped(subs)[s.pattern] else {}) + {id}]
  {
    var subs' := subs[id := s];
    forall p
      ensures p in Grouped(subs') <==> p == s.pattern || p in Grouped(subs)
      ensures Members(subs', p) == if p == s.pattern then Members(subs, p) + {id} else Members(subs, p)
    {
      GroupedAt(subs, p);
      GroupedAt(subs', p);
      assert Members(subs', p) == if p == s.pattern then Members(subs, p) + {id} else Members(subs, p);
    }
    GroupedAt(subs, s.pattern);
  }

  lemma GroupedRemove(subs: map<string, Subscription>, id: string)
    requires id in subs
    ensures subs[id].pattern in Grouped(subs)
    ensures var g, p := Grouped(subs), subs[id].pattern;
      Grouped(subs - {id}) == if g[p] - {id} == {} then g - {p} else g[p := g[p] - {id}]
  {
    var subs', q := subs - {id}, subs[id].pattern;
    assert id in Members(subs, q);
    GroupedAt(subs, q);
    forall p
      ensures p in Grouped(subs') <==> p in Grouped(subs) && (p == q ==> Members(subs, q) - {id} != {})
      ensures Members(subs', p) == if p == q then Members(subs, p) - {id} else Members(subs, p)
    {
      GroupedAt(subs, p);
      GroupedAt(subs', p);
      assert Members(subs', p) == if p == q then Members(subs, p) - {id} else Members(subs, p);
    }
  }

  lemma SizeAdd(subs: map<string, Subscription>, id: string, s: Subscription)
    requires id !in subs
    ensures |subs[id := s]| == |subs| + 1
  {
  }

  lemma SizeRemove(subs: map<string, Subscription>, id: string)
    requires id in subs
    ensures |subs - {id}| == |subs| - 1
  {
    SizeAdd(subs - {id}, id, subs[id]);
    assert (subs - {id})[id := subs[id]] == subs;
  }

  // ---- Published events ----

  type Field<K> = Event -> K

  function Count<K(==)>(log: seq<Event>, f: Field<K>, k: K): nat {
    if log == [] then 0 else Count(log[..|log| - 1], f, k) + (if f(log[|log| - 1]) == k then 1 else 0)
  }

  /** `m` counts the logged events by the value of `f`. */
  ghost predicate Tallies<K(!new)>(m: map<K, nat>, log: seq<Event>, f: Field<K>) {
    forall k :: (if k in m then m[k] else 0) == Count(log, f, k)
  }

  function Bump<K>(m: map<K, nat>, k: K): map<K, nat> {
    m[k := (if k in m then m[k] else 0) + 1]
  }

  lemma TalliesSnoc<K(!new)>(m: map<K, nat>, log: seq<Event>, f: Field<K>, e: Event)
    requires Tallies(m, log, f)
    ensures Tallies(Bump(m, f(e)), log + [e], f)
  {
    assert (log + [e])[..|log|] == log;
    forall k
      ensures (if k in Bump(m, f(e)) then Bump(m, f(e))[k] else 0) == Count(log + [e], f, k)
    {
      assert (if k in m then m[k] else 0) == Count(log, f, k);
    }
  }

  // ---- One delivery ----

  /** How a handler call ends; `Lost` is a cancellation, which is no `Exception` and passes through the retries. */
  datatype Outcome = Success | Failure | Lost

  /** The handler calls of one delivery, given what each call would do. */
  function Calls(outcome: nat -> Outcome, from: nat): seq<Outcome>
    requires from < MAX_RETRIES
    decreases MAX_RETRIES - from
  {
    if !outcome(from).Failure? || from + 1 == MAX_RETRIES then [outcome(from)]
    else [outcome(from)] + Calls(outcome, from + 1)
  }

  lemma CallsNext(outcome: nat -> Outcome, attempt: nat, before: seq<Outcome>)
    requires attempt < MAX_RETRIES
    ensures before + Calls(outcome, attempt)
      == if !outcome(attempt).Failure? || attempt + 1 == MAX_RETRIES then before + [outcome(attempt)]
         else before + [outcome(attempt)] + Calls(outcome, attempt + 1)
  {
  }

  /** A delivery is over when a call does not fail, or after the last allowed failure. */
  predicate Over(calls: seq<Outcome>) {
    && 1 <= |calls| <= MAX_RETRIES
    && (forall i :: 0 <= i < |calls| - 1 ==> calls[i].Failure?)
    && (!calls[|calls| - 1].Failure? || |calls| == MAX_RETRIES)
  }

  predicate EndsIn(calls: seq<Outcome>, last: Outcome) {
    calls != [] && calls[|calls| - 1] == last
  }

  lemma {:induction false} CallsAreOver(outcome: nat -> Outcome, from: nat)
    requires from < MAX_RETRIES
    ensures var cs := Calls(outcome, from);
      && 1 <= |cs| <= MAX_RETRIES - from
      && (forall i :: 0 <= i < |cs| ==> cs[i] == outcome(from + i))
      && (forall i :: 0 <= i < |cs| - 1 ==> cs[i].Failure?)
      && (!cs[|cs| - 1].Failure? || |cs| == MAX_RETRIES - from)
    decreases MAX_RETRIES - from
  {
    if outcome(from).Failure? && from + 1 < MAX_RETRIES {
      CallsAreOver(outcome, from + 1);
      var cs, rest := Calls(outcome, from), Calls(outcome, from + 1);
      assert forall i :: 1 <= i < |cs| ==> cs[i] == rest[i - 1] && rest[i - 1] == outcome(from + 1 + (i - 1));
    }
  }

  /**
   The call sequences of deliveries are exactly those that stop at the first call that does
   not fail, or after the last retry.
   */
  lemma OverIffCalls(calls: seq<Outcome>)
    ensures Over(calls) <==> exists outcome: nat -> Outcome :: Calls(outcome, 0) == calls
  {
    forall outcome: nat -> Outcome | Calls(outcome, 0) == calls
      ensures Over(calls)
    {
      CallsAreOver(outcome, 0);
    }
    if Over(calls) {
      var outcome := (i: nat) => if i < |calls| then calls[i] else Failure;
      CallsAreOver(outcome, 0);
      var cs := Calls(outcome, 0);
      if |cs| <= |calls| { OverSame(cs, calls); } else { OverSame(calls, cs); }
    }
  }

  lemma OverSame(a: seq<Outcome>, b: seq<Outcome>)
    requires Over(a) && Over(b) && |a| <= |b| && forall i :: 0 <= i < |a| ==> a[i] == b[i]
    ensures a == b
  {
    assert a[|a| - 1] == b[|a| - 1];
  }

  // ---- The object ----

  class KernelEventBus {
    const matches: Match
    var subscriptions: map<string, Subscription>
    var topicIndex: Index
    var subscriptionsActive: nat
    var subscriptionsTotal: nat
    var eventHistory: seq<Event>
    var queue: seq<Event>
    var eventsPublished: nat
    var byTopic: map<string, nat>
    var byLane: map<Lane, nat>
    var bySource: map<string, nat>
    var eventsDelivered: nat
    var eventsFailed: nat
    var eventsDeadLettered: nat
    var deadLetters: seq<(Event, string)>
    ghost var published: seq<Event>

    /** The index is exactly the grouping of the subscriptions. */
    ghost predicate IndexValid()
      reads this`subscriptions, this`topicIndex, this`subscriptionsActive
    {
      topicIndex == Grouped(subscriptions) && subscriptionsActive == |subscriptions|
    }

    /** The history and the tallies are those of the published events. */
    ghost predicate LogValid()
      reads this`eventHistory, this`eventsPublished, this`byTopic, this`byLane, this`bySource, this`published
    {
      && eventHistory == Newest(published, MAX_HISTORY)
      && eventsPublished == |published|
      && Tallies(byTopic, published, (e: Event) => e.topic)
      && Tallies(byLane, published, (e: Event) => e.lane)
      && Tallies(bySource, published, (e: Event) => e.source)
    }

    ghost predicate DeliveryValid()
      reads this`eventsFailed, this`eventsDeadLettered, this`deadLetters
    {
      |deadLetters| <= MAX_DEAD_LETTERS && eventsFailed == eventsDeadLettered
    }

    ghost predicate Valid()
      reads this
    {
      IndexValid() && LogValid() && DeliveryValid()
    }

    constructor (matches: Match)
      ensures Valid() && this.matches == matches && published == [] && subscriptions == map[] && queue == []
    {
      this.matches := matches;
      subscriptions, topicIndex, subscriptionsActive, subscriptionsTotal := map[], map[], 0, 0;
      eventHistory, queue, eventsPublished, byTopic, byLane, bySource := [], [], 0, map[], map[], map[];
      eventsDelivered, eventsFailed, eventsDeadLettered, deadLetters := 0, 0, 0, [];
      published := [];
    }

    method Subscribe(id: string, s: Subscription)
      requires Valid() && id !in subscriptions
      modifies this`subscriptions, this`topicIndex, this`subscriptionsActive, this`subscriptionsTotal
      ensures Valid()
      ensures subscriptions == old(subscriptions)[id := s] && subscriptionsTotal == old(subscriptionsTotal) + 1
    {
      hide LogValid, DeliveryValid, Grouped, Members, Patterns;
      GroupedAdd(subscriptions, id, s);
      SizeAdd(subscriptions, id, s);
      var group := if s.pattern in topicIndex then topicIndex[s.pattern] else {};
      subscriptions := subscriptions[id := s];
      topicIndex := topicIndex[s.pattern := group + {id}];
      subscriptionsActive := subscriptionsActive + 1;
      subscriptionsTotal := subscriptionsTotal + 1;
    }

    method Unsubscribe(id: string) returns (found: bool)
      requires Valid()
      modifies this`subscriptions, this`topicIndex, this`subscriptionsActive
      ensures Valid()
      ensures found == (id in old(subscriptions)) && subscriptions == old(subscriptions) - {id}
    {
      hide LogValid, DeliveryValid, Grouped, Members, Patterns;
      if id !in subscriptions {
        return false;
      }
      GroupedRemove(subscriptions, id);
      SizeRemove(subscriptions, id);
      var pattern := subscriptions[id].pattern;
      subscriptions := subscriptions - {id};
      DropFromGroup(pattern, id);
      subscriptionsActive := subscriptionsActive - 1;
      found := true;
    }

    /** Takes a subscription out of its group, and the group away when it was the last. */
    method DropFromGroup(pattern: string, id: string)
      requires pattern in topicIndex
      modifies this`topicIndex
      ensures topicIndex == if old(topicIndex)[pattern] - {id} == {} then old(topicIndex) - {pattern}
                            else old(topicIndex)[pattern := old(topicIndex)[pattern] - {id}]
    {
      topicIndex := topicIndex[pattern := topicIndex[pattern] - {id}];
      if topicIndex[pattern] == {} {
        topicIndex := topicIndex - {pattern};
      }
    }

    /** Walks the index pattern by pattern; each qualifying subscription comes up exactly once. */
    method FindMatching(e: Event) returns (found: seq<string>)
      requires Valid()
      ensures forall id :: id in found <==> id in Matching(matches, subscriptions, e)
      ensures forall i, j :: 0 <= i < j < |found| ==> found[i] != found[j]
    {
      found := [];
      var patterns := topicIndex.Keys;
      while patterns != {}
        invariant patterns <= topicIndex.Keys
        invariant forall id :: id in found <==>
          id in Matching(matches, subscriptions, e) && subscriptions[id].pattern !in patterns
        invariant forall i, j :: 0 <= i < j < |found| ==> found[i] != found[j]
        decreases patterns
      {
        var p :| p in patterns;
        ghost var seen := found;
        if matches(e.topic, p) {
          var ids := topicIndex[p];
          while ids != {}
            invariant ids <= topicIndex[p]
            invariant forall id :: id in found <==>
              id in seen || (id in topicIndex[p] && id !in ids && Accepts(subscriptions[id], e))
            invariant forall i, j :: 0 <= i < j < |found| ==> found[i] != found[j]
            decreases ids
          {
            var id :| id in ids;
            ids := ids - {id};
            if Accepts(subscriptions[id], e) {
              found := found + [id];
            }
          }
        }
        patterns := patterns - {p};
      }
    }

    method Publish(e: Event)
      requires Valid()
      modifies this`eventHistory, this`queue, this`eventsPublished, this`byTopic, this`byLane, this`bySource,
        this`published
      ensures Valid()
      ensures published == old(published) + [e] && queue == old(queue) + [e]
    {
      hide Tallies, Newest, Bump, Count, IndexValid, DeliveryValid;
      NewestSnoc(published, e, MAX_HISTORY);
      TalliesSnoc(byTopic, published, (x: Event) => x.topic, e);
      TalliesSnoc(byLane, published, (x: Event) => x.lane, e);
      TalliesSnoc(bySource, published, (x: Event) => x.source, e);
      Remember(e);
      eventsPublished := eventsPublished + 1;
      byTopic := Bump(byTopic, e.topic);
      byLane := Bump(byLane, e.lane);
      bySource := Bump(bySource, e.source);
      queue := queue + [e];
      published := published + [e];
    }

    /** Adds to the history, trimmed to the newest events. */
    method Remember(e: Event)
      modifies this`eventHistory
      ensures eventHistory == Newest(old(eventHistory) + [e], MAX_HISTORY)
    {
      eventHistory := eventHistory + [e];
      if |eventHistory| > MAX_HISTORY {
        eventHistory := eventHistory[|eventHistory| - MAX_HISTORY..];
      }
    }

    /**
     Delivers one event to one subscriber; `outcome` says how its successive handler calls
     end.  A cancelled call ends the delivery without any count.
     */
    method DeliverEvent(e: Event, id: string, outcome: nat -> Outcome) returns (ghost calls: seq<Outcome>)
      requires Valid()
      modifies this`eventsDelivered, this`eventsFailed, this`eventsDeadLettered, this`deadLetters
      ensures Valid()
      ensures calls == Calls(outcome, 0)
      ensures eventsDelivered == old(eventsDelivered) + (if EndsIn(calls, Success) then 1 else 0)
      ensures eventsDeadLettered == old(eventsDeadLettered) + (if EndsIn(calls, Failure) then 1 else 0)
      ensures deadLetters ==
        if EndsIn(calls, Failure) then Newest(old(deadLetters) + [(e, id)], MAX_DEAD_LETTERS) else old(deadLetters)
    {
      hide LogValid, IndexValid, DeliveryValid, Newest, Calls;
      calls := [];
      for attempt := 0 to MAX_RETRIES
        invariant |calls| == attempt && (forall i :: 0 <= i < attempt ==> calls[i].Failure?)
        invariant Calls(outcome, 0) == if attempt == MAX_RETRIES then calls else calls + Calls(outcome, attempt)
        invariant Valid() && eventsDelivered == old(eventsDelivered)
        invariant eventsDeadLettered == old(eventsDeadLettered) && deadLetters == old(deadLetters)
      {
        var ended := outcome(attempt);
        CallsNext(outcome, attempt, calls);
        calls := calls + [ended];
        if ended == Success {
          eventsDelivered := eventsDelivered + 1;
          return;
        }
        if ended == Lost {
          return;
        }
      }
      DeadLetter(e, id);
    }

    method DeadLetter(e: Event, id: string)
      requires Valid()
      modifies this`eventsFailed, this`eventsDeadLettered, this`deadLetters
      ensures Valid() && eventsDeadLettered == old(eventsDeadLettered) + 1
      ensures deadLetters == Newest(old(deadLetters) + [(e, id)], MAX_DEAD_LETTERS)
    {
      hide LogValid, IndexValid;
      eventsFailed := eventsFailed + 1;
      eventsDeadLettered := eventsDeadLettered + 1;
      deadLetters := deadLetters + [(e, id)];
      if |deadLetters| > MAX_DEAD_LETTERS {
        deadLetters := deadLetters[|deadLetters| - MAX_DEAD_LETTERS..];
      }
    }
  }
}
