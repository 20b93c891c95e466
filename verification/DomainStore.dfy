/**
 A dictionary in memory, written back to documents.  Changed keys are dirty until a pass
 has written them; any database call of a pass may fail, the keys of a pass share one
 session, and while a call is awaited other code may use the dictionary.
 */
module DomainStore {
  import opened Prelude
  import opened DocumentCrud

  /** What may be stored under a key: fields, or something that is not a dictionary. */
  datatype Value = Fields(fields: Content) | NotADict

  datatype Store = Store(memory: map<string, Value>, dirty: set<string>, db: Db)

  // ---- The dictionary ----

  datatype DictOp =
    | SetItem(key: string, value: Value)
    | DelItem(key: string)
    | Pop(key: string, hasDefault: bool)
    | UpdateAll(items: seq<(string, Value)>)
    | SetDefault(key: string, value: Value)

  function Put(s: Store, key: string, value: Value): Store {
    s.(memory := s.memory[key := value], dirty := s.dirty + {key})
  }

  function PutAll(s: Store, items: seq<(string, Value)>): Store
    decreases |items|
  {
    if items == [] then s
    else Put(PutAll(s, items[..|items| - 1]), items[|items| - 1].0, items[|items| - 1].1)
  }

  function Edited(s: Store, op: DictOp): Store {
    match op
    case SetItem(k, v) => Put(s, k, v)
    case DelItem(k) => if k in s.memory then s.(memory := s.memory - {k}, dirty := s.dirty + {k}) else s
    case Pop(k, hasDefault) =>
      if k in s.memory || hasDefault then s.(memory := s.memory - {k}, dirty := s.dirty + {k}) else s
    case UpdateAll(items) => PutAll(s, items)
    case SetDefault(k, v) => if k in s.memory then s else Put(s, k, v)
  }

  function EditedAll(s: Store, ops: seq<DictOp>): Store
    decreases |ops|
  {
    if ops == [] then s else Edited(EditedAll(s, ops[..|ops| - 1]), ops[|ops| - 1])
  }

  predicate Touches(op: DictOp, k: string) {
    match op
    case UpdateAll(items) => exists i :: 0 <= i < |items| && items[i].0 == k
    case _ => op.key == k
  }

  function At<T>(m: map<string, T>, k: string): Option<T> {
    if k in m then Some(m[k]) else None
  }

  /** What each operation leaves under a key, as a dictionary does, and when it marks it. */
  lemma EditedExact(s: Store, op: DictOp, k: string)
    requires !op.UpdateAll?
    ensures var s' := Edited(s, op);
      && (k != op.key ==> At(s'.memory, k) == At(s.memory, k) && (k in s'.dirty <==> k in s.dirty))
      && (k == op.key && op.SetItem? ==> At(s'.memory, k) == Some(op.value) && k in s'.dirty)
      && (k == op.key && op.DelItem? ==> k !in s'.memory && (k in s'.dirty <==> k in s.dirty || k in s.memory))
      && (k == op.key && op.Pop? ==>
           k !in s'.memory && (k in s'.dirty <==> k in s.dirty || k in s.memory || op.hasDefault))
      && (k == op.key && op.SetDefault? ==>
           && At(s'.memory, k) == (if k in s.memory then Some(s.memory[k]) else Some(op.value))
           && (k in s'.dirty <==> k in s.dirty || k !in s.memory))
  {
  }

  /** An update stores the last of its items for each key. */
  lemma {:induction false} UpdateExact(s: Store, items: seq<(string, Value)>, k: string)
    ensures var s' := Edited(s, UpdateAll(items));
      if forall i :: 0 <= i < |items| ==> items[i].0 != k then
        At(s'.memory, k) == At(s.memory, k) && (k in s'.dirty <==> k in s.dirty)
      else
        k in s'.dirty && exists i :: LastFor(items, k, i) && At(s'.memory, k) == Some(items[i].1)
    decreases |items|
  {
    if items != [] {
      var init, last := items[..|items| - 1], items[|items| - 1];
      UpdateExact(s, init, k);
      assert PutAll(s, items) == Put(PutAll(s, init), last.0, last.1);
      hide PutAll;
      if last.0 == k {
        assert LastFor(items, k, |items| - 1);
      } else if exists i :: LastFor(init, k, i) && At(PutAll(s, init).memory, k) == Some(init[i].1) {
        var i :| LastFor(init, k, i) && At(PutAll(s, init).memory, k) == Some(init[i].1);
        assert LastFor(items, k, i);
      }
    }
  }

  /** The `i`-th item is the last one for the key. */
  ghost predicate LastFor(items: seq<(string, Value)>, k: string, i: int) {
    0 <= i < |items| && items[i].0 == k && forall j :: i < j < |items| ==> items[j].0 != k
  }

  // ---- A pass ----

  /** The faults met while one key is written back: in the lookup, and in the write. */
  datatype Faults = Faults(read: Fault, write: Fault)

  const NO_FAULTS := Faults(NoFault, NoFault)

  /** What other code does to the dictionary while a key's lookup, and while its write, is awaited. */
  datatype Others = Others(lookup: seq<DictOp>, write: seq<DictOp>)

  /** What each key of a pass meets. */
  datatype Circumstances = Circumstances(faults: string -> Faults, others: string -> Others)

  const UNDISTURBED := Circumstances(k => NO_FAULTS, k => Others([], []))

  /** Nobody else uses the dictionary during the pass. */
  ghost predicate Alone(c: Circumstances) {
    forall k :: c.others(k) == Others([], [])
  }

  /** Writes back one key: update a live row, else create one; delete the row of a deleted key. */
  function Turned(db: Db, value: Option<Value>, k: string, f: Faults): (Db, bool) {
    match value
    case None => var (db', r) := AfterDelete(db, k, f.write); (db', r.Returned?)
    case Some(v) =>
      var existing := Got(db, k, f.read);
      if existing.Raised? || v.NotADict? then (db, false)
      else if existing.value.Some? then var (db', r) := AfterUpdate(db, k, v.fields, f.write); (db', r.Returned?)
      else var (db', r) := AfterCreate(db, k, v.fields, f.write); (db', r.Returned?)
  }

  /** The store when the lookup of a key has returned; a key not in memory is not looked up. */
  function Looked(s: Store, c: Circumstances, k: string): Store {
    if k in s.memory then EditedAll(s, c.others(k).lookup) else s
  }

  /**
   The value a turn writes: read after the lookup, and `None` for a key that was not in
   memory before it.  A key that vanished meanwhile raises, as a value that is no
   dictionary does.
   */
  function Captured(s: Store, c: Circumstances, k: string): Option<Value> {
    if k !in s.memory then None
    else if k in Looked(s, c, k).memory then Some(Looked(s, c, k).memory[k])
    else Some(NotADict)
  }

  /** Whether the turn gets as far as a write. */
  predicate Calls(s: Store, c: Circumstances, k: string) {
    k !in s.memory || (Got(s.db, k, c.faults(k).read).Returned? && k in Looked(s, c, k).memory)
  }

  /** The store when the write of a key has returned or raised, and whether it succeeded. */
  function Wrote(s: Store, c: Circumstances, k: string): (Store, bool) {
    var (db, done) := Turned(s.db, Captured(s, c, k), k, c.faults(k));
    var s1 := Looked(s, c, k).(db := db);
    (if Calls(s, c, k) then EditedAll(s1, c.others(k).write) else s1, done)
  }

  /** One turn: a key whose write succeeded is no longer dirty, whatever happened to it meanwhile. */
  function SyncOne(s: Store, c: Circumstances, k: string): Store {
    var (s1, done) := Wrote(s, c, k);
    s1.(dirty := if done then s1.dirty - {k} else s1.dirty)
  }

  function Passed(s: Store, c: Circumstances, order: seq<string>): Store
    decreases |order|
  {
    if order == [] then s else SyncOne(Passed(s, c, order[..|order| - 1]), c, order[|order| - 1])
  }

  /** How many turns of a pass succeed. */
  function Successes(s: Store, c: Circumstances, order: seq<string>): nat
    decreases |order|
  {
    if order == [] then 0
    else
      var init := order[..|order| - 1];
      Successes(s, c, init) + (if Wrote(Passed(s, c, init), c, order[|order| - 1]).1 then 1 else 0)
  }

  /** A pass takes the keys that are dirty when it starts, in any order. */
  datatype Op =
    | Dict(op: DictOp)
    | Sync(order: seq<string>, circumstances: Circumstances)
    | EndSession(commits: bool)

  function Step(s: Store, op: Op): Store {
    match op
    case Dict(d) => Edited(s, d)
    case Sync(order, c) => Passed(s, c, order)
    case EndSession(commits) => s.(db := Ended(s.db, commits))
  }

  /** Each of the keys once. */
  ghost predicate Lists(order: seq<string>, keys: set<string>) {
    (forall k :: k in order <==> k in keys) && Distinct(order)
  }

  ghost predicate Distinct(order: seq<string>) {
    forall i, j :: 0 <= i < j < |order| ==> order[i] != order[j]
  }

  ghost predicate Proper(s: Store, op: Op) {
    op.Sync? ==> Lists(op.order, s.dirty)
  }

  function After(s: Store, ops: seq<Op>): Store
    decreases |ops|
  {
    if ops == [] then s else Step(After(s, ops[..|ops| - 1]), ops[|ops| - 1])
  }

  ghost predicate Possible(s: Store, ops: seq<Op>)
    decreases |ops|
  {
    ops == [] || (Possible(s, ops[..|ops| - 1]) && Proper(After(s, ops[..|ops| - 1]), ops[|ops| - 1]))
  }

  function Start(): Store {
    Store(map[], {}, Db(map[], map[], true))
  }

  // ---- Agreement of clean keys ----

  /** A live row carrying every field of the value. */
  ghost predicate Carries(d: Doc, v: Value) {
    v.Fields? && !d.deleted && forall f :: f in v.fields ==> f in d.content && Same(d.content[f], v.fields[f])
  }

  ghost predicate CleanAgrees(s: Store, k: string) {
    if k in s.memory then k in s.db.docs && Carries(s.db.docs[k], s.memory[k])
    else !LiveIn(s.db.docs, k)
  }

  ghost predicate Agreement(s: Store) {
    forall k :: k !in s.dirty ==> CleanAgrees(s, k)
  }

  /** Only live rows of dirty keys have unwritten changes, and those do not delete them. */
  ghost predicate PendingOk(s: Store) {
    && (forall k :: k in s.db.pending ==> k in s.dirty && LiveIn(s.db.docs, k) && !s.db.pending[k].deleted)
    && (!s.db.usable ==> s.db.pending == map[])
  }

  /** What the turn of a key does in a working session. */
  datatype Effect =
    | Writes(d: Doc, done: bool)
    | Nothing(done: bool)
    | Leaves(d: Doc)
    | Breaks

  function WriteEffect(d: Doc, fault: Fault): Effect {
    match fault
    case Early => Nothing(false)
    case AtCommit => Breaks
    case AfterCommit => Writes(d, false)
    case NoFault => Writes(d, true)
  }

  function EffectOn(row: Option<Doc>, value: Option<Value>, f: Faults): Effect {
    match value
    case None =>
      if row.None? then Nothing(!f.write.Early?) else WriteEffect(SoftDeleted(row.value), f.write)
    case Some(v) =>
      if !f.read.NoFault? || v.NotADict? || f.write.Early? then Nothing(false)
      else if row.None? then WriteEffect(NewDoc(v.fields), f.write)
      else if row.value.deleted then Breaks
      else if TagsRaise(v.fields) then Leaves(Slipped(row.value, v.fields))
      else WriteEffect(Merged(row.value, v.fields), f.write)
  }

  /** The effect of a key's turn. */
  function EffectAt(s: Store, c: Circumstances, k: string): Effect {
    EffectOn(Seen(s.db, k), Captured(s, c, k), c.faults(k))
  }

  predicate Succeeds(e: Effect) {
    (e.Writes? || e.Nothing?) && e.done
  }

  function Performed(db: Db, k: string, e: Effect): (Db, bool) {
    match e
    case Writes(d, done) => (Committed(db, k, d), done)
    case Nothing(done) => (db, done)
    case Leaves(d) => (db.(pending := db.pending[k := d]), false)
    case Breaks => (RolledBack(db), false)
  }

  lemma TurnIsEffect(s: Store, c: Circumstances, k: string)
    requires PendingOk(s)
    ensures Turned(s.db, Captured(s, c, k), k, c.faults(k))
      == if s.db.usable then Performed(s.db, k, EffectAt(s, c, k)) else (s.db, false)
  {
    hide TagsRaise, Captured;
  }

  lemma {:induction false} PutAllOnly(s: Store, items: seq<(string, Value)>)
    ensures PutAll(s, items).db == s.db && s.dirty <= PutAll(s, items).dirty
    ensures forall k :: At(PutAll(s, items).memory, k) == At(s.memory, k) || k in PutAll(s, items).dirty
    ensures forall k :: !Touches(UpdateAll(items), k) ==> At(PutAll(s, items).memory, k) == At(s.memory, k)
    decreases |items|
  {
    if items != [] {
      var init := items[..|items| - 1];
      PutAllOnly(s, init);
      forall k | !Touches(UpdateAll(items), k)
        ensures !Touches(UpdateAll(init), k) && k != items[|items| - 1].0
      {
        assert forall i :: 0 <= i < |init| ==> init[i] == items[i];
      }
    }
  }

  /** Using the dictionary leaves the database alone and marks every key it changes. */
  lemma {:induction false} EditsOnly(s: Store, ops: seq<DictOp>)
    ensures EditedAll(s, ops).db == s.db && s.dirty <= EditedAll(s, ops).dirty
    ensures forall k :: At(EditedAll(s, ops).memory, k) == At(s.memory, k) || k in EditedAll(s, ops).dirty
    ensures forall k :: (forall op :: op in ops ==> !Touches(op, k)) ==>
      At(EditedAll(s, ops).memory, k) == At(s.memory, k)
    decreases |ops|
  {
    if ops != [] {
      var init, last := ops[..|ops| - 1], ops[|ops| - 1];
      EditsOnly(s, init);
      EditOnly(EditedAll(s, init), last);
      assert ops == init + [last];
    }
  }

  lemma EditOnly(s: Store, op: DictOp)
    ensures Edited(s, op).db == s.db && s.dirty <= Edited(s, op).dirty
    ensures forall k :: At(Edited(s, op).memory, k) == At(s.memory, k) || k in Edited(s, op).dirty
    ensures forall k :: !Touches(op, k) ==> At(Edited(s, op).memory, k) == At(s.memory, k)
  {
    if op.UpdateAll? { PutAllOnly(s, op.items); }
  }

  lemma EditsKeep(s: Store, ops: seq<DictOp>)
    ensures Agreement(s) ==> Agreement(EditedAll(s, ops))
    ensures PendingOk(s) ==> PendingOk(EditedAll(s, ops))
  {
    EditsOnly(s, ops);
    var s' := EditedAll(s, ops);
    hide EditedAll, Carries;
    if Agreement(s) {
      forall k | k !in s'.dirty
        ensures CleanAgrees(s', k)
      {
        assert k !in s.dirty && At(s'.memory, k) == At(s.memory, k);
      }
    }
  }

  /** The three moments of a turn: the lookup, the database, and what was done meanwhile. */
  lemma TurnMoments(s: Store, c: Circumstances, k: string)
    ensures var s1, done := Wrote(s, c, k).0, Wrote(s, c, k).1;
      && s1.db == Turned(s.db, Captured(s, c, k), k, c.faults(k)).0
      && done == Turned(s.db, Captured(s, c, k), k, c.faults(k)).1
      && s.dirty <= s1.dirty
      && (forall x :: At(s1.memory, x) == At(s.memory, x) || x in s1.dirty)
  {
    hide EditedAll, Turned, Captured, Calls;
    EditsOnly(s, c.others(k).lookup);
    EditsOnly(Looked(s, c, k).(db := Wrote(s, c, k).0.db), c.others(k).write);
    EditsOnly(Looked(s, c, k).(db := Turned(s.db, Captured(s, c, k), k, c.faults(k)).0), c.others(k).write);
  }

  /** Whatever others do, a turn keeps what is pending in order, and other keys stay dirty. */
  lemma TurnPending(s: Store, c: Circumstances, k: string)
    requires PendingOk(s) && k in s.dirty
    ensures PendingOk(SyncOne(s, c, k)) && s.dirty - {k} <= SyncOne(s, c, k).dirty
  {
    hide Turned, Captured, EffectOn, Wrote;
    TurnMoments(s, c, k);
    TurnIsEffect(s, c, k);
    EffectShape(s, c, k);
  }

  /** A success leaves a live row, or none; only a live row of a key in memory is left changed. */
  lemma EffectShape(s: Store, c: Circumstances, k: string)
    requires PendingOk(s)
    ensures var e := EffectAt(s, c, k);
      && (e.Leaves? ==> LiveIn(s.db.docs, k) && !e.d.deleted)
      && (e.Nothing? && e.done ==> k !in s.db.docs && Captured(s, c, k).None?)
      && (e.Writes? ==> (e.d.deleted <==> Captured(s, c, k).None?))
      && (e.Writes? && Captured(s, c, k).Some? ==> Carries(e.d, Captured(s, c, k).value))
  {
    hide Captured, TagsRaise;
    var value := Captured(s, c, k);
    if value.Some? && value.value.Fields? && Seen(s.db, k).Some? {
      var before := Seen(s.db, k).value.content;
      StoredSame(before, before + value.value.fields);
      StoredCarries(before, value.value.fields);
    }
    hide Norm, Same, SameContent, SameLookups, Stored, Changes;
  }

  lemma StoredCarries(before: Content, fields: Content)
    ensures var stored := Stored(before, before + fields);
      forall f :: f in fields ==> f in stored && Same(stored[f], fields[f])
  {
    var after := before + fields;
    StoredSame(before, after);
    hide Norm, Stored, SameContent;
    forall f | f in fields
      ensures f in Stored(before, after) && Same(Stored(before, after)[f], fields[f])
    {
      assert Same(Read(after, f), Read(Stored(before, after), f));
    }
  }

  /**
   A row that carries a value has each of its fields: the same, and a text literally; and
   no row carries two texts for one field.
   */
  lemma CarriesExact(d: Doc, fields: Content, f: string)
    requires Carries(d, Fields(fields)) && f in fields
    ensures !d.deleted && f in d.content && Same(d.content[f], fields[f])
    ensures fields[f].Text? ==> d.content[f] == fields[f]
    ensures d.content[f].Text? ==> d.content[f] == fields[f]
  {
    SameExact(d.content[f], fields[f]);
    hide Same;
  }

  /**
   An undisturbed turn without failures leaves, for a dictionary in memory, a live row with
   each of its texts literally.
   */
  lemma WrittenTexts(s: Store, k: string, f: string)
    requires PendingOk(s) && s.db.usable && !Unwritable(s, k) && k in s.memory
    requires s.memory[k].Fields? && f in s.memory[k].fields && s.memory[k].fields[f].Text?
    ensures var s' := SyncOne(s, UNDISTURBED, k);
      && k !in s'.dirty && LiveIn(s'.db.docs, k)
      && f in s'.db.docs[k].content && s'.db.docs[k].content[f] == s.memory[k].fields[f]
  {
    AloneTurn(s, UNDISTURBED, k);
    CleanEffect(s, k);
    TurnIsEffect(s, UNDISTURBED, k);
    EffectShape(s, UNDISTURBED, k);
    var e := EffectAt(s, UNDISTURBED, k);
    hide EffectAt, Turned, Carries, TagsRaise, Unwritable;
    assert Captured(s, UNDISTURBED, k) == Some(s.memory[k]);
    assert e.Writes?;
    CarriesExact(e.d, s.memory[k].fields, f);
  }

  // ---- Exactly when a turn keeps the agreement ----

  /**
   The write of a key succeeds, and meanwhile others made it something that the row written
   does not carry, or took it out of memory, or put it back there.
   */
  ghost predicate Overtaken(s: Store, c: Circumstances, k: string) {
    var (s1, done) := Wrote(s, c, k);
    && done
    && (if Captured(s, c, k).None? then k in s1.memory
        else k !in s1.memory || k !in s1.db.docs || !Carries(s1.db.docs[k], s1.memory[k]))
  }

  lemma TurnAgreesIff(s: Store, c: Circumstances, k: string)
    requires Agreement(s) && PendingOk(s) && k in s.dirty
    ensures Agreement(SyncOne(s, c, k)) <==> !Overtaken(s, c, k)
  {
    hide Turned, Captured, EffectOn, Wrote, Carries;
    TurnMoments(s, c, k);
    TurnIsEffect(s, c, k);
    EffectShape(s, c, k);
    var s1, s' := Wrote(s, c, k).0, SyncOne(s, c, k);
    forall x | x != k && x !in s'.dirty
      ensures CleanAgrees(s', x)
    {
      assert x !in s.dirty && CleanAgrees(s, x) && At(s'.memory, x) == At(s.memory, x);
    }
    if Wrote(s, c, k).1 { DoneAgrees(s, c, k); }
  }

  lemma DoneAgrees(s: Store, c: Circumstances, k: string)
    requires PendingOk(s) && Wrote(s, c, k).1
    ensures CleanAgrees(SyncOne(s, c, k), k) <==> !Overtaken(s, c, k)
  {
    hide Turned, Captured, EffectOn, Wrote;
    TurnMoments(s, c, k);
    TurnIsEffect(s, c, k);
    EffectShape(s, c, k);
    hide Carries;
    assert Captured(s, c, k).Some? ==> LiveIn(Wrote(s, c, k).0.db.docs, k);
    assert Captured(s, c, k).None? ==> !LiveIn(Wrote(s, c, k).0.db.docs, k);
    NotLiveNotCarried();
  }

  lemma NotLiveNotCarried()
    ensures forall d: Doc, v: Value :: d.deleted ==> !Carries(d, v)
  {
  }

  /** A key that nobody else touches while its write is awaited is not overtaken; the lookup does not matter. */
  lemma UntouchedNotOvertaken(s: Store, c: Circumstances, k: string)
    requires PendingOk(s) && forall op :: op in c.others(k).write ==> !Touches(op, k)
    ensures !Overtaken(s, c, k)
  {
    hide Turned, EffectOn, Calls, EditedAll, Touches;
    TurnMoments(s, c, k);
    TurnIsEffect(s, c, k);
    EffectShape(s, c, k);
    var s1 := Looked(s, c, k).(db := Turned(s.db, Captured(s, c, k), k, c.faults(k)).0);
    EditsOnly(s1, c.others(k).write);
    assert At(Wrote(s, c, k).0.memory, k) == At(s1.memory, k);
    hide Carries;
    if Captured(s, c, k) == Some(NotADict) { NotADictNotDone(s, c, k); }
  }

  lemma NotADictNotDone(s: Store, c: Circumstances, k: string)
    requires Captured(s, c, k) == Some(NotADict)
    ensures !Wrote(s, c, k).1
  {
    hide EditedAll;
  }

  // ---- Passes and runs ----

  lemma {:induction false} PassPending(s: Store, c: Circumstances, order: seq<string>)
    requires PendingOk(s) && Distinct(order) && forall k :: k in order ==> k in s.dirty
    ensures PendingOk(Passed(s, c, order))
    ensures forall k :: k in s.dirty && k !in order ==> k in Passed(s, c, order).dirty
    decreases |order|
  {
    hide PendingOk, SyncOne;
    if order != [] {
      var init, last := order[..|order| - 1], order[|order| - 1];
      assert order == init + [last];
      PassPending(s, c, init);
      TurnPending(Passed(s, c, init), c, last);
    }
  }

  /** Clean keys agree after every turn of the pass. */
  ghost predicate PassAgrees(s: Store, c: Circumstances, order: seq<string>)
    decreases |order|
  {
    Agreement(Passed(s, c, order)) && (order == [] || PassAgrees(s, c, order[..|order| - 1]))
  }

  /** Some key of the pass is overtaken. */
  ghost predicate PassOvertakes(s: Store, c: Circumstances, order: seq<string>)
    decreases |order|
  {
    && order != []
    && (var init := order[..|order| - 1];
        PassOvertakes(s, c, init) || Overtaken(Passed(s, c, init), c, order[|order| - 1]))
  }

  lemma {:induction false} PassAgreesIff(s: Store, c: Circumstances, order: seq<string>)
    requires Agreement(s) && PendingOk(s) && Distinct(order) && forall k :: k in order ==> k in s.dirty
    ensures PassAgrees(s, c, order) <==> !PassOvertakes(s, c, order)
    decreases |order|
  {
    hide Agreement, PendingOk, SyncOne, Overtaken;
    if order != [] {
      var init, last := order[..|order| - 1], order[|order| - 1];
      assert order == init + [last];
      PassAgreesIff(s, c, init);
      PassPending(s, c, init);
      if PassAgrees(s, c, init) { TurnAgreesIff(Passed(s, c, init), c, last); }
    }
  }

  ghost predicate StepAgrees(s: Store, op: Op) {
    if op.Sync? then PassAgrees(s, op.circumstances, op.order) else Agreement(Step(s, op))
  }

  ghost predicate StepOvertakes(s: Store, op: Op) {
    op.Sync? && PassOvertakes(s, op.circumstances, op.order)
  }

  lemma EndKeeps(s: Store, commits: bool)
    requires PendingOk(s)
    ensures PendingOk(Step(s, EndSession(commits)))
    ensures Agreement(s) ==> Agreement(Step(s, EndSession(commits)))
  {
    hide Carries;
    assert forall x :: x !in s.dirty && CleanAgrees(s, x) ==> CleanAgrees(Step(s, EndSession(commits)), x);
  }

  lemma StepPending(s: Store, op: Op)
    requires PendingOk(s) && Proper(s, op)
    ensures PendingOk(Step(s, op))
  {
    hide Agreement;
    match op
    case Dict(d) => EditOnly(s, d);
    case Sync(order, c) => PassPending(s, c, order);
    case EndSession(commits) => EndKeeps(s, commits);
  }

  /** An operation keeps the clean keys in agreement, throughout, exactly when it is not a pass that overtakes one. */
  lemma StepKeepsIff(s: Store, op: Op)
    requires Agreement(s) && PendingOk(s) && Proper(s, op)
    ensures StepAgrees(s, op) <==> !StepOvertakes(s, op)
    ensures StepAgrees(s, op) ==> Agreement(Step(s, op))
  {
    match op
    case Dict(d) =>
      EditsKeep(s, [d]);
      assert [d][..0] == [] && EditedAll(s, []) == s && EditedAll(s, [d]) == Edited(s, d);
    case Sync(order, c) => PassAgreesIff(s, c, order);
    case EndSession(commits) => EndKeeps(s, commits);
  }

  lemma {:induction false} RunPending(ops: seq<Op>)
    requires Possible(Start(), ops)
    ensures PendingOk(After(Start(), ops))
    decreases |ops|
  {
    if ops != [] {
      RunPending(ops[..|ops| - 1]);
      hide PendingOk;
      StepPending(After(Start(), ops[..|ops| - 1]), ops[|ops| - 1]);
    }
  }

  /** Clean keys agree throughout the run: after every operation, and after every turn of every pass. */
  ghost predicate RunAgrees(ops: seq<Op>)
    decreases |ops|
  {
    ops == [] || (RunAgrees(ops[..|ops| - 1]) && StepAgrees(After(Start(), ops[..|ops| - 1]), ops[|ops| - 1]))
  }

  /** Some pass of the run overtakes a key. */
  ghost predicate RunOvertakes(ops: seq<Op>)
    decreases |ops|
  {
    ops != [] && (RunOvertakes(ops[..|ops| - 1]) || StepOvertakes(After(Start(), ops[..|ops| - 1]), ops[|ops| - 1]))
  }

  /**
   From an empty table, over any run with any failures and any use of the dictionary during
   its passes: clean keys agree throughout exactly when no key is discarded after others
   made it, while its write was awaited, something that its row does not carry.
   */
  lemma {:induction false} CleanKeysAgreeIff(ops: seq<Op>)
    requires Possible(Start(), ops)
    ensures RunAgrees(ops) <==> !RunOvertakes(ops)
    ensures RunAgrees(ops) ==> Agreement(After(Start(), ops))
    decreases |ops|
  {
    if ops != [] {
      CleanKeysAgreeIff(ops[..|ops| - 1]);
      RunPending(ops[..|ops| - 1]);
      hide Agreement, PendingOk, StepAgrees, StepOvertakes, Step;
      if RunAgrees(ops[..|ops| - 1]) { StepKeepsIff(After(Start(), ops[..|ops| - 1]), ops[|ops| - 1]); }
    }
  }

  /** Nobody touches a key while its own write is awaited. */
  ghost predicate Considerate(op: Op) {
    op.Sync? ==>
      forall k, d :: k in op.order && d in op.circumstances.others(k).write ==> !Touches(d, k)
  }

  lemma {:induction false} ConsideratePass(s: Store, c: Circumstances, order: seq<string>)
    requires PendingOk(s) && Distinct(order) && (forall k :: k in order ==> k in s.dirty)
    requires Considerate(Sync(order, c))
    ensures !PassOvertakes(s, c, order)
    decreases |order|
  {
    hide PendingOk, Overtaken, Passed, Touches;
    if order != [] {
      var init, last := order[..|order| - 1], order[|order| - 1];
      assert order == init + [last];
      ConsideratePass(s, c, init);
      PassPending(s, c, init);
      UntouchedNotOvertaken(Passed(s, c, init), c, last);
    }
  }

  lemma {:induction false} ConsiderateRun(ops: seq<Op>)
    requires Possible(Start(), ops) && forall op :: op in ops ==> Considerate(op)
    ensures !RunOvertakes(ops)
    decreases |ops|
  {
    hide Considerate, PendingOk, PassOvertakes;
    if ops != [] {
      var init, last := ops[..|ops| - 1], ops[|ops| - 1];
      assert ops == init + [last];
      ConsiderateRun(init);
      RunPending(init);
      if last.Sync? { ConsideratePass(After(Start(), init), last.circumstances, last.order); }
    }
  }

  /** In particular, clean keys agree in every run in which nobody touches a key while its own write is awaited. */
  lemma CleanKeysAgree(ops: seq<Op>)
    requires Possible(Start(), ops) && forall op :: op in ops ==> Considerate(op)
    ensures RunAgrees(ops) && Agreement(After(Start(), ops))
  {
    hide Agreement, RunAgrees, RunOvertakes, Possible, Considerate;
    ConsiderateRun(ops);
    CleanKeysAgreeIff(ops);
  }

  // ---- Undisturbed passes: exactly which keys are cleaned ----

  lemma AloneTurn(s: Store, c: Circumstances, k: string)
    requires Alone(c)
    ensures Captured(s, c, k) == At(s.memory, k)
    ensures var (db, done) := Turned(s.db, At(s.memory, k), k, c.faults(k));
      Wrote(s, c, k) == (s.(db := db), done)
  {
    hide Turned;
    assert EditedAll(s, []) == s;
    assert forall db :: EditedAll(s.(db := db), []) == s.(db := db);
  }

  /** The session still works when the `i`-th key has its turn. */
  ghost predicate Reached(s: Store, c: Circumstances, order: seq<string>, i: nat)
    requires i <= |order|
  {
    s.db.usable && forall j :: 0 <= j < i ==> !EffectAt(s, c, order[j]).Breaks?
  }

  ghost predicate Cleans(s: Store, c: Circumstances, order: seq<string>, i: nat) {
    && i < |order| && Reached(s, c, order, i)
    && Succeeds(EffectAt(s, c, order[i]))
  }

  lemma ReachedPrefix(s: Store, c: Circumstances, order: seq<string>, i: nat)
    requires order != [] && i < |order|
    ensures Reached(s, c, order, i) <==> Reached(s, c, order[..|order| - 1], i)
    ensures Cleans(s, c, order, i) <==>
      if i == |order| - 1 then Reached(s, c, order, i) && Cleans(s, c, order, i)
      else Cleans(s, c, order[..|order| - 1], i)
  {
    hide EffectAt;
  }

  /**
   An undisturbed pass is its turns, each with the effect it has from the state before the pass, up to
   the first that breaks the session.
   */
  lemma {:induction false} PassExact(s: Store, c: Circumstances, order: seq<string>)
    requires Alone(c) && PendingOk(s) && Distinct(order) && forall k :: k in order ==> k in s.dirty
    ensures var s' := Passed(s, c, order);
      && s'.memory == s.memory
      && (s'.db.usable <==> Reached(s, c, order, |order|))
      && (s'.db.usable ==> forall k :: k !in order ==> Seen(s'.db, k) == Seen(s.db, k))
      && (forall k :: k in s'.dirty <==> k in s.dirty && !CleanedIn(s, c, order, k))
    decreases |order|
  {
    hide EffectOn, Turned, PendingOk, Alone, Captured, Wrote;
    if order != [] {
      var init, last := order[..|order| - 1], order[|order| - 1];
      assert order == init + [last];
      PassExact(s, c, init);
      PassPending(s, c, init);
      AloneTurn(s, c, last);
      AloneTurn(Passed(s, c, init), c, last);
      TurnIsEffect(Passed(s, c, init), c, last);
      ReachedPrefix(s, c, order, |init|);
      CleanedSnoc(s, c, order);
    }
  }

  ghost predicate CleanedIn(s: Store, c: Circumstances, order: seq<string>, k: string) {
    exists i: nat :: i < |order| && Cleans(s, c, order, i) && order[i] == k
  }

  lemma CleanedSnoc(s: Store, c: Circumstances, order: seq<string>)
    requires order != []
    ensures var n := |order| - 1;
      forall k :: CleanedIn(s, c, order, k) <==>
        CleanedIn(s, c, order[..n], k) || (Cleans(s, c, order, n) && order[n] == k)
  {
    hide Cleans;
    var n := |order| - 1;
    forall k
      ensures CleanedIn(s, c, order, k) <==> CleanedIn(s, c, order[..n], k) || (Cleans(s, c, order, n) && order[n] == k)
    {
      if CleanedIn(s, c, order, k) {
        var i: nat :| i < |order| && Cleans(s, c, order, i) && order[i] == k;
        ReachedPrefix(s, c, order, i);
        assert i < n ==> Cleans(s, c, order[..n], i);
      }
      if CleanedIn(s, c, order[..n], k) {
        var i: nat :| i < n && Cleans(s, c, order[..n], i) && order[..n][i] == k;
        ReachedPrefix(s, c, order, i);
        assert Cleans(s, c, order, i);
      }
    }
  }

  /** In memory, but not writable: no dictionary, or the row was soft-deleted, or the row is live and the tags raise. */
  predicate Unwritable(s: Store, k: string) {
    && k in s.memory
    && (s.memory[k].NotADict? || Rejected(s, k) || (LiveIn(s.db.docs, k) && TagsRaise(s.memory[k].fields)))
  }

  /** A new row would violate the uniqueness constraint, which breaks the session. */
  predicate Rejected(s: Store, k: string) {
    k in s.memory && s.memory[k].Fields? && k in s.db.docs && s.db.docs[k].deleted
  }

  /** The constraint was violated before this key had its turn. */
  ghost predicate BehindRejected(s: Store, order: seq<string>, k: string) {
    exists i, j :: 0 <= i < j < |order| && Rejected(s, order[i]) && order[j] == k
  }

  lemma CleanEffect(s: Store, k: string)
    requires PendingOk(s)
    ensures var e := EffectAt(s, UNDISTURBED, k);
      && (e.Breaks? <==> Rejected(s, k))
      && (Succeeds(e) <==> !Unwritable(s, k))
  {
    hide TagsRaise;
    AloneTurn(s, UNDISTURBED, k);
  }

  /**
   An undisturbed pass without database failures, in a fresh session, leaves dirty exactly the
   unwritable keys and all keys that come after one whose row was soft-deleted.
   */
  lemma FailureFreePass(s: Store, order: seq<string>)
    requires PendingOk(s) && s.db.usable && Lists(order, s.dirty)
    ensures var s' := Passed(s, UNDISTURBED, order);
      forall k :: k in s'.dirty <==> k in s.dirty && (Unwritable(s, k) || BehindRejected(s, order, k))
  {
    hide EffectAt, Unwritable, Rejected, PendingOk;
    var c := UNDISTURBED;
    assert Alone(c);
    PassExact(s, c, order);
    forall k | k in s.dirty
      ensures CleanedIn(s, c, order, k) <==> !(Unwritable(s, k) || BehindRejected(s, order, k))
    {
      var i :| 0 <= i < |order| && order[i] == k;
      CleanEffect(s, k);
      forall j | 0 <= j < |order|
        ensures EffectAt(s, c, order[j]).Breaks? <==> Rejected(s, order[j])
      {
        CleanEffect(s, order[j]);
      }
      assert Cleans(s, c, order, i) <==> !(Unwritable(s, k) || BehindRejected(s, order, k));
      assert forall j :: 0 <= j < |order| && order[j] == k ==> j == i;
    }
  }

  /** No undisturbed pass, whatever its failures and its order, makes an unwritable key clean. */
  lemma UnwritableStaysDirty(s: Store, c: Circumstances, order: seq<string>, k: string)
    requires Alone(c) && PendingOk(s) && Lists(order, s.dirty) && k in s.dirty && Unwritable(s, k)
    ensures k in Passed(s, c, order).dirty
  {
    hide TagsRaise;
    PassExact(s, c, order);
    AloneTurn(s, c, k);
    assert !Succeeds(EffectAt(s, c, k));
  }

  // ---- A soft-deleted row is final ----

  ghost predicate Retired(db: Db, k: string, content: Content) {
    k in db.docs && db.docs[k].deleted && db.docs[k].content == content && k !in db.pending
  }

  lemma RetiredTurn(db: Db, value: Option<Value>, f: Faults, x: string, k: string, content: Content)
    requires Retired(db, k, content)
    ensures Retired(Turned(db, value, x, f).0, k, content)
  {
    hide TagsRaise, Stored;
  }

  lemma {:induction false} RetiredPass(s: Store, c: Circumstances, order: seq<string>, k: string, content: Content)
    requires Retired(s.db, k, content)
    ensures Retired(Passed(s, c, order).db, k, content)
    decreases |order|
  {
    hide Retired, Turned, Captured;
    if order != [] {
      var init, last := order[..|order| - 1], order[|order| - 1];
      var p := Passed(s, c, init);
      RetiredPass(s, c, init, k, content);
      RetiredTurn(p.db, Captured(p, c, last), c.faults(last), last, k, content);
      TurnMoments(p, c, last);
    }
  }

  /**
   Once a row is soft-deleted, no later run brings it back or changes its content, whatever
   is set under its key.
   */
  lemma {:induction false} DeletedRowIsFinal(s: Store, ops: seq<Op>, k: string, content: Content)
    requires Retired(s.db, k, content)
    ensures Retired(After(s, ops).db, k, content)
    decreases |ops|
  {
    if ops != [] {
      var init := After(s, ops[..|ops| - 1]);
      DeletedRowIsFinal(s, ops[..|ops| - 1], k, content);
      match ops[|ops| - 1]
      case Dict(d) => EditOnly(init, d);
      case Sync(order, c) => RetiredPass(init, c, order, k, content);
      case EndSession(_) =>
    }
  }

  // ---- Instances ----

  /** A key set and written back, undisturbed. */
  function SetAndWritten(k: string, v: Content): seq<Op> {
    [Dict(SetItem(k, Fields(v))), Sync([k], UNDISTURBED)]
  }

  lemma OneKeyPass(s: Store, c: Circumstances, k: string)
    ensures Passed(s, c, [k]) == SyncOne(s, c, k)
    ensures s.dirty == {k} ==> Proper(s, Sync([k], c))
  {
    assert [k][..0] == [];
  }

  lemma SetAndWrittenState(k: string, v: Content)
    ensures Possible(Start(), SetAndWritten(k, v))
    ensures After(Start(), SetAndWritten(k, v)) == Store(map[k := Fields(v)], {}, Db(map[k := NewDoc(v)], map[], true))
  {
    var ops := SetAndWritten(k, v);
    var s1 := Put(Start(), k, Fields(v));
    assert ops[..2] == ops && ops[..2][..1] == ops[..1] && ops[..1][..0] == [];
    assert After(Start(), []) == Start() && After(Start(), ops[..1]) == s1;
    OneKeyPass(s1, UNDISTURBED, k);
    AloneTurn(s1, UNDISTURBED, k);
    assert At(s1.memory, k) == Some(Fields(v)) && Got(s1.db, k, NoFault) == Returned(None);
    assert Possible(Start(), []) && Possible(Start(), ops[..1]);
  }

  lemma PossibleMore(s: Store, ops: seq<Op>, op: Op)
    requires Possible(s, ops) && Proper(After(s, ops), op)
    ensures Possible(s, ops + [op]) && After(s, ops + [op]) == Step(After(s, ops), op)
  {
    assert (ops + [op])[..|ops|] == ops;
  }

  /** A key set, written back, deleted, written back. */
  function SetAndDeleted(k: string, v: Content): seq<Op> {
    SetAndWritten(k, v) + [Dict(DelItem(k))] + [Sync([k], UNDISTURBED)]
  }

  lemma SetAndDeletedState(k: string, v: Content)
    ensures Possible(Start(), SetAndDeleted(k, v))
    ensures After(Start(), SetAndDeleted(k, v)) == Store(map[], {}, Db(map[k := SoftDeleted(NewDoc(v))], map[], true))
  {
    hide After, Possible;
    var s2 := Store(map[], {k}, Db(map[k := NewDoc(v)], map[], true));
    SetAndWrittenState(k, v);
    PossibleMore(Start(), SetAndWritten(k, v), Dict(DelItem(k)));
    assert After(Start(), SetAndWritten(k, v) + [Dict(DelItem(k))]) == s2;
    OneKeyPass(s2, UNDISTURBED, k);
    AloneTurn(s2, UNDISTURBED, k);
    assert At(s2.memory, k) == None;
    PossibleMore(Start(), SetAndWritten(k, v) + [Dict(DelItem(k))], Sync([k], UNDISTURBED));
  }

  /** From then on the row stays as it was deleted, whatever the key is set to. */
  lemma RecreatedKeyIsNeverWritten(k: string, v: Content, later: seq<Op>)
    ensures var s := After(After(Start(), SetAndDeleted(k, v)), later);
      Retired(s.db, k, v) && !LiveIn(s.db.docs, k)
  {
    SetAndDeletedState(k, v);
    DeletedRowIsFinal(After(Start(), SetAndDeleted(k, v)), later, k, v);
  }

  /** And a pass in which it comes first, though no database call fails of itself, leaves a writable key dirty. */
  lemma RejectedKeyHoldsUpOthers(k: string, k2: string, v: Content, w: Content, other: Content)
    requires k != k2
    ensures var s := Put(Put(After(Start(), SetAndDeleted(k, v)), k, Fields(w)), k2, Fields(other));
      && Proper(s, Sync([k, k2], UNDISTURBED))
      && !Unwritable(s, k2) && k2 in Passed(s, UNDISTURBED, [k, k2]).dirty
  {
    hide TagsRaise;
    SetAndDeletedState(k, v);
    var s := Put(Put(After(Start(), SetAndDeleted(k, v)), k, Fields(w)), k2, Fields(other));
    var order := [k, k2];
    assert s.dirty == {k, k2} && Lists(order, s.dirty);
    assert PendingOk(s);
    FailureFreePass(s, order);
    assert Rejected(s, order[0]) && order[1] == k2;
    assert BehindRejected(s, order, k2);
  }

  /** What is done while the write of every key is awaited. */
  function Meanwhile(op: DictOp): Circumstances {
    Circumstances(x => NO_FAULTS, x => Others([], [op]))
  }

  lemma EditedOnce(s: Store, op: DictOp)
    ensures EditedAll(s, []) == s && EditedAll(s, [op]) == Edited(s, op)
  {
    assert [op][..0] == [];
  }

  /** A key set again while its first value is being written ends clean, with a row that lacks the second value. */
  lemma OvertakenWrite(k: string, v: Content, w: Content, f: string)
    requires f in w && !(f in v && Same(v[f], w[f]))
    ensures var ops := [Dict(SetItem(k, Fields(v)))] + [Sync([k], Meanwhile(SetItem(k, Fields(w))))];
      var s := After(Start(), ops);
      && Possible(Start(), ops) && RunOvertakes(ops)
      && k !in s.dirty && At(s.memory, k) == Some(Fields(w)) && !CleanAgrees(s, k)
  {
    var put, sync := Dict(SetItem(k, Fields(v))), Sync([k], Meanwhile(SetItem(k, Fields(w))));
    var s1 := Put(Start(), k, Fields(v));
    assert [] + [put] == [put] && After(Start(), []) == Start() && Possible(Start(), []);
    PossibleMore(Start(), [], put);
    hide After, Possible;
    OneKeyPass(s1, sync.circumstances, k);
    PossibleMore(Start(), [put], sync);
    assert Got(s1.db, k, NoFault) == Returned(None);
    var s2 := s1.(db := Committed(s1.db, k, NewDoc(v)));
    EditedOnce(s1, SetItem(k, Fields(w)));
    EditedOnce(s2, SetItem(k, Fields(w)));
    assert Captured(s1, sync.circumstances, k) == Some(Fields(v));
    assert Wrote(s1, sync.circumstances, k) == (Put(s2, k, Fields(w)), true);
    var s := After(Start(), [put] + [sync]);
    assert s.db.docs[k] == NewDoc(v) && s.memory[k] == Fields(w) && k !in s.dirty;
    Disagrees([put] + [sync], k);
  }

  /** A key set again while its deletion is being written ends clean, in memory, with a deleted row. */
  lemma OvertakenDelete(k: string, v: Content, w: Value)
    ensures var ops := SetAndWritten(k, v) + [Dict(DelItem(k))] + [Sync([k], Meanwhile(SetItem(k, w)))];
      var s := After(Start(), ops);
      && Possible(Start(), ops) && RunOvertakes(ops)
      && k !in s.dirty && At(s.memory, k) == Some(w) && k in s.db.docs && s.db.docs[k].deleted
  {
    hide After, Possible;
    var sync := Sync([k], Meanwhile(SetItem(k, w)));
    var s2 := Store(map[], {k}, Db(map[k := NewDoc(v)], map[], true));
    SetAndWrittenState(k, v);
    PossibleMore(Start(), SetAndWritten(k, v), Dict(DelItem(k)));
    assert After(Start(), SetAndWritten(k, v) + [Dict(DelItem(k))]) == s2;
    OneKeyPass(s2, sync.circumstances, k);
    PossibleMore(Start(), SetAndWritten(k, v) + [Dict(DelItem(k))], sync);
    var s3 := s2.(db := Committed(s2.db, k, SoftDeleted(NewDoc(v))));
    EditedOnce(s3, SetItem(k, w));
    assert Captured(s2, sync.circumstances, k) == None;
    assert Wrote(s2, sync.circumstances, k) == (Put(s3, k, w), true);
    Disagrees(SetAndWritten(k, v) + [Dict(DelItem(k))] + [sync], k);
  }

  lemma Disagrees(ops: seq<Op>, k: string)
    requires Possible(Start(), ops)
    requires var s := After(Start(), ops); k !in s.dirty && !CleanAgrees(s, k)
    ensures RunOvertakes(ops)
  {
    CleanKeysAgreeIff(ops);
  }

  // ---- Exactly when audit trails stay faithful ----

  ghost predicate TrailsFaithful(t: Table) {
    forall k :: k in t ==> Faithful(t[k])
  }

  ghost predicate AllSound(db: Db) {
    && (forall k :: k in db.docs ==> Sound(db.docs[k]))
    && (forall k :: k in db.pending ==> Sound(db.pending[k]) && Drift(db.pending[k]) > 0)
  }

  /** The state in which the `j`-th key has its turn. */
  function TurnOf(s: Store, c: Circumstances, order: seq<string>, j: nat): Store
    requires j <= |order|
  {
    Passed(s, c, order[..j])
  }

  /** Something is waiting in the session when the `j`-th key commits. */
  ghost predicate SpoilsAt(s: Store, c: Circumstances, order: seq<string>, j: nat) {
    && j < |order| && TurnOf(s, c, order, j).db.usable && EffectAt(TurnOf(s, c, order, j), c, order[j]).Writes?
    && (s.db.pending != map[] || LeftBefore(s, c, order, j))
  }

  ghost predicate LeavesAt(s: Store, c: Circumstances, order: seq<string>, i: nat) {
    && i < |order| && TurnOf(s, c, order, i).db.usable && EffectAt(TurnOf(s, c, order, i), c, order[i]).Leaves?
  }

  ghost predicate LeftBefore(s: Store, c: Circumstances, order: seq<string>, j: nat) {
    exists i: nat :: i < j && LeavesAt(s, c, order, i)
  }

  ghost predicate PassSpoils(s: Store, c: Circumstances, order: seq<string>) {
    exists j: nat :: SpoilsAt(s, c, order, j)
  }

  /** An operation commits a change that an update left without an audit entry. */
  ghost predicate Spoils(s: Store, op: Op) {
    match op
    case Sync(order, c) => PassSpoils(s, c, order)
    case EndSession(commits) => commits && s.db.usable && s.db.pending != map[]
    case _ => false
  }

  ghost predicate Drifted(t: Table) {
    exists k :: k in t && Drift(t[k]) > 0
  }

  lemma FaithfulIffNoDrift(db: Db)
    requires AllSound(db)
    ensures TrailsFaithful(db.docs) <==> !Drifted(db.docs)
  {
    hide Faithful, Drift;
  }

  lemma EffectSound(s: Store, c: Circumstances, k: string)
    requires PendingOk(s) && AllSound(s.db)
    ensures var e := EffectAt(s, c, k);
      && (e.Writes? ==> Sound(e.d) && Drift(e.d) == if Seen(s.db, k).Some? then Drift(Seen(s.db, k).value) else 0)
      && (e.Leaves? ==> Sound(e.d) && Drift(e.d) > 0)
  {
    hide Sound, Drift, TagsRaise;
    var row, value := Seen(s.db, k), Captured(s, c, k);
    hide Captured;
    if value.Some? && value.value.Fields? {
      var u := value.value.fields;
      CreatedSound(u);
      if row.Some? && !row.value.deleted {
        MergedSound(row.value, u);
        SlippedSound(row.value, u);
        assert Drift(row.value) >= 0 by { DriftSound(row.value); }
      }
    } else if row.Some? {
      DeletedSound(row.value);
    }
  }

  lemma DriftSound(d: Doc)
    requires Sound(d)
    ensures Drift(d) >= 0
  {
  }

  /** One turn: rows stay sound, drift never goes away, and new drift comes only from committing what was left. */
  lemma TurnDrift(s: Store, c: Circumstances, k: string)
    requires PendingOk(s) && AllSound(s.db)
    ensures var s', e := SyncOne(s, c, k), EffectAt(s, c, k);
      && AllSound(s'.db)
      && (Drifted(s'.db.docs) <==> Drifted(s.db.docs) || (s.db.usable && e.Writes? && s.db.pending != map[]))
      && (s.db.usable && e.Writes? ==> s'.db.pending == map[])
      && (s.db.usable && !e.Breaks? && !e.Writes? ==> (s'.db.pending != map[] <==> s.db.pending != map[] || e.Leaves?))
  {
    hide Turned, EffectOn, Sound, Drift, PendingOk, Wrote, Captured;
    TurnMoments(s, c, k);
    TurnIsEffect(s, c, k);
    EffectSound(s, c, k);
    var s', e := SyncOne(s, c, k), EffectAt(s, c, k);
    if s.db.usable && e.Writes? {
      CommitDrift(s.db, k, e.d);
    }
    if s.db.usable && e.Leaves? {
      assert k in s'.db.pending;
    }
  }

  lemma CommitDrift(db: Db, k: string, d: Doc)
    requires AllSound(db) && Sound(d) && Drift(d) == if Seen(db, k).Some? then Drift(Seen(db, k).value) else 0
    ensures AllSound(Committed(db, k, d))
    ensures Drifted(Committed(db, k, d).docs) <==> Drifted(db.docs) || db.pending != map[]
  {
    hide Sound, Drift;
    var docs' := Committed(db, k, d).docs;
    if Drifted(db.docs) {
      var x :| x in db.docs && Drift(db.docs[x]) > 0;
      assert x in docs' && Drift(docs'[x]) > 0;
    }
    if db.pending != map[] {
      var x :| x in db.pending;
      assert x in docs' && Drift(docs'[x]) > 0;
    }
  }

  lemma SpoilsSnoc(s: Store, c: Circumstances, order: seq<string>)
    requires order != []
    ensures var n := |order| - 1;
      && (PassSpoils(s, c, order) <==> PassSpoils(s, c, order[..n]) || SpoilsAt(s, c, order, n))
      && (LeftBefore(s, c, order, n) <==> LeftBefore(s, c, order[..n], n))
      && (LeftBefore(s, c, order, n + 1) <==> LeftBefore(s, c, order, n) || LeavesAt(s, c, order, n))
      && TurnOf(s, c, order, n) == Passed(s, c, order[..n])
  {
    hide EffectAt, Passed;
    var n := |order| - 1;
    forall j: nat | j < n
      ensures LeavesAt(s, c, order, j) <==> LeavesAt(s, c, order[..n], j)
      ensures TurnOf(s, c, order, j) == TurnOf(s, c, order[..n], j)
    {
      assert order[..j] == order[..n][..j];
    }
    hide LeavesAt, TurnOf;
    forall j: nat | j < n
      ensures SpoilsAt(s, c, order, j) <==> SpoilsAt(s, c, order[..n], j)
    {
      assert LeftBefore(s, c, order, j) <==> LeftBefore(s, c, order[..n], j);
    }
    if PassSpoils(s, c, order) {
      var j: nat :| SpoilsAt(s, c, order, j);
      assert j < n ==> SpoilsAt(s, c, order[..n], j);
    }
    if PassSpoils(s, c, order[..n]) {
      var j: nat :| SpoilsAt(s, c, order[..n], j);
      assert SpoilsAt(s, c, order, j);
    }
  }

  lemma NoTurns(s: Store, c: Circumstances, order: seq<string>)
    requires order == []
    ensures !PassSpoils(s, c, order) && !LeftBefore(s, c, order, 0) && Passed(s, c, order) == s
  {
  }

  lemma UsableBefore(s: Store, c: Circumstances, k: string)
    requires PendingOk(s)
    ensures SyncOne(s, c, k).db.usable <==> s.db.usable && !EffectAt(s, c, k).Breaks?
  {
    hide Turned, Captured, EffectOn, Wrote;
    TurnMoments(s, c, k);
    TurnIsEffect(s, c, k);
  }

  lemma {:induction false} PassDrift(s: Store, c: Circumstances, order: seq<string>)
    requires PendingOk(s) && AllSound(s.db)
    requires Distinct(order) && forall k :: k in order ==> k in s.dirty
    ensures var s' := Passed(s, c, order);
      && AllSound(s'.db)
      && (Drifted(s'.db.docs) <==> Drifted(s.db.docs) || PassSpoils(s, c, order))
      && (s'.db.usable && !PassSpoils(s, c, order) ==>
           (s'.db.pending != map[] <==> s.db.pending != map[] || LeftBefore(s, c, order, |order|)))
    decreases |order|
  {
    hide AllSound, Drifted, PendingOk, SyncOne, EffectAt, PassSpoils, LeftBefore, TurnOf;
    if order == [] {
      NoTurns(s, c, order);
    } else {
      var init, last := order[..|order| - 1], order[|order| - 1];
      var p := Passed(s, c, init);
      assert order == init + [last];
      PassDrift(s, c, init);
      PassPending(s, c, init);
      TurnDrift(p, c, last);
      UsableBefore(p, c, last);
      SpoilsSnoc(s, c, order);
    }
  }

  lemma EndDrift(s: Store, commits: bool)
    requires AllSound(s.db)
    ensures var s' := Step(s, EndSession(commits));
      AllSound(s'.db) && (Drifted(s'.db.docs) <==> Drifted(s.db.docs) || Spoils(s, EndSession(commits)))
    ensures PendingOk(s) ==> PendingOk(Step(s, EndSession(commits)))
  {
    hide Sound, Drift;
    var docs' := Step(s, EndSession(commits)).db.docs;
    if commits && s.db.usable {
      if Drifted(s.db.docs) {
        var x :| x in s.db.docs && Drift(s.db.docs[x]) > 0;
        assert x in docs' && Drift(docs'[x]) > 0;
      }
      if s.db.pending != map[] {
        var x :| x in s.db.pending;
        assert x in docs' && Drift(docs'[x]) > 0;
      }
    }
  }

  lemma StepDrift(s: Store, op: Op)
    requires PendingOk(s) && AllSound(s.db) && Proper(s, op)
    ensures AllSound(Step(s, op).db)
    ensures Drifted(Step(s, op).db.docs) <==> Drifted(s.db.docs) || Spoils(s, op)
  {
    hide AllSound, Drifted, PendingOk;
    match op
    case Dict(d) => EditOnly(s, d);
    case Sync(order, c) => PassDrift(s, c, order);
    case EndSession(commits) => EndDrift(s, commits);
  }

  /** Some operation of the run committed a change without its audit entry. */
  ghost predicate RunSpoils(ops: seq<Op>)
    decreases |ops|
  {
    ops != [] && (RunSpoils(ops[..|ops| - 1]) || Spoils(After(Start(), ops[..|ops| - 1]), ops[|ops| - 1]))
  }

  lemma {:induction false} RunDrift(ops: seq<Op>)
    requires Possible(Start(), ops)
    ensures AllSound(After(Start(), ops).db)
    ensures Drifted(After(Start(), ops).db.docs) <==> RunSpoils(ops)
    decreases |ops|
  {
    hide AllSound, Drifted, PendingOk, Spoils, Step, Proper;
    if ops == [] {
      assert AllSound(Start().db) && !Drifted(Start().db.docs) by { StartSound(); }
    } else {
      RunDrift(ops[..|ops| - 1]);
      RunPending(ops[..|ops| - 1]);
      StepDrift(After(Start(), ops[..|ops| - 1]), ops[|ops| - 1]);
    }
  }

  lemma StartSound()
    ensures AllSound(Start().db) && !Drifted(Start().db.docs)
  {
  }

  /**
   Over any run with any failures, every audit trail is faithful exactly when no operation
   commits a change left without its entry.
   */
  lemma TrailsFaithfulIff(ops: seq<Op>)
    requires Possible(Start(), ops)
    ensures TrailsFaithful(After(Start(), ops).db.docs) <==> !RunSpoils(ops)
  {
    RunDrift(ops);
    FaithfulIffNoDrift(After(Start(), ops).db);
  }

  /**
   A row is written; then its new value has tags that are no texts, and another key is new:
   an undisturbed pass spoils the first row's trail.
   */
  lemma BadTagsSpoilTrail(k: string, k2: string, first: Content, bad: Content, other: Content)
    requires k != k2 && TagsRaise(bad)
    ensures var ops := SetAndWritten(k, first) + [Dict(SetItem(k, Fields(bad)))] + [Dict(SetItem(k2, Fields(other)))]
                       + [Sync([k, k2], UNDISTURBED)];
      Possible(Start(), ops) && !TrailsFaithful(After(Start(), ops).db.docs)
  {
    hide TagsRaise, TrailsFaithful, After, Possible, RunSpoils;
    var c, order := UNDISTURBED, [k, k2];
    var edit, add, sync := Dict(SetItem(k, Fields(bad))), Dict(SetItem(k2, Fields(other))), Sync(order, c);
    var ops := SetAndWritten(k, first);
    SetAndWrittenState(k, first);
    PossibleMore(Start(), ops, edit);
    PossibleMore(Start(), ops + [edit], add);
    var s := After(Start(), ops + [edit] + [add]);
    assert Proper(s, sync);
    PossibleMore(Start(), ops + [edit] + [add], sync);
    SpoilsTwo(s, k, k2, bad, other, order);
    LastSpoils(ops + [edit] + [add], sync);
    TrailsFaithfulIff(ops + [edit] + [add] + [sync]);
  }

  lemma LastSpoils(ops: seq<Op>, op: Op)
    requires Spoils(After(Start(), ops), op)
    ensures RunSpoils(ops + [op])
  {
    assert (ops + [op])[..|ops|] == ops;
  }

  lemma SpoilsTwo(s: Store, k: string, k2: string, bad: Content, other: Content, order: seq<string>)
    requires k != k2 && TagsRaise(bad) && order == [k, k2]
    requires LiveIn(s.db.docs, k) && k2 !in s.db.docs && s.db.pending == map[] && s.db.usable
    requires At(s.memory, k) == Some(Fields(bad)) && At(s.memory, k2) == Some(Fields(other))
    ensures PassSpoils(s, UNDISTURBED, order)
  {
    hide TagsRaise, Stored;
    var c := UNDISTURBED;
    assert order[..0] == [] && order[..1] == [k];
    AloneTurn(s, c, k);
    OneKeyPass(s, c, k);
    var s1 := SyncOne(s, c, k);
    AloneTurn(s1, c, k2);
    assert LeavesAt(s, c, order, 0);
    assert SpoilsAt(s, c, order, 1);
  }

  // ---- The object ----

  class DomainStore {
    const crud: DomainCRUD
    var memory: map<string, Value>
    var dirty: set<string>

    ghost function State(): Store
      reads this, crud
    {
      Store(memory, dirty, crud.State())
    }

    constructor (crud: DomainCRUD)
      ensures this.crud == crud && State() == Store(map[], {}, crud.State())
    {
      this.crud := crud;
      memory, dirty := map[], {};
    }

    method SetItem(key: string, value: Value)
      modifies this`memory, this`dirty
      ensures State() == Edited(old(State()), DictOp.SetItem(key, value))
    {
      memory := memory[key := value];
      dirty := dirty + {key};
    }

    method DelItem(key: string)
      modifies this`memory, this`dirty
      ensures State() == Edited(old(State()), DictOp.DelItem(key))
    {
      if key in memory {
        memory := memory - {key};
        dirty := dirty + {key};
      }
    }

    /** Popping a missing key without a default raises, and then marks nothing. */
    method Pop(key: string, default: Option<Value>) returns (r: Option<Value>)
      modifies this`memory, this`dirty
      ensures State() == Edited(old(State()), DictOp.Pop(key, default.Some?))
      ensures r == if key in old(memory) then Some(old(memory)[key]) else default
    {
      if key in memory {
        r := Some(memory[key]);
      } else {
        if default.None? {
          return None;
        }
        r := default;
      }
      memory := memory - {key};
      dirty := dirty + {key};
    }

    method Update(items: seq<(string, Value)>)
      modifies this`memory, this`dirty
      ensures State() == Edited(old(State()), UpdateAll(items))
    {
      for i := 0 to |items|
        invariant State() == PutAll(old(State()), items[..i])
      {
        assert items[..i + 1][..i] == items[..i];
        memory := memory[items[i].0 := items[i].1];
        dirty := dirty + {items[i].0};
      }
      assert items[..|items|] == items;
    }

    method SetDefault(key: string, value: Value) returns (r: Value)
      modifies this`memory, this`dirty
      ensures State() == Edited(old(State()), DictOp.SetDefault(key, value))
      ensures key in memory && r == memory[key]
    {
      if key !in memory {
        memory := memory[key := value];
        dirty := dirty + {key};
      }
      r := memory[key];
    }

    /** What other code does while a call is awaited. */
    method Meanwhile(ops: seq<DictOp>)
      modifies this`memory, this`dirty
      ensures State() == EditedAll(old(State()), ops)
    {
      for i := 0 to |ops|
        invariant State() == EditedAll(old(State()), ops[..i])
      {
        assert ops[..i + 1][..i] == ops[..i];
        Perform(ops[i]);
      }
      assert ops[..|ops|] == ops;
    }

    method Perform(op: DictOp)
      modifies this`memory, this`dirty
      ensures State() == Edited(old(State()), op)
    {
      match op
      case SetItem(key, value) => SetItem(key, value);
      case DelItem(key) => DelItem(key);
      case Pop(key, hasDefault) => var _ := Pop(key, if hasDefault then Some(NotADict) else None);
      case UpdateAll(items) => Update(items);
      case SetDefault(key, value) => var _ := SetDefault(key, value);
    }

    /**
     Writes back one key and, if that succeeds, marks it clean; a raised exception leaves it
     dirty.  Other code runs while the lookup, and while the write, is awaited.
     */
    method SyncKey(key: string, c: Circumstances) returns (done: bool)
      modifies this`memory, this`dirty, crud
      ensures State() == SyncOne(old(State()), c, key)
      ensures done == Wrote(old(State()), c, key).1
    {
      hide TagsRaise, Seen, EditedAll, AfterUpdate, AfterCreate, AfterDelete;
      var f, o := c.faults(key), c.others(key);
      if key in memory {
        var existing := crud.Get(key, f.read);
        Meanwhile(o.lookup);
        if existing.Raised? || key !in memory {
          return false;
        }
        var value := memory[key];
        if value.NotADict? {
          done := false;
        } else if existing.value.Some? {
          var updated := crud.Update(key, value.fields, f.write);
          done := updated.Returned?;
        } else {
          var created := crud.Create(key, value.fields, f.write);
          done := created.Returned?;
        }
      } else {
        var deleted := crud.Delete(key, f.write);
        done := deleted.Returned?;
      }
      Meanwhile(o.write);
      if done {
        dirty := dirty - {key};
      }
    }

    /** One pass over the keys that are dirty when it starts; `order` is the order it took them in. */
    method DbSync(c: Circumstances) returns (synced: nat, ghost order: seq<string>)
      modifies this`memory, this`dirty, crud
      ensures Lists(order, old(dirty))
      ensures State() == Step(old(State()), Sync(order, c))
      ensures synced == Successes(old(State()), c, order)
    {
      hide SyncOne, Wrote;
      ghost var s := State();
      var rest := dirty;
      synced, order := 0, [];
      while rest != {}
        invariant rest <= s.dirty && Lists(order, s.dirty - rest)
        invariant State() == Passed(s, c, order)
        invariant synced == Successes(s, c, order)
        decreases rest
      {
        var key :| key in rest;
        assert (order + [key])[..|order|] == order;
        order := order + [key];
        var done := SyncKey(key, c);
        if done {
          synced := synced + 1;
        }
        rest := rest - {key};
      }
    }
  }

  /** An undisturbed pass returns by how much the dirty set shrank. */
  lemma {:induction false} SuccessesShrink(s: Store, c: Circumstances, order: seq<string>)
    requires Alone(c) && PendingOk(s) && Distinct(order) && forall k :: k in order ==> k in s.dirty
    ensures Successes(s, c, order) == |s.dirty| - |Passed(s, c, order).dirty|
    decreases |order|
  {
    hide PendingOk, Turned, Wrote;
    if order != [] {
      var init, last := order[..|order| - 1], order[|order| - 1];
      assert order == init + [last];
      SuccessesShrink(s, c, init);
      PassPending(s, c, init);
      AloneTurn(Passed(s, c, init), c, last);
    }
  }
}
