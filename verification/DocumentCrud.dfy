/**
 Versioned documents with merge updates, soft deletes and an audit trail per document,
 in a database session.  Any call may fail: before it changes anything, at its commit
 (which makes the session unusable), or after the commit.  An update can also raise
 halfway, and leave its change for the next commit of the session to write.
 */
module DocumentCrud {
  import opened Prelude

  datatype Json =
    | Null
    | Bool(b: bool)
    | Number(n: real)
    | Text(s: string)
    | Array(items: seq<Json>)
    | Object(fields: map<string, Json>)

  type Content = map<string, Json>

  /** A value with booleans read as the numbers they equal. */
  function Norm(j: Json): Json {
    match j
    case Bool(b) => Number(if b then 1.0 else 0.0)
    case Array(items) => Array(seq(|items|, i requires 0 <= i < |items| => Norm(items[i])))
    case Object(fields) => Object(map f | f in fields :: Norm(fields[f]))
    case _ => j
  }

  /** Equality as the code compares values: `true` equals 1 and `false` equals 0, at any depth. */
  predicate Same(a: Json, b: Json) {
    Norm(a) == Norm(b)
  }

  /** A recorded change of one field; an absent field reads as `Null`. */
  datatype Change = Change(before: Json, after: Json)

  /** The number a value is, as far as comparisons go. */
  ghost predicate IsNumber(j: Json, n: real) {
    j == Number(n) || (j == Bool(true) && n == 1.0) || (j == Bool(false) && n == 0.0)
  }

  /** What the equality means: same kind and same contents, but that booleans are numbers. */
  lemma SameExact(a: Json, b: Json)
    ensures a == Null || b == Null ==> (Same(a, b) <==> a == b)
    ensures a.Text? || b.Text? ==> (Same(a, b) <==> a == b)
    ensures forall n :: IsNumber(a, n) ==> (Same(a, b) <==> IsNumber(b, n))
    ensures a.Array? ==>
      (Same(a, b) <==>
        && b.Array? && |a.items| == |b.items|
        && forall i :: 0 <= i < |a.items| ==> Same(a.items[i], b.items[i]))
    ensures a.Object? ==>
      (Same(a, b) <==>
        && b.Object? && a.fields.Keys == b.fields.Keys
        && forall f :: f in a.fields && f in b.fields ==> Same(a.fields[f], b.fields[f]))
  {
    if a.Array? && b.Array? { SameArrays(a.items, b.items); }
    if a.Object? && b.Object? { SameContentExact(a.fields, b.fields); }
  }

  lemma SameArrays(a: seq<Json>, b: seq<Json>)
    ensures Same(Array(a), Array(b)) <==> |a| == |b| && forall i :: 0 <= i < |a| && i < |b| ==> Same(a[i], b[i])
  {
    var x, y := Norm(Array(a)).items, Norm(Array(b)).items;
    assert |x| == |a| && |y| == |b|;
    assert forall i :: 0 <= i < |a| ==> x[i] == Norm(a[i]);
    assert forall i :: 0 <= i < |b| ==> y[i] == Norm(b[i]);
    if |a| == |b| && forall i :: 0 <= i < |a| && i < |b| ==> Same(a[i], b[i]) {
      assert x == y;
    }
  }

  /** Equality of dictionaries as the code compares them. */
  predicate SameContent(a: Content, b: Content) {
    Same(Object(a), Object(b))
  }

  /** What a row holds after an assignment: a content equal to the old one is not written. */
  function Stored(before: Content, after: Content): Content {
    if SameContent(before, after) then before else after
  }

  datatype Entry =
    | Created(snapshot: Content)
    | Updated(changes: map<string, Change>, snapshot: Content)
    | Deleted(snapshot: Content)

  datatype Doc = Doc(content: Content, version: nat, deleted: bool, trail: seq<Entry>)

  /** One row per entity id: the ids of rows are unique, deleted or not. */
  type Table = map<string, Doc>

  function Read(c: Content, field: string): Json {
    if field in c then c[field] else Null
  }

  function Changes(before: Content, updates: Content): map<string, Change> {
    map f | f in updates && !Same(Read(before, f), updates[f]) :: Change(Read(before, f), updates[f])
  }

  function NewDoc(c: Content): Doc {
    Doc(c, 1, false, [Created(c)])
  }

  function Merged(d: Doc, updates: Content): Doc {
    var c := d.content + updates;
    Doc(Stored(d.content, c), d.version + 1, d.deleted, d.trail + [Updated(Changes(d.content, updates), c)])
  }

  function SoftDeleted(d: Doc): Doc {
    d.(deleted := true, trail := d.trail + [Deleted(d.content)])
  }

  /** The row changed by an update that raised before it made its audit entry. */
  function Slipped(d: Doc, updates: Content): Doc {
    d.(content := Stored(d.content, d.content + updates), version := d.version + 1)
  }

  /** Tags are joined after the row's fields were assigned; a list with anything but texts raises there. */
  predicate TagsRaise(updates: Content) {
    && "tags" in updates && updates["tags"].Array?
    && exists i :: 0 <= i < |updates["tags"].items| && !updates["tags"].items[i].Text?
  }

  predicate LiveIn(t: Table, id: string) {
    id in t && !t[id].deleted
  }

  // ---- Replaying the trail ----

  function Applied(c: Content, changes: map<string, Change>): Content {
    c + (map f | f in changes :: changes[f].after)
  }

  /** The content the recorded changes add up to, from the snapshot taken at creation. */
  function Replay(trail: seq<Entry>): Content {
    if trail == [] then map[]
    else match trail[|trail| - 1]
      case Created(snapshot) => snapshot
      case Updated(changes, _) => Applied(Replay(trail[..|trail| - 1]), changes)
      case Deleted(_) => Replay(trail[..|trail| - 1])
  }

  function Updates(trail: seq<Entry>): nat {
    if trail == [] then 0
    else Updates(trail[..|trail| - 1]) + (if trail[|trail| - 1].Updated? then 1 else 0)
  }

  ghost predicate SameLookups(a: Content, b: Content) {
    forall f :: Same(Read(a, f), Read(b, f))
  }

  /** The trail tells the document's whole story. */
  ghost predicate Faithful(d: Doc) {
    && d.trail != [] && d.trail[0].Created?
    && d.version == 1 + Updates(d.trail)
    && SameContent(d.trail[|d.trail| - 1].snapshot, d.content)
    && SameLookups(Replay(d.trail), d.content)
    && (d.deleted <==> d.trail[|d.trail| - 1].Deleted?)
  }

  /** The number of updates missing from the trail. */
  function Drift(d: Doc): int {
    d.version - 1 - Updates(d.trail)
  }

  /** The trail is the whole story unless updates are missing from it. */
  ghost predicate Sound(d: Doc) {
    Drift(d) >= 0 && (Faithful(d) <==> Drift(d) == 0)
  }

  lemma CreatedSound(c: Content)
    ensures Sound(NewDoc(c)) && Drift(NewDoc(c)) == 0
  {
    var trail := NewDoc(c).trail;
    assert trail[..0] == [];
    assert Replay(trail) == c && Updates(trail) == 0;
  }

  lemma MergedSound(d: Doc, updates: Content)
    requires Sound(d) && !d.deleted
    ensures Sound(Merged(d, updates)) && Drift(Merged(d, updates)) == Drift(d)
  {
    assert Merged(d, updates).trail[..|d.trail|] == d.trail;
    if Faithful(d) { MergedFaithful(d, updates); }
  }

  lemma DeletedSound(d: Doc)
    requires Sound(d)
    ensures Sound(SoftDeleted(d)) && Drift(SoftDeleted(d)) == Drift(d)
  {
    assert SoftDeleted(d).trail[..|d.trail|] == d.trail;
    if Faithful(d) { DeletedFaithful(d); }
  }

  lemma SlippedSound(d: Doc, updates: Content)
    requires Sound(d)
    ensures Sound(Slipped(d, updates)) && Drift(Slipped(d, updates)) == Drift(d) + 1
  {
  }

  lemma SameContentExact(a: Content, b: Content)
    ensures SameContent(a, b) <==> a.Keys == b.Keys && forall f :: f in a && f in b ==> Same(a[f], b[f])
  {
    var x, y := Norm(Object(a)).fields, Norm(Object(b)).fields;
    assert x.Keys == a.Keys && y.Keys == b.Keys;
    assert SameContent(a, b) <==> x == y;
    assert forall f :: (f in a ==> x[f] == Norm(a[f])) && (f in b ==> y[f] == Norm(b[f]));
    if a.Keys == b.Keys && forall f :: f in a && f in b ==> Same(a[f], b[f]) {
      assert forall f :: f in x ==> x[f] == y[f];
    }
    if x == y {
      assert a.Keys == b.Keys;
    }
  }

  /** What is stored equals what was assigned. */
  lemma StoredSame(before: Content, after: Content)
    ensures SameContent(after, Stored(before, after)) && Stored(before, after).Keys == after.Keys
    ensures SameLookups(after, Stored(before, after))
  {
    hide Norm;
    SameContentExact(before, after);
    SameContentExact(after, Stored(before, after));
  }

  /** An equal content is not written, a different one is. */
  lemma EqualNotWritten(before: Content, after: Content)
    ensures (before.Keys == after.Keys && forall f :: f in before && f in after ==> Same(before[f], after[f])) ==>
      Stored(before, after) == before
    ensures before.Keys != after.Keys ==> Stored(before, after) == after
    ensures (exists f :: f in before && f in after && !Same(before[f], after[f])) ==> Stored(before, after) == after
  {
    SameContentExact(before, after);
    hide Norm, Same, SameContent;
  }

  /** Applying the recorded changes follows the assignment of the updates. */
  lemma ChangesFollow(replayed: Content, before: Content, updates: Content)
    requires SameLookups(replayed, before)
    ensures SameLookups(Applied(replayed, Changes(before, updates)), before + updates)
  {
    hide Norm;
    var after := Applied(replayed, Changes(before, updates));
    forall f
      ensures Same(Read(after, f), Read(before + updates, f))
    {
      assert Same(Read(replayed, f), Read(before, f));
    }
  }

  lemma SameLookupsTransitive(a: Content, b: Content, c: Content)
    requires SameLookups(a, b) && SameLookups(b, c)
    ensures SameLookups(a, c)
  {
    hide Norm, Read;
    forall f
      ensures Same(Read(a, f), Read(c, f))
    {
      assert Same(Read(a, f), Read(b, f)) && Same(Read(b, f), Read(c, f));
    }
  }

  lemma MergedFaithful(d: Doc, updates: Content)
    requires Faithful(d) && !d.deleted
    ensures Faithful(Merged(d, updates))
  {
    var m, changes, c := Merged(d, updates), Changes(d.content, updates), d.content + updates;
    assert m.trail[..|m.trail| - 1] == d.trail;
    StoredSame(d.content, c);
    ChangesFollow(Replay(d.trail), d.content, updates);
    SameLookupsTransitive(Applied(Replay(d.trail), changes), c, m.content);
    hide SameLookups, Stored, SameContent, Changes, Applied;
  }

  lemma DeletedFaithful(d: Doc)
    requires Faithful(d)
    ensures Faithful(SoftDeleted(d))
  {
    assert SoftDeleted(d).trail[..|d.trail|] == d.trail;
  }

  datatype DocOp = Update(updates: Content) | Delete | Slip(slipped: Content)

  /** What a call does to an existing row: updates see live rows only, deletes any. */
  function AfterOp(d: Doc, op: DocOp): Doc {
    match op
    case Update(u) => if d.deleted then d else Merged(d, u)
    case Delete => SoftDeleted(d)
    case Slip(u) => if d.deleted then d else Slipped(d, u)
  }

  function AfterOps(c: Content, ops: seq<DocOp>): Doc {
    if ops == [] then NewDoc(c) else AfterOp(AfterOps(c, ops[..|ops| - 1]), ops[|ops| - 1])
  }

  /** The updates of a live row that raised before their audit entry was made. */
  function Slips(c: Content, ops: seq<DocOp>): nat {
    if ops == [] then 0
    else
      var init, last := ops[..|ops| - 1], ops[|ops| - 1];
      Slips(c, init) + (if last.Slip? && !AfterOps(c, init).deleted then 1 else 0)
  }

  /**
   Over any run of updates and soft deletes, the trail determines version, content and
   lookups, exactly when no update of the row slipped through without an entry.
   */
  lemma {:induction false} TrailFaithful(c: Content, ops: seq<DocOp>)
    ensures Sound(AfterOps(c, ops)) && Drift(AfterOps(c, ops)) == Slips(c, ops)
    ensures Faithful(AfterOps(c, ops)) <==> Slips(c, ops) == 0
  {
    if ops == [] {
      CreatedSound(c);
    } else {
      var d := AfterOps(c, ops[..|ops| - 1]);
      TrailFaithful(c, ops[..|ops| - 1]);
      hide Faithful, Drift;
      match ops[|ops| - 1]
      case Update(u) => if !d.deleted { MergedSound(d, u); }
      case Delete => DeletedSound(d);
      case Slip(u) => if !d.deleted { SlippedSound(d, u); }
    }
  }

  // ---- Exactly what replay recovers ----

  /** The fields some update of the live row set to anything but `Null`. */
  function NonNull(c: Content, ops: seq<DocOp>): set<string> {
    if ops == [] then {}
    else
      var init, last := ops[..|ops| - 1], ops[|ops| - 1];
      NonNull(c, init)
        + (if last.Update? && !AfterOps(c, init).deleted then
             set f | f in last.updates && last.updates[f] != Null
           else {})
  }

  lemma {:induction false} NoSlips(c: Content, ops: seq<DocOp>)
    requires forall op :: op in ops ==> !op.Slip?
    ensures Slips(c, ops) == 0
  {
    if ops != [] { NoSlips(c, ops[..|ops| - 1]); }
  }

  lemma {:induction false} ReplayKeys(c: Content, ops: seq<DocOp>)
    requires forall op :: op in ops ==> !op.Slip?
    ensures Replay(AfterOps(c, ops).trail).Keys == c.Keys + NonNull(c, ops)
  {
    hide Faithful, Sound, Drift, Changes, Applied, Replay;
    if ops == [] {
      assert Replay(NewDoc(c).trail) == c by { ReplayCreated(c); }
    } else {
      var init, last := ops[..|ops| - 1], ops[|ops| - 1];
      var d := AfterOps(c, init);
      ReplayKeys(c, init);
      if last.Update? && !d.deleted {
        NoSlips(c, init);
        TrailFaithful(c, init);
        RecordedKeys(d, last.updates);
        ReplayNext(d.trail, Updated(Changes(d.content, last.updates), d.content + last.updates));
      } else if last.Delete? {
        ReplayNext(d.trail, Deleted(d.content));
      }
    }
  }

  lemma ReplayCreated(c: Content)
    ensures Replay([Created(c)]) == c
  {
  }

  lemma ReplayNext(trail: seq<Entry>, e: Entry)
    requires !e.Created?
    ensures Replay(trail + [e]) == if e.Updated? then Applied(Replay(trail), e.changes) else Replay(trail)
  {
    assert (trail + [e])[..|trail|] == trail;
  }

  /** A change is recorded for every field not already read as its new value. */
  lemma RecordedKeys(d: Doc, updates: Content)
    requires Faithful(d)
    ensures Applied(Replay(d.trail), Changes(d.content, updates)).Keys
      == Replay(d.trail).Keys + set f | f in updates && updates[f] != Null
  {
    var r, changes := Replay(d.trail), Changes(d.content, updates);
    SameNull();
    hide Norm;
    forall f
      ensures f in Applied(r, changes) <==> f in r || (f in updates && updates[f] != Null)
    {
      assert Same(Read(r, f), Read(d.content, f));
    }
  }

  lemma SameNull()
    ensures forall j :: Same(j, Null) || Same(Null, j) ==> j == Null
  {
  }

  /**
   Replaying the changes gives a dictionary equal to the content, not just one with equal
   lookups, exactly when every field was there at first or was once set to something.
   */
  lemma ReplayIsContentIff(c: Content, ops: seq<DocOp>)
    requires forall op :: op in ops ==> !op.Slip?
    ensures SameContent(Replay(AfterOps(c, ops).trail), AfterOps(c, ops).content)
      <==> forall f :: f in AfterOps(c, ops).content ==> f in c || f in NonNull(c, ops)
  {
    hide Norm, Same, AfterOps, NonNull, Replay;
    var r, content := Replay(AfterOps(c, ops).trail), AfterOps(c, ops).content;
    ReplayKeys(c, ops);
    NoSlips(c, ops);
    TrailFaithful(c, ops);
    ReplayedAreFields(c, ops);
    SameContentExact(r, content);
    assert SameLookups(r, content);
    hide Faithful, SameContent;
    if forall f :: f in content ==> f in c || f in NonNull(c, ops) {
      assert r.Keys == content.Keys;
      forall f | f in r && f in content
        ensures Same(r[f], content[f])
      {
        assert Same(Read(r, f), Read(content, f));
      }
    }
  }

  lemma {:induction false} ReplayedAreFields(c: Content, ops: seq<DocOp>)
    ensures c.Keys + NonNull(c, ops) <= AfterOps(c, ops).content.Keys
  {
    hide Stored;
    if ops != [] {
      var init, last := ops[..|ops| - 1], ops[|ops| - 1];
      ReplayedAreFields(c, init);
      var content := AfterOps(c, init).content;
      match last
      case Update(u) => StoredSame(content, content + u);
      case Slip(u) => StoredSame(content, content + u);
      case Delete =>
    }
  }

  /** So a new field set to `Null` and never to anything else is missing from the replay. */
  lemma ReplayCanLackNullFields(c: Content, f: string)
    requires f !in c
    ensures var d := AfterOps(c, [Update(map[f := Null])]);
      f in d.content && !SameContent(Replay(d.trail), d.content) && SameLookups(Replay(d.trail), d.content)
  {
    var u: Content := map[f := Null];
    var ops := [Update(u)];
    assert ops[..0] == [];
    assert AfterOps(c, []) == NewDoc(c) && NonNull(c, []) == {} && Slips(c, []) == 0;
    TrailFaithful(c, ops);
    ReplayIsContentIff(c, ops);
    StoredSame(c, c + u);
    assert AfterOps(c, ops) == Merged(NewDoc(c), u);
    assert f in AfterOps(c, ops).content && f !in NonNull(c, ops);
  }

  // ---- The session ----

  /** How a database call fails, if it does: at its first query, at the commit, or after it. */
  datatype Fault = NoFault | Early | AtCommit | AfterCommit

  datatype CallResult<T> = Raised | Returned(value: T)

  /** The table; the rows changed in the session and not yet written; whether the session still works. */
  datatype Db = Db(docs: Table, pending: Table, usable: bool)

  function Seen(db: Db, id: string): Option<Doc> {
    if id in db.pending then Some(db.pending[id]) else if id in db.docs then Some(db.docs[id]) else None
  }

  /** A commit writes everything pending along with its own row. */
  function Committed(db: Db, id: string, d: Doc): Db {
    Db((db.docs + db.pending)[id := d], map[], true)
  }

  /** A failed commit drops what is pending; the session must be closed before anything else works. */
  function RolledBack(db: Db): Db {
    Db(db.docs, map[], false)
  }

  function Written(db: Db, id: string, d: Doc, fault: Fault): (Db, bool) {
    match fault
    case AtCommit => (RolledBack(db), false)
    case AfterCommit => (Committed(db, id, d), false)
    case _ => (Committed(db, id, d), true)
  }

  /** A second row for the same id violates the uniqueness constraint, whether or not the first is deleted. */
  function AfterCreate(db: Db, id: string, content: Content, fault: Fault): (Db, CallResult<Doc>) {
    if !db.usable || fault.Early? then (db, Raised)
    else if id in db.docs then (RolledBack(db), Raised)
    else
      var (db', ok) := Written(db, id, NewDoc(content), fault);
      (db', if ok then Returned(NewDoc(content)) else Raised)
  }

  function Got(db: Db, id: string, fault: Fault): CallResult<Option<Doc>> {
    if !db.usable || !fault.NoFault? then Raised
    else if LiveIn(db.docs, id) then Returned(Seen(db, id))
    else Returned(None)
  }

  function AfterUpdate(db: Db, id: string, updates: Content, fault: Fault): (Db, CallResult<Option<Doc>>) {
    if !db.usable || fault.Early? then (db, Raised)
    else if !LiveIn(db.docs, id) then (db, Returned(None))
    else
      var d := Seen(db, id).value;
      if TagsRaise(updates) then (db.(pending := db.pending[id := Slipped(d, updates)]), Raised)
      else
        var (db', ok) := Written(db, id, Merged(d, updates), fault);
        (db', if ok then Returned(Some(Merged(d, updates))) else Raised)
  }

  function AfterDelete(db: Db, id: string, fault: Fault): (Db, CallResult<bool>) {
    if !db.usable || fault.Early? then (db, Raised)
    else if id !in db.docs then (db, Returned(false))
    else
      var (db', ok) := Written(db, id, SoftDeleted(Seen(db, id).value), fault);
      (db', if ok then Returned(true) else Raised)
  }

  // ---- What the calls mean together ----

  /** A content's field after an update, for the caller. */
  lemma StoredField(before: Content, updates: Content, f: string)
    ensures var stored := Stored(before, before + updates);
      && (f in stored <==> f in before || f in updates)
      && (f in updates ==> Same(stored[f], updates[f]) && (updates[f].Text? ==> stored[f] == updates[f]))
      && (f in before && f !in updates ==> stored[f] == before[f])
  {
    var after := before + updates;
    SameContentExact(before, after);
    if f in before && f in after { SameExact(before[f], after[f]); }
  }

  /**
   A successful update: every given field is then in the row, a text literally, and every
   other field as it was; the audit entry has a change, from the old value to the new,
   for exactly the given fields whose old value was not the same.
   */
  lemma UpdateExact(db: Db, id: string, updates: Content, f: string)
    requires db.usable && LiveIn(db.docs, id) && !TagsRaise(updates)
    ensures var before := Seen(db, id).value;
      var (db', r) := AfterUpdate(db, id, updates, NoFault);
      && id in db'.docs && r == Returned(Some(db'.docs[id])) && db'.usable && LiveIn(db'.docs, id) == !before.deleted
      && (var d := db'.docs[id];
          && d.version == before.version + 1 && |d.trail| == |before.trail| + 1 && d.trail[|before.trail|].Updated?
          && (f in d.content <==> f in before.content || f in updates)
          && (f in updates ==>
               Same(d.content[f], updates[f]) && (updates[f].Text? ==> d.content[f] == updates[f]))
          && (f in before.content && f !in updates ==> d.content[f] == before.content[f])
          && (var old_ := if f in before.content then before.content[f] else Null;
              && (f in d.trail[|before.trail|].changes <==> f in updates && !Same(old_, updates[f]))
              && (f in updates && updates[f].Text? ==>
                   (f in d.trail[|before.trail|].changes <==> old_ != updates[f]))
              && (f in d.trail[|before.trail|].changes ==>
                   d.trail[|before.trail|].changes[f] == Change(old_, updates[f]))))
  {
    var before := Seen(db, id).value;
    StoredField(before.content, updates, f);
    if f in updates { SameExact(Read(before.content, f), updates[f]); }
    hide Norm, Same, Stored, SameContent, TagsRaise;
  }

  /** What is created is what is read. */
  lemma CreateThenGet(db: Db, id: string, content: Content)
    requires db.usable
    ensures var (db', r) := AfterCreate(db, id, content, NoFault);
      if id in db.docs then r == Raised && db'.docs == db.docs && db'.pending == map[] && !db'.usable
      else
        && r.Returned? && r.value.content == content && r.value.version == 1 && !r.value.deleted
        && r.value.trail == [Created(content)] && Got(db', id, NoFault) == Returned(Some(r.value))
  {
  }

  /** What is deleted is not read, keeps its content and version, and is no longer updated. */
  lemma DeleteThenGet(db: Db, id: string, updates: Content)
    requires db.usable
    ensures var (db', r) := AfterDelete(db, id, NoFault);
      && r == Returned(id in db.docs) && (id !in db.docs ==> db' == db)
      && Got(db', id, NoFault) == Returned(None)
      && AfterUpdate(db', id, updates, NoFault) == (db', Returned(None))
      && (id in db.docs ==>
           var before := Seen(db, id).value;
           && id in db'.docs && db'.docs[id].deleted
           && db'.docs[id].content == before.content && db'.docs[id].version == before.version
           && db'.docs[id].trail == before.trail + [Deleted(before.content)])
  {
    hide TagsRaise;
  }

  /** A write that fails at the commit writes nothing; one that fails later has written. */
  lemma FaultsMean(db: Db, id: string, d: Doc)
    ensures Written(db, id, d, NoFault) == (Committed(db, id, d), true)
    ensures Written(db, id, d, AfterCommit) == (Committed(db, id, d), false)
    ensures var (db', ok) := Written(db, id, d, AtCommit);
      !ok && db'.docs == db.docs && db'.pending == map[] && !db'.usable
    ensures var db' := Committed(db, id, d);
      && id in db'.docs && db'.docs[id] == d && db'.pending == map[] && db'.usable
      && forall x :: x != id ==>
           && (x in db'.docs <==> x in db.docs || x in db.pending)
           && (x in db'.docs ==> db'.docs[x] == if x in db.pending then db.pending[x] else db.docs[x])
  {
  }

  /** An unusable session raises on every call and changes nothing, until it ends. */
  lemma UnusableRaises(db: Db, id: string, content: Content, fault: Fault)
    requires !db.usable || fault.Early?
    ensures AfterCreate(db, id, content, fault) == (db, Raised)
    ensures AfterUpdate(db, id, content, fault) == (db, Raised)
    ensures AfterDelete(db, id, fault) == (db, Raised)
    ensures Got(db, id, fault) == Raised
    ensures Ended(db, false).usable && Ended(db, false).docs == db.docs && Ended(db, false).pending == map[]
  {
    hide TagsRaise;
  }

  /** Tags raise exactly when they are a list with something that is no text. */
  lemma TagsRaiseExact(updates: Content, tags: Json)
    ensures TagsRaise(updates["tags" := tags]) <==> tags.Array? && exists t :: t in tags.items && !t.Text?
    ensures !TagsRaise(updates - {"tags"})
  {
    if tags.Array? && exists t :: t in tags.items && !t.Text? {
      var t :| t in tags.items && !t.Text?;
      var i :| 0 <= i < |tags.items| && tags.items[i] == t;
      assert !updates["tags" := tags]["tags"].items[i].Text?;
    }
  }

  /** The session ends with a commit of its own, or is just closed. */
  function Ended(db: Db, commits: bool): Db {
    Db(if commits && db.usable then db.docs + db.pending else db.docs, map[], true)
  }

  class DomainCRUD {
    var docs: Table
    var pending: Table
    var usable: bool

    function State(): Db
      reads this
    {
      Db(docs, pending, usable)
    }

    constructor ()
      ensures State() == Db(map[], map[], true)
    {
      docs, pending, usable := map[], map[], true;
    }

    method Create(id: string, content: Content, fault: Fault) returns (r: CallResult<Doc>)
      modifies this
      ensures (State(), r) == AfterCreate(old(State()), id, content, fault)
    {
      if !usable || fault.Early? {
        return Raised;
      }
      var ok := false;
      if id in docs {
        Rollback();
      } else {
        ok := Commit(id, NewDoc(content), fault);
      }
      r := if ok then Returned(docs[id]) else Raised;
    }

    method Get(id: string, fault: Fault) returns (r: CallResult<Option<Doc>>)
      ensures r == Got(State(), id, fault)
    {
      if !usable || !fault.NoFault? {
        return Raised;
      }
      r := Returned(if id in docs && !docs[id].deleted then Seen(State(), id) else None);
    }

    method Update(id: string, updates: Content, fault: Fault) returns (r: CallResult<Option<Doc>>)
      modifies this
      ensures (State(), r) == AfterUpdate(old(State()), id, updates, fault)
    {
      if !usable || fault.Early? {
        return Raised;
      }
      if id !in docs || docs[id].deleted {
        return Returned(None);
      }
      var doc := if id in pending then pending[id] else docs[id];
      var before := doc.content;
      var merged := before + updates;
      if TagsRaise(updates) {
        pending := pending[id := doc.(content := Stored(before, merged), version := doc.version + 1)];
        return Raised;
      }
      var changes := Compared(before, updates);
      var trail := doc.trail + [Updated(changes, merged)];
      var ok := Commit(id, Doc(Stored(before, merged), doc.version + 1, doc.deleted, trail), fault);
      r := if ok then Returned(Some(docs[id])) else Raised;
    }

    /** The fields whose value changes, with the old and the new value. */
    static method Compared(before: Content, updates: Content) returns (changes: map<string, Change>)
      ensures changes == Changes(before, updates)
    {
      changes := map[];
      var rest := updates.Keys;
      while rest != {}
        invariant rest <= updates.Keys
        invariant changes ==
          map f | f in updates && f !in rest &&
            !Same(Read(before, f), updates[f]) :: Change(Read(before, f), updates[f])
        decreases rest
      {
        var f :| f in rest;
        var value := Read(before, f);
        if !Same(value, updates[f]) {
          changes := changes[f := Change(value, updates[f])];
        }
        rest := rest - {f};
      }
    }

    method Delete(id: string, fault: Fault) returns (r: CallResult<bool>)
      modifies this
      ensures (State(), r) == AfterDelete(old(State()), id, fault)
    {
      if !usable || fault.Early? {
        return Raised;
      }
      if id !in docs {
        return Returned(false);
      }
      var doc := if id in pending then pending[id] else docs[id];
      var ok := Commit(id, doc.(deleted := true, trail := doc.trail + [Deleted(doc.content)]), fault);
      r := if ok then Returned(true) else Raised;
    }

    method Commit(id: string, d: Doc, fault: Fault) returns (ok: bool)
      requires usable
      modifies this
      ensures (State(), ok) == Written(old(State()), id, d, fault)
      ensures ok ==> id in docs && docs[id] == d
    {
      if fault.AtCommit? {
        Rollback();
        return false;
      }
      docs := (docs + pending)[id := d];
      pending := map[];
      ok := !fault.AfterCommit?;
    }

    method Rollback()
      modifies this
      ensures State() == RolledBack(old(State()))
    {
      pending, usable := map[], false;
    }

    method EndSession(commits: bool)
      modifies this
      ensures State() == Ended(old(State()), commits)
    {
      if commits && usable {
        docs := docs + pending;
      }
      pending, usable := map[], true;
    }
  }
}
