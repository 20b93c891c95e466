/**
 Version timelines over a shared table of snapshots.  New snapshot ids are arguments, so
 that what happens when a truncated id repeats can be stated too.
 */
module VersionHistory {
  import opened Prelude

  datatype EntityType = File | Project | Config | Deployment | UserSetting | ApiKey | Template

  datatype ChangeType = Create | Update | Delete | Rename | Move | Restore | Merge | Revert

  /** Identifies a timeline: entity type and entity id. */
  type Key = (EntityType, string)

  datatype Entry = Entry(version: int, kind: ChangeType, snapshot: string, previous: Option<string>)

  datatype Timeline = Timeline(name: string, entries: seq<Entry>, current: int)

  datatype State<C> = State(timelines: map<Key, Timeline>, snapshots: map<string, C>)

  function TimelineOf<C>(st: State<C>, key: Key, name: string): Timeline {
    if key in st.timelines then st.timelines[key] else Timeline(name, [], 0)
  }

  /** The snapshot of the last entry, if any. */
  function Latest(entries: seq<Entry>): Option<string> {
    if entries == [] then None else Some(entries[|entries| - 1].snapshot)
  }

  /** A timeline extended by its next entry. */
  function Extended(t: Timeline, kind: ChangeType, id: string): Timeline {
    t.(entries := t.entries + [Entry(t.current + 1, kind, id, Latest(t.entries))], current := t.current + 1)
  }

  function Saved<C>(st: State<C>, key: Key, name: string, content: C, kind: ChangeType, id: string): State<C> {
    State(st.timelines[key := Extended(TimelineOf(st, key, name), kind, id)], st.snapshots[id := content])
  }

  /** What is left of a save whose content cannot be serialised: the timeline, empty if it is new. */
  function Opened<C>(st: State<C>, key: Key, name: string): State<C> {
    st.(timelines := st.timelines[key := TimelineOf(st, key, name)])
  }

  /** Linear search for an entry's version number. */
  function Search(entries: seq<Entry>, version: int): Option<Entry> {
    if entries == [] then None
    else if entries[0].version == version then Some(entries[0])
    else Search(entries[1..], version)
  }

  function SnapshotOf<C>(st: State<C>, e: Option<Entry>): Option<C> {
    if e.Some? && e.value.snapshot in st.snapshots then Some(st.snapshots[e.value.snapshot]) else None
  }

  /** The content of a version; without a version, of the latest. */
  function Get<C>(st: State<C>, key: Key, version: Option<int>): Option<C> {
    if key !in st.timelines || st.timelines[key].entries == [] then None
    else
      var es := st.timelines[key].entries;
      SnapshotOf(st, if version.None? then Some(es[|es| - 1]) else Search(es, version.value))
  }

  function BranchKey(key: Key, branch: string): Key {
    (key.0, key.1 + ":branch:" + branch)
  }

  datatype Op<C> =
    | Save(key: Key, name: string, content: C, kind: ChangeType)
    | FailedSave(key: Key, name: string)
    | Rollback(key: Key, target: int)
    | Branch(key: Key, branch: string, from: Option<int>)

  /** What an operation saves, and where; nothing when its source version does not exist. */
  function Saves<C>(st: State<C>, op: Op<C>): Option<(Key, string, C, ChangeType)> {
    match op
    case Save(key, name, content, kind) => Some((key, name, content, kind))
    case FailedSave(_, _) => None
    case Rollback(key, target) =>
      (match Get(st, key, Some(target))
       case None => None
       case Some(c) => Some((key, st.timelines[key].name, c, Revert)))
    case Branch(key, branch, from) =>
      (match Get(st, key, from)
       case None => None
       case Some(c) => Some((BranchKey(key, branch), st.timelines[key].name + " (" + branch + ")", c, Create)))
  }

  function Step<C>(st: State<C>, op: Op<C>, id: string): State<C> {
    match Saves(st, op)
    case None => if op.FailedSave? then Opened(st, op.key, op.name) else st
    case Some((key, name, content, kind)) => Saved(st, key, name, content, kind, id)
  }

  // ---- Timelines ----

  /** Versions are `1..n`, and each entry names the snapshot of the one before. */
  ghost predicate Linked(t: Timeline) {
    && t.current == |t.entries|
    && (forall i :: 0 <= i < |t.entries| ==> t.entries[i].version == i + 1)
    && (forall i :: 0 <= i < |t.entries| ==> t.entries[i].previous == Latest(t.entries[..i]))
  }

  ghost predicate Referenced<C>(st: State<C>, id: string) {
    exists key, i :: key in st.timelines && 0 <= i < |st.timelines[key].entries| &&
      st.timelines[key].entries[i].snapshot == id
  }

  /** All timelines are linked, and the snapshot table holds exactly the snapshots they refer to. */
  ghost predicate Valid<C>(st: State<C>) {
    && (forall key :: key in st.timelines ==> Linked(st.timelines[key]))
    && (forall id :: id in st.snapshots <==> Referenced(st, id))
  }

  lemma LinkedSnoc(t: Timeline, kind: ChangeType, id: string)
    requires Linked(t)
    ensures Linked(Extended(t, kind, id))
  {
    var t' := Extended(t, kind, id);
    forall i | 0 <= i < |t'.entries|
      ensures t'.entries[i].version == i + 1 && t'.entries[i].previous == Latest(t'.entries[..i])
    {
      assert t'.entries[..i] == t.entries[..i];
      assert t.entries[..|t.entries|] == t.entries;
    }
  }

  /** Saving refers to the new snapshot, and to all that were referred to before. */
  lemma SavedReferences<C>(st: State<C>, key: Key, name: string, content: C, kind: ChangeType, id: string, x: string)
    ensures Referenced(Saved(st, key, name, content, kind, id), x) <==> x == id || Referenced(st, x)
  {
    hide Latest;
    var st', es := Saved(st, key, name, content, kind, id), TimelineOf(st, key, name).entries;
    var es' := st'.timelines[key].entries;
    assert es'[|es|].snapshot == id;
    if Referenced(st, x) {
      var k, i :| k in st.timelines && 0 <= i < |st.timelines[k].entries| && st.timelines[k].entries[i].snapshot == x;
      assert st'.timelines[k].entries[i].snapshot == x;
    }
    if Referenced(st', x) && x != id {
      var k, i :| k in st'.timelines && 0 <= i < |st'.timelines[k].entries| &&
        st'.timelines[k].entries[i].snapshot == x;
      assert k != key ==> st.timelines[k].entries[i].snapshot == x;
      assert k == key ==> i < |es| && st.timelines[k].entries[i].snapshot == x;
    }
  }

  lemma SavedValid<C>(st: State<C>, key: Key, name: string, content: C, kind: ChangeType, id: string)
    requires Valid(st)
    ensures Valid(Saved(st, key, name, content, kind, id))
  {
    var st', t := Saved(st, key, name, content, kind, id), TimelineOf(st, key, name);
    assert Linked(t);
    LinkedSnoc(t, kind, id);
    hide Linked, Latest, Referenced;
    forall x
      ensures x in st'.snapshots <==> Referenced(st', x)
    {
      SavedReferences(st, key, name, content, kind, id, x);
    }
  }

  /** A failed save changes nothing that can be read. */
  lemma OpenedReads<C>(st: State<C>, key: Key, name: string)
    ensures Valid(st) ==> Valid(Opened(st, key, name))
    ensures key in Opened(st, key, name).timelines
    ensures key !in st.timelines ==>
      Opened(st, key, name).timelines[key].entries == [] && Opened(st, key, name).timelines[key].name == name
    ensures forall k, v :: Get(Opened(st, key, name), k, v) == Get(st, k, v)
  {
    hide Search, Latest;
    var st' := Opened(st, key, name);
    assert forall id :: Referenced(st', id) <==> Referenced(st, id) by { SameReferences(st, key, name); }
  }

  lemma SameReferences<C>(st: State<C>, key: Key, name: string)
    ensures forall id :: Referenced(Opened(st, key, name), id) <==> Referenced(st, id)
  {
    var st' := Opened(st, key, name);
    assert forall k :: k in st.timelines ==> k in st'.timelines && st'.timelines[k] == st.timelines[k];
    assert forall k :: k in st'.timelines && k !in st.timelines ==> st'.timelines[k].entries == [];
  }

  lemma StepValid<C>(st: State<C>, op: Op<C>, id: string)
    requires Valid(st)
    ensures Valid(Step(st, op, id))
  {
    match Saves(st, op)
    case None => if op.FailedSave? { OpenedReads(st, op.key, op.name); }
    case Some((key, name, content, kind)) => SavedValid(st, key, name, content, kind, id);
  }

  lemma {:induction false} SearchIndex(entries: seq<Entry>, first: int, version: int)
    requires forall i :: 0 <= i < |entries| ==> entries[i].version == first + i
    ensures Search(entries, version)
      == if first <= version < first + |entries| then Some(entries[version - first]) else None
  {
    if entries != [] && entries[0].version != version {
      assert forall i :: 0 <= i < |entries[1..]| ==> entries[1..][i] == entries[i + 1];
      SearchIndex(entries[1..], first + 1, version);
    }
  }

  /** The linear search is direct indexing. */
  lemma GetIsIndexing<C>(st: State<C>, key: Key, version: int)
    requires Valid(st)
    ensures Get(st, key, Some(version))
      == if key in st.timelines && 1 <= version <= |st.timelines[key].entries|
         then Some(st.snapshots[st.timelines[key].entries[version - 1].snapshot]) else None
  {
    if key in st.timelines {
      assert Linked(st.timelines[key]);
      SearchIndex(st.timelines[key].entries, 1, version);
      if 1 <= version <= |st.timelines[key].entries| {
        assert Referenced(st, st.timelines[key].entries[version - 1].snapshot);
      }
    }
  }

  // ---- Immutability ----

  /** Every version that existed before reads the same after. */
  ghost predicate HistoryKept<C(!new)>(st: State<C>, st': State<C>) {
    forall key, v :: Get(st, key, Some(v)).Some? ==> Get(st', key, Some(v)) == Get(st, key, Some(v))
  }

  /** Saving keeps all earlier versions exactly when the new id is unused, or its snapshot has the same content. */
  lemma SaveKeepsHistoryIff<C(!new)>(st: State<C>, key: Key, name: string, content: C, kind: ChangeType, id: string)
    requires Valid(st)
    ensures HistoryKept(st, Saved(st, key, name, content, kind, id)) <==>
      (id in st.snapshots ==> st.snapshots[id] == content)
  {
    hide Linked, Latest, Get, Search;
    var st' := Saved(st, key, name, content, kind, id);
    SavedValid(st, key, name, content, kind, id);
    if id in st.snapshots ==> st.snapshots[id] == content {
      forall k, v | Get(st, k, Some(v)).Some?
        ensures Get(st', k, Some(v)) == Get(st, k, Some(v))
      {
        GetIsIndexing(st, k, v);
        GetIsIndexing(st', k, v);
      }
    } else {
      var k, i :| k in st.timelines && 0 <= i < |st.timelines[k].entries| && st.timelines[k].entries[i].snapshot == id;
      GetIsIndexing(st, k, i + 1);
      GetIsIndexing(st', k, i + 1);
      assert Get(st, k, Some(i + 1)).Some?;
    }
  }

  // ---- Runs with fresh ids ----

  datatype Action<C> = Action(op: Op<C>, id: string)

  function After<C>(st: State<C>, run: seq<Action<C>>): State<C>
    decreases |run|
  {
    if run == [] then st else After(Step(st, run[0].op, run[0].id), run[1..])
  }

  ghost predicate FreshIds<C>(st: State<C>, run: seq<Action<C>>)
    decreases |run|
  {
    run == [] || (run[0].id !in st.snapshots && FreshIds(Step(st, run[0].op, run[0].id), run[1..]))
  }

  lemma StepKeepsHistory<C(!new)>(st: State<C>, op: Op<C>, id: string)
    requires Valid(st) && id !in st.snapshots
    ensures HistoryKept(st, Step(st, op, id))
  {
    match Saves(st, op)
    case None => if op.FailedSave? { OpenedReads(st, op.key, op.name); }
    case Some((key, name, content, kind)) => SaveKeepsHistoryIff(st, key, name, content, kind, id);
  }

  /** No later save, rollback or branch changes what any existing version reads. */
  lemma {:induction false} VersionsAreImmutable<C(!new)>(st: State<C>, run: seq<Action<C>>)
    requires Valid(st) && FreshIds(st, run)
    ensures Valid(After(st, run)) && HistoryKept(st, After(st, run))
    decreases |run|
  {
    if run != [] {
      var st' := Step(st, run[0].op, run[0].id);
      StepValid(st, run[0].op, run[0].id);
      StepKeepsHistory(st, run[0].op, run[0].id);
      VersionsAreImmutable(st', run[1..]);
      hide Get;
      forall key, v | Get(st, key, Some(v)).Some?
        ensures Get(After(st, run), key, Some(v)) == Get(st, key, Some(v))
      {
        assert Get(st', key, Some(v)) == Get(st, key, Some(v));
      }
    }
  }

  lemma SavedIsLatest<C>(st: State<C>, key: Key, name: string, content: C, kind: ChangeType, id: string)
    ensures Get(Saved(st, key, name, content, kind, id), key, None) == Some(content)
  {
  }

  /** A rollback adds one version, whose content is the target's; the target still reads the same. */
  lemma RollbackRestores<C>(st: State<C>, key: Key, target: int, id: string)
    requires Valid(st) && Get(st, key, Some(target)).Some?
    ensures var st' := Step(st, Rollback(key, target), id);
      && Get(st', key, None) == Get(st, key, Some(target)) == Get(st', key, Some(target))
      && |st'.timelines[key].entries| == |st.timelines[key].entries| + 1
      && st'.timelines[key].entries[|st.timelines[key].entries|].kind == Revert
  {
    var c, name := Get(st, key, Some(target)).value, st.timelines[key].name;
    var st' := Step(st, Rollback(key, target), id);
    SavedIsLatest(st, key, name, c, Revert, id);
    SavedValid(st, key, name, c, Revert, id);
    GetIsIndexing(st, key, target);
    GetIsIndexing(st', key, target);
  }

  /**
   A branch leaves every timeline but its own alone, in particular its source, and starts
   from the source's content.
   */
  lemma BranchLeavesSource<C>(st: State<C>, key: Key, branch: string, from: Option<int>, id: string)
    ensures var st' := Step(st, Branch(key, branch, from), id);
      && BranchKey(key, branch) != key
      && (forall k :: k != BranchKey(key, branch) ==> (k in st'.timelines <==> k in st.timelines))
      && (forall k :: k in st.timelines && k != BranchKey(key, branch) ==> st'.timelines[k] == st.timelines[k])
      && (Get(st, key, from).Some? ==> Get(st', BranchKey(key, branch), None) == Get(st, key, from))
      && (Get(st, key, from).None? ==> st' == st)
  {
    assert |BranchKey(key, branch).1| > |key.1|;
    if Get(st, key, from).Some? {
      SavedIsLatest(st, BranchKey(key, branch), st.timelines[key].name + " (" + branch + ")", Get(st, key, from).value,
        Create, id);
    }
  }

  lemma Overwrite(m: map<Key, Timeline>, key: Key, a: Timeline, b: Timeline)
    ensures m[key := a][key := b] == m[key := b]
  {
  }

  // ---- The object ----

  class VersionHistoryManager<C> {
    var timelines: map<Key, Timeline>
    var snapshots: map<string, C>

    ghost function Current(): State<C>
      reads this
    {
      State(timelines, snapshots)
    }

    constructor ()
      ensures Current() == State(map[], map[]) && Valid(Current())
    {
      timelines, snapshots := map[], map[];
    }

    /** `serialises` says whether the content can be; if not, the call raises halfway. */
    method SaveVersion(key: Key, name: string, content: C, kind: ChangeType, id: string, serialises: bool)
      requires Valid(Current())
      modifies this
      ensures Valid(Current())
      ensures Current() ==
        if serialises then Saved(old(Current()), key, name, content, kind, id) else Opened(old(Current()), key, name)
    {
      SavedValid(Current(), key, name, content, kind, id);
      OpenedReads(Current(), key, name);
      hide Valid, Referenced, Linked, Get, TimelineOf, Extended, Latest;
      GetOrCreateTimeline(key, name);
      if !serialises {
        return;
      }
      snapshots := snapshots[id := content];
      AppendEntry(key, kind, id);
      Overwrite(old(timelines), key, TimelineOf(old(Current()), key, name), timelines[key]);
    }

    method AppendEntry(key: Key, kind: ChangeType, id: string)
      requires key in timelines
      modifies this`timelines
      ensures timelines == old(timelines)[key := Extended(old(timelines)[key], kind, id)]
    {
      var t := timelines[key];
      var previous := None;
      if t.entries != [] {
        previous := Some(t.entries[|t.entries| - 1].snapshot);
      }
      var current := t.current + 1;
      timelines := timelines[key := Timeline(t.name, t.entries + [Entry(current, kind, id, previous)], current)];
    }

    method GetOrCreateTimeline(key: Key, name: string)
      modifies this`timelines
      ensures timelines == old(timelines)[key := TimelineOf(old(Current()), key, name)]
    {
      if key !in timelines {
        timelines := timelines[key := Timeline(name, [], 0)];
      }
      assert key in old(timelines) ==> old(timelines)[key := old(timelines)[key]] == old(timelines);
    }

    method FindEntry(entries: seq<Entry>, version: int) returns (e: Option<Entry>)
      ensures e == Search(entries, version)
    {
      for i := 0 to |entries|
        invariant Search(entries, version) == Search(entries[i..], version)
      {
        if entries[i].version == version {
          return Some(entries[i]);
        }
        assert entries[i..][1..] == entries[i + 1..];
      }
      e := None;
    }

    method GetVersion(key: Key, version: Option<int>) returns (c: Option<C>)
      ensures c == Get(Current(), key, version)
    {
      if key !in timelines || timelines[key].entries == [] {
        return None;
      }
      var entries := timelines[key].entries;
      var e := Some(entries[|entries| - 1]);
      if version.Some? {
        e := FindEntry(entries, version.value);
      }
      if e.None? || e.value.snapshot !in snapshots {
        return None;
      }
      c := Some(snapshots[e.value.snapshot]);
    }

    method RollbackTo(key: Key, target: int, id: string) returns (ok: bool)
      requires Valid(Current())
      modifies this
      ensures Valid(Current())
      ensures Current() == Step(old(Current()), Rollback(key, target), id)
      ensures ok == Get(old(Current()), key, Some(target)).Some?
    {
      hide Valid;
      if key !in timelines {
        return false;
      }
      var e := FindEntry(timelines[key].entries, target);
      if e.None? || e.value.snapshot !in snapshots {
        return false;
      }
      SaveVersion(key, timelines[key].name, snapshots[e.value.snapshot], Revert, id, true);
      ok := true;
    }

    method CreateBranch(key: Key, branch: string, from: Option<int>, id: string) returns (ok: bool)
      requires Valid(Current())
      modifies this
      ensures Valid(Current())
      ensures Current() == Step(old(Current()), Branch(key, branch, from), id)
      ensures ok == Get(old(Current()), key, from).Some?
    {
      hide Valid;
      var c := GetVersion(key, from);
      if c.None? {
        return false;
      }
      SaveVersion(BranchKey(key, branch), timelines[key].name + " (" + branch + ")", c.value, Create, id, true);
      ok := true;
    }
  }

  // ---- What the entries say ----

  /** In a valid state a timeline's entries are numbered from 1, and each names the snapshot before it. */
  lemma EntriesMean<C>(st: State<C>, key: Key, i: nat)
    requires Valid(st) && key in st.timelines && i < |st.timelines[key].entries|
    ensures var es := st.timelines[key].entries;
      && es[i].version == i + 1 && es[i].snapshot in st.snapshots
      && es[i].previous == (if i == 0 then None else Some(es[i - 1].snapshot))
  {
    var es := st.timelines[key].entries;
    assert Linked(st.timelines[key]);
    assert es[..i] != [] ==> es[..i][i - 1] == es[i - 1];
    assert Referenced(st, es[i].snapshot);
  }

  /** A save adds its entry, of its kind, to its own timeline, which keeps the name it has. */
  lemma SaveAdds<C>(st: State<C>, key: Key, name: string, content: C, kind: ChangeType, id: string)
    requires Valid(st)
    ensures var st' := Saved(st, key, name, content, kind, id);
      var es := if key in st.timelines then st.timelines[key].entries else [];
      && st'.timelines.Keys == st.timelines.Keys + {key} && st'.snapshots == st.snapshots[id := content]
      && (forall k :: k in st.timelines && k != key ==> st'.timelines[k] == st.timelines[k])
      && st'.timelines[key].name == (if key in st.timelines then st.timelines[key].name else name)
      && |st'.timelines[key].entries| == |es| + 1 && st'.timelines[key].entries[..|es|] == es
      && st'.timelines[key].entries[|es|].kind == kind && st'.timelines[key].entries[|es|].snapshot == id
  {
  }

  /** Branches of one entity have timelines of their own. */
  lemma BranchesDiffer(key: Key, a: string, b: string)
    requires a != b
    ensures BranchKey(key, a) != BranchKey(key, b) && BranchKey(key, a) != key
  {
    var prefix := key.1 + ":branch:";
    var x, y := BranchKey(key, a).1, BranchKey(key, b).1;
    assert x == prefix + a && y == prefix + b;
    assert x[|prefix|..] == a && y[|prefix|..] == b;
    assert |x| > |key.1|;
  }

  /** A branch is a creation, named after its source and itself; a rollback is a reversion under the same name. */
  lemma BranchAndRollbackKinds<C>(st: State<C>, key: Key, branch: string, from: Option<int>, target: int, id: string)
    requires Valid(st)
    ensures Get(st, key, from).Some? && BranchKey(key, branch) !in st.timelines ==>
      var t := Step(st, Branch(key, branch, from), id).timelines[BranchKey(key, branch)];
      |t.entries| == 1 && t.entries[0].kind == Create && t.name == st.timelines[key].name + " (" + branch + ")"
    ensures Get(st, key, Some(target)).Some? ==>
      var t := Step(st, Rollback(key, target), id).timelines[key];
      t.entries[|t.entries| - 1].kind == Revert && t.name == st.timelines[key].name
  {
  }
}
