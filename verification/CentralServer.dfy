/** The central server adapter itself: its dicts, its event log, its two stores, and whole runs of it. */
module CentralServer {
  import opened Wrappers
  import opened Sorting
  import opened Reconciliation

  datatype ReconcileError = RecordRefused | SubscriberFailed

  // ------------------------------------------------------- the report

  datatype Difference = New | Same | Changed

  function Classify(previous: State, e: Entity): Difference {
    if KeyOf(e) !in previous then New else if previous[KeyOf(e)] == e then Same else Changed
  }

  /** The ids of the records of one class, in the order of processing. */
  function Select(previous: State, records: seq<Entity>, class_: Difference): seq<Id> {
    if records == [] then [] else
      var e := records[|records| - 1];
      Select(previous, records[..|records| - 1], class_) + if Classify(previous, e) == class_ then [e.id] else []
  }

  function Gone(kind: Kind, ids: seq<Id>, incoming: State): seq<Id> {
    if ids == [] then [] else
      Gone(kind, ids[..|ids| - 1], incoming) + if Key(kind, ids[|ids| - 1]) in incoming then [] else [ids[|ids| - 1]]
  }

  function ReportOf(previous: State, kind: Kind, snapshot: seq<Entity>, initial: bool): Report {
    var sorted := Sort(EntityLe, snapshot);
    Report(initial, Select(previous, sorted, New), Gone(kind, SortedKnown(previous, kind), Incoming(snapshot)),
           Select(previous, sorted, Changed), Select(previous, sorted, Same))
  }

  lemma SelectOneMore(previous: State, records: seq<Entity>, i: nat)
    requires i < |records|
    ensures forall c: Difference ::
      Select(previous, records[..i + 1], c)
        == if Classify(previous, records[i]) == c then Select(previous, records[..i], c) + [records[i].id]
           else Select(previous, records[..i], c)
  {
    assert records[..i + 1][..i] == records[..i];
    forall c: Difference ensures Select(previous, records[..i], c) + [] == Select(previous, records[..i], c) {}
  }

  lemma {:induction false} SelectHas(previous: State, records: seq<Entity>, class_: Difference, i: Id)
    ensures i in Select(previous, records, class_)
            <==> exists e :: e in records && e.id == i && Classify(previous, e) == class_
  {
    if records != [] {
      var init, last := records[..|records| - 1], records[|records| - 1];
      assert records == init + [last];
      SelectHas(previous, init, class_, i);
    }
  }

  lemma {:induction false} SelectCounts(previous: State, records: seq<Entity>)
    ensures |Select(previous, records, New)| + |Select(previous, records, Same)|
        + |Select(previous, records, Changed)| == |records|
  {
    if records != [] { SelectCounts(previous, records[..|records| - 1]); }
  }

  lemma {:induction false} GoneHas(kind: Kind, ids: seq<Id>, incoming: State, i: Id)
    ensures i in Gone(kind, ids, incoming) <==> i in ids && Key(kind, i) !in incoming
  {
    if ids != [] {
      var init, last := ids[..|ids| - 1], ids[|ids| - 1];
      assert ids == init + [last];
      GoneHas(kind, init, incoming, i);
    }
  }

  function GoneSet(kind: Kind, ids: seq<Id>, incoming: State): set<Id> {
    set i | i in ids && Key(kind, i) !in incoming
  }

  lemma {:induction false} GoneCount(kind: Kind, ids: seq<Id>, incoming: State)
    requires forall i, j | 0 <= i < j < |ids| :: ids[i] != ids[j]
    ensures |Gone(kind, ids, incoming)| == |GoneSet(kind, ids, incoming)|
  {
    if ids != [] {
      var init, last := ids[..|ids| - 1], ids[|ids| - 1];
      assert ids == init + [last];
      GoneCount(kind, init, incoming);
      assert last !in GoneSet(kind, init, incoming);
      assert GoneSet(kind, ids, incoming)
          == GoneSet(kind, init, incoming) + if Key(kind, last) in incoming then {} else {last};
    }
  }

  function IdsOf(snapshot: seq<Entity>): set<Id> {
    set e | e in snapshot :: e.id
  }

  lemma {:induction false} DistinctCount(kind: Kind, snapshot: seq<Entity>)
    requires Distinct(snapshot) && OfKind(snapshot, kind)
    ensures |snapshot| == |IdsOf(snapshot)|
  {
    if snapshot != [] {
      var n := |snapshot| - 1;
      var init, last := snapshot[..n], snapshot[n];
      DistinctCount(kind, init);
      assert IdsOf(snapshot) == IdsOf(init) + {last.id} by {
        assert snapshot == init + [last];
      }
      forall i | 0 <= i < n ensures init[i].id != last.id {
        assert KeyOf(snapshot[i]) != KeyOf(snapshot[n]);
      }
    }
  }

  /** Where the report lists an id: as added, removed, updated or unchanged, by what was known and what came. */
  lemma ReportClassifies(previous: State, kind: Kind, snapshot: seq<Entity>, initial: bool, i: Id)
    requires OfKind(snapshot, kind)
    ensures
      var r, was := ReportOf(previous, kind, snapshot, initial), At(previous, Key(kind, i));
      && (i in r.added <==> was.None? && i in IdsOf(snapshot))
      && (i in r.removed <==> was.Some? && i !in IdsOf(snapshot))
      && (i in r.same <==> exists e :: e in snapshot && e.id == i && was == Some(e))
      && (i in r.updated <==> was.Some? && exists e :: e in snapshot && e.id == i && was != Some(e))
  {
    SelectedFrom(previous, kind, snapshot, New, i);
    SelectedFrom(previous, kind, snapshot, Same, i);
    SelectedFrom(previous, kind, snapshot, Changed, i);
    SortedIdsListTheSet(KnownIds(previous, kind));
    GoneHas(kind, SortedKnown(previous, kind), Incoming(snapshot), i);
    IncomingHas(kind, snapshot, i);
    KnownIdsHas(previous, kind, i);
  }

  /** Whether the snapshot holds a record of the id that compares in the given way with what was known. */
  ghost predicate Holds(snapshot: seq<Entity>, i: Id, was: Option<Entity>, class_: Difference) {
    match class_
    case New => was.None? && exists e :: e in snapshot && e.id == i
    case Same => exists e :: e in snapshot && e.id == i && was == Some(e)
    case Changed => was.Some? && exists e :: e in snapshot && e.id == i && was != Some(e)
  }

  lemma SelectedFrom(previous: State, kind: Kind, snapshot: seq<Entity>, class_: Difference, i: Id)
    requires OfKind(snapshot, kind)
    ensures i in Select(previous, Sort(EntityLe, snapshot), class_)
        <==> Holds(snapshot, i, At(previous, Key(kind, i)), class_)
  {
    var sorted := Sort(EntityLe, snapshot);
    SameElements(sorted, snapshot);
    SelectHas(previous, sorted, class_, i);
    forall e | e in snapshot && e.id == i ensures KeyOf(e) == Key(kind, i) {}
  }

  lemma KnownIdsHas(state: State, kind: Kind, i: Id)
    ensures i in KnownIds(state, kind) <==> Key(kind, i) in state
  {
    if Key(kind, i) in state { assert Key(kind, i).id in KnownIds(state, kind); }
  }

  lemma RemovedCount(previous: State, kind: Kind, snapshot: seq<Entity>)
    requires OfKind(snapshot, kind)
    ensures |Gone(kind, SortedKnown(previous, kind), Incoming(snapshot))|
        == |KnownIds(previous, kind) - IdsOf(snapshot)|
  {
    var ids, incoming := SortedKnown(previous, kind), Incoming(snapshot);
    SortedIdsListTheSet(KnownIds(previous, kind));
    GoneCount(kind, ids, incoming);
    forall i ensures i in GoneSet(kind, ids, incoming) <==> i in KnownIds(previous, kind) - IdsOf(snapshot) {
      IncomingHas(kind, snapshot, i);
    }
    assert GoneSet(kind, ids, incoming) == KnownIds(previous, kind) - IdsOf(snapshot);
  }

  /** With distinct ids the four lists are a partition: their lengths add up to the size of the union. */
  lemma ReportPartitions(previous: State, kind: Kind, snapshot: seq<Entity>, initial: bool)
    requires OfKind(snapshot, kind) && Distinct(snapshot)
    ensures
      var r := ReportOf(previous, kind, snapshot, initial);
      |r.added| + |r.removed| + |r.updated| + |r.same| == |KnownIds(previous, kind) + IdsOf(snapshot)|
  {
    var known, now := KnownIds(previous, kind), IdsOf(snapshot);
    var sorted := Sort(EntityLe, snapshot);
    SameElements(sorted, snapshot);
    SelectCounts(previous, sorted);
    DistinctCount(kind, snapshot);
    RemovedCount(previous, kind, snapshot);
    assert known + now == (known - now) + now;
  }

  lemma IncomingHas(kind: Kind, snapshot: seq<Entity>, i: Id)
    requires OfKind(snapshot, kind)
    ensures Key(kind, i) in Incoming(snapshot) <==> i in IdsOf(snapshot)
  {
    IncomingIsLastCopy(snapshot, Key(kind, i));
    CopiesAre(snapshot, Key(kind, i));
    var copies := Copies(snapshot, Key(kind, i));
    if copies != [] { assert copies[0] in snapshot; }
    if e :| e in snapshot && e.id == i { assert e in copies; }
  }

  ghost predicate NoLater(ids: seq<Id>) {
    forall i, j | 0 <= i < j < |ids| :: IdLe(ids[i], ids[j])
  }

  lemma {:induction false} SelectSorted(previous: State, records: seq<Entity>, class_: Difference)
    requires Sorted(EntityLe, records)
    ensures NoLater(Select(previous, records, class_))
    ensures forall i | i in Select(previous, records, class_) :: exists e :: e in records && e.id == i
  {
    if records != [] {
      var n := |records| - 1;
      var ids := Select(previous, records[..n], class_);
      SelectSorted(previous, records[..n], class_);
      assert records == records[..n] + [records[n]];
      forall i | 0 <= i < |ids| ensures IdLe(ids[i], records[n].id) {
        assert ids[i] in ids;
        var k :| 0 <= k < n && records[k].id == ids[i];
        assert EntityLe(records[k], records[n]);
      }
    }
  }

  lemma {:induction false} GoneSorted(kind: Kind, ids: seq<Id>, incoming: State)
    requires Increasing(ids)
    ensures Increasing(Gone(kind, ids, incoming)) && forall i | i in Gone(kind, ids, incoming) :: i in ids
  {
    if ids != [] {
      var n := |ids| - 1;
      GoneSorted(kind, ids[..n], incoming);
      assert ids == ids[..n] + [ids[n]];
      var gone := Gone(kind, ids[..n], incoming);
      forall i | 0 <= i < |gone| ensures IdLe(gone[i], ids[n]) && gone[i] != ids[n] {
        assert gone[i] in gone;
        var k :| 0 <= k < n && ids[k] == gone[i];
      }
    }
  }

  /** The four lists come in the order of ids, the removed ones without repetition, and `initial` is passed on. */
  lemma ReportIsSorted(previous: State, kind: Kind, snapshot: seq<Entity>, initial: bool)
    ensures
      var r := ReportOf(previous, kind, snapshot, initial);
      && r.initial == initial && Increasing(r.removed)
      && NoLater(r.added) && NoLater(r.updated) && NoLater(r.same)
  {
    EntityLeTotal();
    SortSorted(EntityLe, snapshot);
    SortedIdsListTheSet(KnownIds(previous, kind));
    SelectSorted(previous, Sort(EntityLe, snapshot), New);
    SelectSorted(previous, Sort(EntityLe, snapshot), Changed);
    SelectSorted(previous, Sort(EntityLe, snapshot), Same);
    GoneSorted(kind, SortedKnown(previous, kind), Incoming(snapshot));
  }

  // ------------------------------------------------------- publishing

  /** The events up to and including the first one that some subscriber refuses. */
  function Published(events: seq<Event>, fails: Event -> bool): seq<Event> {
    if events == [] then []
    else if fails(events[0]) then [events[0]]
    else [events[0]] + Published(events[1..], fails)
  }

  predicate AllDelivered(events: seq<Event>, fails: Event -> bool) {
    forall e | e in events :: !fails(e)
  }

  lemma {:induction false} PublishedPrefix(events: seq<Event>, fails: Event -> bool)
    ensures Published(events, fails) <= events
    ensures AllDelivered(events, fails) ==> Published(events, fails) == events
    ensures !AllDelivered(events, fails) ==> Published(events, fails) != []
  {
    if events != [] {
      assert events == [events[0]] + events[1..];
      if !fails(events[0]) { PublishedPrefix(events[1..], fails); }
    }
  }

  lemma {:induction false} PublishedUpTo(events: seq<Event>, n: nat, fails: Event -> bool)
    requires n < |events| && AllDelivered(events[..n], fails) && fails(events[n])
    ensures Published(events, fails) == events[..n + 1] && !AllDelivered(events, fails)
  {
    if n > 0 {
      assert events[0] == events[..n][0];
      assert events[1..][..n - 1] == events[..n][1..];
      PublishedUpTo(events[1..], n - 1, fails);
      assert events[..n + 1] == [events[0]] + events[1..][..n];
    }
  }

  // ------------------------------------------------------- dicts as lists

  /** The entities of a dict, each once. */
  function ValuesOf(state: State, ids: seq<Id>, kind: Kind): seq<Entity>
    requires forall i | i in ids :: Key(kind, i) in state
  {
    if ids == [] then [] else
      assert ids[|ids| - 1] in ids;
      ValuesOf(state, ids[..|ids| - 1], kind) + [state[Key(kind, ids[|ids| - 1])]]
  }

  lemma {:induction false} ValuesAreKeyed(state: State, ids: seq<Id>, kind: Kind)
    requires Filed(state) && forall i | i in ids :: Key(kind, i) in state
    ensures |ValuesOf(state, ids, kind)| == |ids|
    ensures forall n | 0 <= n < |ids| :: KeyOf(ValuesOf(state, ids, kind)[n]) == Key(kind, ids[n])
  {
    if ids != [] {
      assert ids[|ids| - 1] in ids;
      ValuesAreKeyed(state, ids[..|ids| - 1], kind);
    }
  }

  lemma {:induction false} ValuesRebuildDict(state: State, ids: seq<Id>, kind: Kind, k: Key)
    requires Filed(state) && forall i | i in ids :: Key(kind, i) in state
    ensures At(Incoming(ValuesOf(state, ids, kind)), k) == if k.kind == kind && k.id in ids then At(state, k) else None
  {
    if ids != [] {
      var init, last := ids[..|ids| - 1], ids[|ids| - 1];
      assert ids == init + [last];
      ValuesRebuildDict(state, init, kind, k);
      var values := ValuesOf(state, ids, kind);
      assert values[..|values| - 1] == ValuesOf(state, init, kind);
    }
  }

  /** The entities of one kind in the order of their ids: what `ORDER BY` gives. */
  function Listed(state: State, kind: Kind): (entities: seq<Entity>) {
    SortedIdsListTheSet(KnownIds(state, kind));
    ValuesOf(state, SortedKnown(state, kind), kind)
  }

  /** A saved dict is a list with distinct ids, and saving it over the rows of its kind leaves the dict. */
  lemma SavedDictIsStored(state: State, rows: State, kind: Kind)
    requires Filed(state) && forall k: Key | k.kind != kind :: At(rows, k) == At(state, k)
    ensures OfKind(Listed(state, kind), kind) && Distinct(Listed(state, kind))
    ensures NextState(rows, kind, Listed(state, kind)) == state
  {
    var ids := SortedKnown(state, kind);
    var values := Listed(state, kind);
    SortedIdsListTheSet(KnownIds(state, kind));
    ValuesAreKeyed(state, ids, kind);
    forall k ensures At(NextState(rows, kind, values), k) == At(state, k) {
      NextStateAt(rows, kind, values, k);
      ValuesRebuildDict(state, ids, kind, k);
      KnownIdsHas(state, kind, k.id);
    }
    SameAt(NextState(rows, kind, values), state);
  }

  /** Loading the rows of both kinds in order, and filing each list by id, gives the table back. */
  lemma LoadedRowsRebuild(rows: State)
    requires Filed(rows)
    ensures Incoming(Listed(rows, Users)) + Incoming(Listed(rows, Systems)) == rows
  {
    var users, systems := Incoming(Listed(rows, Users)), Incoming(Listed(rows, Systems));
    SortedIdsListTheSet(KnownIds(rows, Users));
    SortedIdsListTheSet(KnownIds(rows, Systems));
    forall k ensures At(users + systems, k) == At(rows, k) {
      ValuesRebuildDict(rows, SortedKnown(rows, Users), Users, k);
      ValuesRebuildDict(rows, SortedKnown(rows, Systems), Systems, k);
      KnownIdsHas(rows, Users, k.id);
      KnownIdsHas(rows, Systems, k.id);
    }
    SameAt(users + systems, rows);
  }

  /** Saving the dict of one kind and then loading the ordered rows of both restores the dict. */
  lemma SavedDictIsRestored(state: State, rows: State, kind: Kind)
    requires Filed(state) && forall k: Key | k.kind != kind :: At(rows, k) == At(state, k)
    ensures
      var saved := NextState(rows, kind, Listed(state, kind));
      Incoming(Listed(saved, Users)) + Incoming(Listed(saved, Systems)) == state
  {
    SavedDictIsStored(state, rows, kind);
    LoadedRowsRebuild(state);
  }

  // ------------------------------------------------------- the stores

  /** The two tables of the organization state, keyed by kind and id. */
  class OrganizationStore {
    var rows: State

    constructor ()
      ensures rows == map[]
    {
      rows := map[];
    }

    /**
     Replace all rows of one kind: delete them, then insert the given entities one by one. The id is
     the primary key: a repeated id fails the transaction, and nothing is changed.
     */
    method Save(kind: Kind, entities: seq<Entity>) returns (ok: bool)
      requires OfKind(entities, kind)
      modifies this
      ensures ok <==> Distinct(entities)
      ensures rows == if ok then NextState(old(rows), kind, entities) else old(rows)
    {
      var backup, kept := rows, map k | k in rows && k.kind != kind :: rows[k];
      rows := kept;
      for i := 0 to |entities|
        invariant rows == kept + Incoming(entities[..i])
        invariant Distinct(entities[..i])
      {
        assert entities[..i + 1][..i] == entities[..i];
        PrimaryKeyCheck(entities, i);
        if KeyOf(entities[i]) in rows {
          rows := backup;
          return false;
        }
        rows := rows[KeyOf(entities[i]) := entities[i]];
      }
      assert entities[..|entities|] == entities;
      ok := true;
    }

    /** `users` and `systems`: the rows of one kind, ordered by id. */
    method Load(kind: Kind) returns (entities: seq<Entity>)
      ensures entities == Listed(rows, kind)
    {
      entities := Listed(rows, kind);
    }
  }

  /** An empty list of rows means that nothing is known of the kind. */
  lemma ListedIsEmptyIff(rows: State, kind: Kind)
    requires Filed(rows)
    ensures Listed(rows, kind) == [] <==> KnownIds(rows, kind) == {}
  {
    SortedIdsListTheSet(KnownIds(rows, kind));
    ValuesAreKeyed(rows, SortedKnown(rows, kind), kind);
  }

  lemma PrimaryKeyCheck(entities: seq<Entity>, i: nat)
    requires i < |entities| && Distinct(entities[..i])
    ensures KeyOf(entities[i]) in Incoming(entities[..i]) ==> !Distinct(entities)
    ensures KeyOf(entities[i]) !in Incoming(entities[..i]) ==> Distinct(entities[..i + 1])
  {
    var init, k := entities[..i], KeyOf(entities[i]);
    IncomingIsLastCopy(init, k);
    CopiesAre(init, k);
    if k in Incoming(init) {
      assert Copies(init, k)[0] in init;
      var j :| 0 <= j < |init| && KeyOf(init[j]) == k;
      assert KeyOf(entities[j]) == k;
    } else {
      forall j | 0 <= j < i ensures KeyOf(entities[j]) != k {
        assert init[j] in init && init[j] !in Copies(init, k);
      }
    }
  }

  /** The table of change events, which outlives the process. */
  class EventStore {
    var events: seq<Event>

    constructor ()
      ensures events == []
    {
      events := [];
    }

    method Save(e: Event)
      modifies this
      ensures events == old(events) + [e]
    {
      events := events + [e];
    }
  }

  // ------------------------------------------------------- the adapter

  function AllNormal(records: seq<Option<Entity>>, kind: Kind): bool {
    forall r | r in records :: r.Some? && KindOf(r.value) == kind
  }

  function Normalized(records: seq<Option<Entity>>): seq<Entity> {
    if records == [] then []
    else (if records[0].Some? then [records[0].value] else []) + Normalized(records[1..])
  }

  /** When every record is normal, the normalized list is the records, one by one. */
  lemma {:induction false} NormalizedIs(records: seq<Option<Entity>>, kind: Kind)
    requires AllNormal(records, kind)
    ensures |Normalized(records)| == |records|
    ensures forall i | 0 <= i < |records| ::
              records[i] == Some(Normalized(records)[i]) && KindOf(Normalized(records)[i]) == kind
  {
    if records != [] {
      assert records[0] in records && forall r | r in records[1..] :: r in records;
      NormalizedIs(records[1..], kind);
    }
  }

  lemma {:induction false} NormalizedOfKind(records: seq<Option<Entity>>, kind: Kind)
    requires AllNormal(records, kind)
    ensures OfKind(Normalized(records), kind)
  {
    if records != [] {
      assert records[0] in records;
      NormalizedOfKind(records[1..], kind);
    }
  }

  class CentralServerAdapter {
    const store: OrganizationStore
    const history: EventStore
    /** The event bus: whether some subscriber raises on an event. */
    const fails: Event -> bool
    var entities: State
    var states: State
    var log: seq<Event>
    var initialized: map<Kind, bool>

    ghost predicate Valid()
      reads this, store
    {
      Filed(states) && entities == states && store.rows == states && initialized.Keys == {Users, Systems}
    }

    /** `_restore_organization_state`: the dicts are rebuilt from the tables, the in-memory log starts empty. */
    constructor (store: OrganizationStore, history: EventStore, fails: Event -> bool)
      requires Filed(store.rows)
      ensures Valid() && this.store == store && this.history == history && this.fails == fails
      ensures states == store.rows && log == []
      ensures forall kind | kind in initialized :: initialized[kind] <==> KnownIds(store.rows, kind) != {}
    {
      LoadedRowsRebuild(store.rows);
      ListedIsEmptyIff(store.rows, Users);
      ListedIsEmptyIff(store.rows, Systems);
      var users := store.Load(Users);
      var systems := store.Load(Systems);
      this.store, this.history, this.fails := store, history, fails;
      entities, states, log := Incoming(users) + Incoming(systems), Incoming(users) + Incoming(systems), [];
      initialized := map[Users := users != [], Systems := systems != []];
    }

    /** Append to the log, save, publish: the event is kept even when a subscriber raises. */
    method Emit(e: Event) returns (ok: bool)
      modifies this`log, history
      ensures log == old(log) + [e] && history.events == old(history.events) + [e]
      ensures ok == !fails(e)
    {
      log := log + [e];
      history.Save(e);
      ok := !fails(e);
    }

    /** `reconcile_users` and `reconcile_systems`; a record that cannot be normalized is None. */
    method Reconcile(kind: Kind, records: seq<Option<Entity>>) returns (r: Result<Report, ReconcileError>)
      requires Valid()
      modifies this, store, history
      ensures Valid()
      ensures
        var events := Diff(old(states), kind, Normalized(records));
        if !AllNormal(records, kind) then
          && r == Failure(RecordRefused)
          && log == old(log) && history.events == old(history.events)
          && states == old(states) && initialized == old(initialized)
        else
          && log == old(log) + Published(events, fails)
          && history.events == old(history.events) + Published(events, fails)
          && if AllDelivered(events, fails) then
               && r == Success(ReportOf(old(states), kind, Normalized(records), !old(initialized)[kind]))
               && states == NextState(old(states), kind, Normalized(records))
               && initialized == old(initialized)[kind := true]
             else
               r == Failure(SubscriberFailed) && states == old(states) && initialized == old(initialized)
    {
      if !AllNormal(records, kind) {
        return Failure(RecordRefused);
      }
      NormalizedOfKind(records, kind);
      var normalized := Normalized(records);
      var initial := !initialized[kind];
      var delivered, report := EmitDifferences(states, kind, normalized, initial);
      if !delivered {
        return Failure(SubscriberFailed);
      }
      Adopt(kind, normalized);
      return Success(report);
    }

    /** Both loops, one after the other. */
    method EmitDifferences(previous: State, kind: Kind, normalized: seq<Entity>, initial: bool)
      returns (delivered: bool, report: Report)
      modifies this`log, history
      ensures log == old(log) + Published(Diff(previous, kind, normalized), fails)
      ensures history.events == old(history.events) + Published(Diff(previous, kind, normalized), fails)
      ensures delivered == AllDelivered(Diff(previous, kind, normalized), fails)
      ensures delivered ==> report == ReportOf(previous, kind, normalized, initial)
    {
      var incoming := Incoming(normalized);
      var sorted := Sort(EntityLe, normalized);
      var ids := SortedKnown(previous, kind);
      ghost var changes, removals := Changes(previous, sorted), Removals(previous, kind, ids, incoming);
      PublishedAppend(changes, removals, fails);
      PublishedPrefix(changes, fails);
      AppendAssociates(old(log), changes, Published(removals, fails));
      AppendAssociates(old(history.events), changes, Published(removals, fails));
      report := Report(initial, [], [], [], []);
      var added, updated, same;
      delivered, added, updated, same := EmitChanges(previous, sorted);
      if delivered {
        var removed;
        delivered, removed := EmitRemovals(previous, kind, ids, incoming);
        report := Report(initial, added, removed, updated, same);
      }
    }

    /** Replace the dicts of one kind by the snapshot and save them. */
    method Adopt(kind: Kind, normalized: seq<Entity>)
      requires Valid() && OfKind(normalized, kind)
      modifies this`entities, this`states, this`initialized, store
      ensures Valid() && states == NextState(old(states), kind, normalized)
      ensures initialized == old(initialized)[kind := true]
    {
      NextStateFiled(states, kind, normalized);
      entities := NextState(entities, kind, normalized);
      states := NextState(states, kind, normalized);
      initialized := initialized[kind := true];
      SavedDictIsStored(entities, store.rows, kind);
      var saved := store.Save(kind, Listed(entities, kind));
    }

    /** The event for one record, when there is one. */
    method EmitChange(previous: State, e: Entity) returns (delivered: bool, class_: Difference)
      modifies this`log, history
      ensures log == old(log) + Change(previous, e) && history.events == old(history.events) + Change(previous, e)
      ensures delivered == AllDelivered(Change(previous, e), fails) && class_ == Classify(previous, e)
    {
      if KeyOf(e) !in previous {
        delivered := Emit(Event(Added, KeyOf(e), None, Some(e)));
        class_ := New;
      } else if previous[KeyOf(e)] == e {
        delivered, class_ := true, Same;
      } else {
        delivered := Emit(Event(ChangeType(previous[KeyOf(e)], e), KeyOf(e), Some(previous[KeyOf(e)]), Some(e)));
        class_ := Changed;
      }
    }

    /** The first loop: one pass over the sorted records. */
    method EmitChanges(previous: State, sorted: seq<Entity>)
      returns (delivered: bool, added: seq<Id>, updated: seq<Id>, same: seq<Id>)
      modifies this`log, history
      ensures log == old(log) + Published(Changes(previous, sorted), fails)
      ensures history.events == old(history.events) + Published(Changes(previous, sorted), fails)
      ensures delivered == AllDelivered(Changes(previous, sorted), fails)
      ensures delivered ==>
                && added == Select(previous, sorted, New) && updated == Select(previous, sorted, Changed)
                && same == Select(previous, sorted, Same)
    {
      added, updated, same := [], [], [];
      for i := 0 to |sorted|
        invariant log == old(log) + Changes(previous, sorted[..i])
        invariant history.events == old(history.events) + Changes(previous, sorted[..i])
        invariant AllDelivered(Changes(previous, sorted[..i]), fails)
        invariant added == Select(previous, sorted[..i], New) && updated == Select(previous, sorted[..i], Changed)
        invariant same == Select(previous, sorted[..i], Same)
      {
        var e := sorted[i];
        assert sorted[..i + 1][..i] == sorted[..i];
        ChangesPrefix(previous, sorted, i + 1);
        SelectOneMore(previous, sorted, i);
        DeliveredAppend(Changes(previous, sorted[..i]), Change(previous, e), fails);
        var ok, class_ := EmitChange(previous, e);
        AppendAssociates(old(log), Changes(previous, sorted[..i]), Change(previous, e));
        AppendAssociates(old(history.events), Changes(previous, sorted[..i]), Change(previous, e));
        if !ok {
          PublishedAt(Changes(previous, sorted), Changes(previous, sorted[..i]), Change(previous, e), fails);
          return false, added, updated, same;
        }
        match class_ {
          case New => added := added + [e.id];
          case Same => same := same + [e.id];
          case Changed => updated := updated + [e.id];
        }
      }
      assert sorted[..|sorted|] == sorted;
      PublishedPrefix(Changes(previous, sorted), fails);
      delivered := true;
    }

    /** The second loop: the known ids that no record carries. */
    method EmitRemovals(previous: State, kind: Kind, ids: seq<Id>, incoming: State)
      returns (delivered: bool, removed: seq<Id>)
      requires forall i | i in ids :: Key(kind, i) in previous
      modifies this`log, history
      ensures log == old(log) + Published(Removals(previous, kind, ids, incoming), fails)
      ensures history.events == old(history.events) + Published(Removals(previous, kind, ids, incoming), fails)
      ensures delivered == AllDelivered(Removals(previous, kind, ids, incoming), fails)
      ensures delivered ==> removed == Gone(kind, ids, incoming)
    {
      removed := [];
      for i := 0 to |ids|
        invariant log == old(log) + Removals(previous, kind, ids[..i], incoming)
        invariant history.events == old(history.events) + Removals(previous, kind, ids[..i], incoming)
        invariant AllDelivered(Removals(previous, kind, ids[..i], incoming), fails)
        invariant removed == Gone(kind, ids[..i], incoming)
      {
        var k := Key(kind, ids[i]);
        ghost var before := Removals(previous, kind, ids[..i], incoming);
        assert ids[..i + 1][..i] == ids[..i];
        RemovalsPrefix(previous, kind, ids, incoming, i + 1);
        if k !in incoming {
          removed := removed + [k.id];
          var event := Event(Removed, k, Some(previous[k]), None);
          assert Removals(previous, kind, ids[..i + 1], incoming) == before + [event];
          var ok := Emit(event);
          AppendAssociates(old(log), before, [event]);
          AppendAssociates(old(history.events), before, [event]);
          if !ok {
            PublishedAt(Removals(previous, kind, ids, incoming), before, [event], fails);
            return false, removed;
          }
        } else {
          assert before + [] == before;
        }
      }
      assert ids[..|ids|] == ids;
      PublishedPrefix(Removals(previous, kind, ids, incoming), fails);
      delivered := true;
    }
  }

  lemma NextStateFiled(previous: State, kind: Kind, snapshot: seq<Entity>)
    requires Filed(previous) && OfKind(snapshot, kind)
    ensures Filed(NextState(previous, kind, snapshot))
    ensures forall k: Key | k.kind != kind :: At(NextState(previous, kind, snapshot), k) == At(previous, k)
  {
    forall k
      ensures At(NextState(previous, kind, snapshot), k)
              == if k.kind != kind then At(previous, k) else At(Incoming(snapshot), k)
    {
      NextStateAt(previous, kind, snapshot, k);
    }
    forall k | k in Incoming(snapshot) ensures KeyOf(Incoming(snapshot)[k]) == k {
      IncomingIsLastCopy(snapshot, k);
      CopiesAre(snapshot, k);
    }
  }

  lemma PublishedAt(events: seq<Event>, before: seq<Event>, last: seq<Event>, fails: Event -> bool)
    requires before + last <= events && |last| == 1 && AllDelivered(before, fails) && fails(last[0])
    ensures Published(events, fails) == before + last && !AllDelivered(events, fails)
  {
    assert events[..|before|] == before && events[|before|] == last[0];
    PublishedUpTo(events, |before|, fails);
    assert events[..|before| + 1] == before + last;
  }

  lemma {:induction false} PublishedAppend(a: seq<Event>, b: seq<Event>, fails: Event -> bool)
    ensures Published(a + b, fails) == if AllDelivered(a, fails) then a + Published(b, fails) else Published(a, fails)
    ensures AllDelivered(a + b, fails) <==> AllDelivered(a, fails) && AllDelivered(b, fails)
  {
    if a == [] {
      assert a + b == b;
    } else {
      assert (a + b)[1..] == a[1..] + b;
      DeliveredCons(a, fails);
      DeliveredCons(a + b, fails);
      PublishedAppend(a[1..], b, fails);
      assert a == [a[0]] + a[1..];
      AppendAssociates([a[0]], a[1..], Published(b, fails));
    }
  }

  lemma DeliveredAppend(a: seq<Event>, b: seq<Event>, fails: Event -> bool)
    ensures AllDelivered(a + b, fails) <==> AllDelivered(a, fails) && AllDelivered(b, fails)
  {
    forall e ensures e in a + b <==> e in a || e in b {}
  }

  lemma DeliveredCons(events: seq<Event>, fails: Event -> bool)
    requires events != []
    ensures AllDelivered(events, fails) <==> !fails(events[0]) && AllDelivered(events[1..], fails)
  {
    assert events == [events[0]] + events[1..];
  }

  lemma {:induction false} ChangesPrefix(previous: State, records: seq<Entity>, n: nat)
    requires n <= |records|
    ensures Changes(previous, records[..n]) <= Changes(previous, records)
    decreases |records| - n
  {
    if n == |records| {
      assert records[..n] == records;
    } else {
      ChangesPrefix(previous, records, n + 1);
      assert records[..n + 1][..n] == records[..n];
    }
  }

  lemma {:induction false} RemovalsPrefix(previous: State, kind: Kind, ids: seq<Id>, incoming: State, n: nat)
    requires n <= |ids| && forall i | i in ids :: Key(kind, i) in previous
    ensures Removals(previous, kind, ids[..n], incoming) <= Removals(previous, kind, ids, incoming)
    decreases |ids| - n
  {
    if n == |ids| {
      assert ids[..n] == ids;
    } else {
      RemovalsPrefix(previous, kind, ids, incoming, n + 1);
      assert ids[..n + 1][..n] == ids[..n];
    }
  }

  // ------------------------------------------------------- whole runs

  /** The adapter between calls: `origin` is the state it was constructed with. */
  datatype World = World(origin: State, state: State, log: seq<Event>, rows: State, history: seq<Event>)

  datatype Command = Snapshot(kind: Kind, records: seq<Entity>) | Restart

  function Fresh(rows: State, history: seq<Event>): World {
    World(rows, rows, [], rows, history)
  }

  /** `Reconcile` on records that normalize, and a new adapter over the same stores. */
  function Step(w: World, c: Command, fails: Event -> bool): World {
    match c
    case Restart => Fresh(w.rows, w.history)
    case Snapshot(kind, records) =>
      var events := Diff(w.state, kind, records);
      var published := Published(events, fails);
      var logged := w.(log := w.log + published, history := w.history + published);
      if AllDelivered(events, fails) then
        logged.(state := NextState(w.state, kind, records), rows := NextState(w.state, kind, records))
      else logged
  }

  function Run(w: World, commands: seq<Command>, fails: Event -> bool): World
    decreases |commands|
  {
    if commands == [] then w
    else Step(Run(w, commands[..|commands| - 1], fails), commands[|commands| - 1], fails)
  }

  /** The in-memory log accounts for the state. */
  ghost predicate Accounted(w: World) {
    Replay(w.origin, w.log) == w.state
  }

  lemma DeliveredSnapshotKeepsAccountIff(w: World, kind: Kind, records: seq<Entity>, fails: Event -> bool)
    requires Accounted(w) && OfKind(records, kind) && AllDelivered(Diff(w.state, kind, records), fails)
    ensures Accounted(Step(w, Snapshot(kind, records), fails)) <==> Replayable(w.state, records)
  {
    var events := Diff(w.state, kind, records);
    PublishedPrefix(events, fails);
    ReplayAppend(w.origin, w.log, events);
    DiffReplaysIff(w.state, kind, records);
  }

  lemma AbandonedSnapshotLosesAccount(w: World, kind: Kind, records: seq<Entity>, fails: Event -> bool)
    requires Accounted(w) && !AllDelivered(Diff(w.state, kind, records), fails)
    ensures !Accounted(Step(w, Snapshot(kind, records), fails))
  {
    var events := Diff(w.state, kind, records);
    var published := Published(events, fails);
    PublishedPrefix(events, fails);
    ReplayAppend(w.origin, w.log, published);
    AbandonedPrefixDoesNotReplay(w.state, kind, records, |published|);
    assert events[..|published|] == published;
  }

  /** One snapshot keeps the log in step with the state exactly when it is replayable and no subscriber raises. */
  lemma {:induction false} SnapshotKeepsAccountIff(w: World, kind: Kind, records: seq<Entity>, fails: Event -> bool)
    requires Accounted(w) && OfKind(records, kind)
    ensures Accounted(Step(w, Snapshot(kind, records), fails))
            <==> AllDelivered(Diff(w.state, kind, records), fails) && Replayable(w.state, records)
  {
    if AllDelivered(Diff(w.state, kind, records), fails) {
      DeliveredSnapshotKeepsAccountIff(w, kind, records, fails);
    } else {
      AbandonedSnapshotLosesAccount(w, kind, records, fails);
    }
  }

  /** Undoing survives even a duplicated id, as long as no subscriber raises. */
  lemma SnapshotRewinds(w: World, kind: Kind, records: seq<Entity>, fails: Event -> bool)
    requires OfKind(records, kind) && AllDelivered(Diff(w.state, kind, records), fails)
    ensures
      var v := Step(w, Snapshot(kind, records), fails);
      Rewind(v.state, v.history) == Rewind(w.state, w.history) && Rewind(v.state, v.log) == Rewind(w.state, w.log)
  {
    var events := Diff(w.state, kind, records);
    var next := NextState(w.state, kind, records);
    PublishedPrefix(events, fails);
    DiffRewinds(w.state, kind, records);
    RewindAppend(next, w.log, events);
    RewindAppend(next, w.history, events);
  }

  ghost predicate Clean(w: World, c: Command, fails: Event -> bool) {
    c.Snapshot? ==>
      OfKind(c.records, c.kind) && Distinct(c.records) && AllDelivered(Diff(w.state, c.kind, c.records), fails)
  }

  /** Every command of the run is a restart or a snapshot with distinct ids on whose events no subscriber raises. */
  ghost predicate CleanRun(w: World, commands: seq<Command>, fails: Event -> bool) {
    forall n | 0 <= n < |commands| :: Clean(Run(w, commands[..n], fails), commands[n], fails)
  }

  /** History and log replay to the state and rewind from it, and the tables hold it. */
  ghost predicate InStep(start: State, w: World) {
    && Replay(start, w.history) == w.state && Rewind(w.state, w.history) == start
    && Replay(w.origin, w.log) == w.state && Rewind(w.state, w.log) == w.origin
    && w.rows == w.state
  }

  lemma CleanSnapshotKeepsStep(start: State, w: World, kind: Kind, records: seq<Entity>, fails: Event -> bool)
    requires InStep(start, w) && Clean(w, Snapshot(kind, records), fails)
    ensures InStep(start, Step(w, Snapshot(kind, records), fails))
  {
    var events := Diff(w.state, kind, records);
    DistinctIsReplayable(w.state, records);
    DiffReplaysIff(w.state, kind, records);
    SnapshotRewinds(w, kind, records, fails);
    PublishedPrefix(events, fails);
    ReplayAppend(start, w.history, events);
    ReplayAppend(w.origin, w.log, events);
  }

  lemma CleanPrefix(w: World, commands: seq<Command>, fails: Event -> bool)
    requires commands != [] && CleanRun(w, commands, fails)
    ensures
      var n := |commands| - 1;
      CleanRun(w, commands[..n], fails) && Clean(Run(w, commands[..n], fails), commands[n], fails)
  {
    var init := commands[..|commands| - 1];
    forall m | 0 <= m < |init| ensures Clean(Run(w, init[..m], fails), init[m], fails) {
      assert init[..m] == commands[..m];
    }
  }

  /**
   Over any clean run of snapshots and restarts the whole saved history replays from the starting
   state to the current one and rewinds back, the log since the last restart does the same from
   where that restart began, and the tables hold the current state.
   */
  lemma {:induction false} HistoryReplaysAndRewinds(start: State, commands: seq<Command>, fails: Event -> bool)
    requires CleanRun(Fresh(start, []), commands, fails)
    ensures InStep(start, Run(Fresh(start, []), commands, fails))
  {
    if commands != [] {
      var n := |commands| - 1;
      CleanPrefix(Fresh(start, []), commands, fails);
      HistoryReplaysAndRewinds(start, commands[..n], fails);
      if commands[n].Snapshot? {
        var w := Run(Fresh(start, []), commands[..n], fails);
        CleanSnapshotKeepsStep(start, w, commands[n].kind, commands[n].records, fails);
      }
    }
  }

  /** The snapshots of the run name the kind of their records, as the two reconciliations of the adapter do. */
  ghost predicate OfTheirKind(commands: seq<Command>) {
    forall c | c in commands && c.Snapshot? :: OfKind(c.records, c.kind)
  }

  /** Over any run, subscribers that raise and repeated ids included, every event in log and history is labelled. */
  lemma {:induction false} EveryEventIsLabelled(w: World, commands: seq<Command>, fails: Event -> bool)
    requires Filed(w.state) && Filed(w.rows) && AllLabelled(w.log) && AllLabelled(w.history) && OfTheirKind(commands)
    ensures
      var v := Run(w, commands, fails);
      Filed(v.state) && Filed(v.rows) && AllLabelled(v.log) && AllLabelled(v.history)
  {
    if commands != [] {
      var init, c := commands[..|commands| - 1], commands[|commands| - 1];
      EveryEventIsLabelled(w, init, fails);
      if c.Snapshot? {
        var v := Run(w, init, fails);
        DiffIsLabelled(v.state, c.kind, c.records);
        PublishedPrefix(Diff(v.state, c.kind, c.records), fails);
        NextStateFiled(v.state, c.kind, c.records);
      }
    }
  }

  lemma RunOneMore(w: World, commands: seq<Command>, c: Command, fails: Event -> bool)
    ensures Run(w, commands + [c], fails) == Step(Run(w, commands, fails), c, fails)
  {
    assert (commands + [c])[..|commands|] == commands;
  }

  /** A snapshot of one record, on an adapter that knows nothing. */
  lemma FirstSnapshot(kind: Kind, a: Entity, fails: Event -> bool)
    requires KeyOf(a).kind == kind && forall e :: !fails(e)
    ensures
      var w := Run(Fresh(map[], []), [Snapshot(kind, [a])], fails);
      w.state == map[KeyOf(a) := a] && w.origin == map[] && w.log == w.history && Accounted(w)
  {
    var w := Fresh(map[], []);
    RunOneMore(w, [], Snapshot(kind, [a]), fails);
    assert [] + [Snapshot(kind, [a])] == [Snapshot(kind, [a])];
    BothIncoming(a, a);
    DistinctIsReplayable(map[], [a]);
    SnapshotKeepsAccountIff(w, kind, [a], fails);
    forall k ensures At(NextState(map[], kind, [a]), k) == At(map[KeyOf(a) := a], k) {
      NextStateAt(map[], kind, [a], k);
    }
    SameAt(NextState(map[], kind, [a]), map[KeyOf(a) := a]);
  }

  /**
   For any two different records under one id: a snapshot of the first, and then one that holds both with the
   first one last, leave a history that does not replay to the state, although every event is delivered.
   */
  lemma RepeatedIdBreaksReplay(kind: Kind, a: Entity, b: Entity, fails: Event -> bool)
    requires KeyOf(a) == KeyOf(b) && KeyOf(a).kind == kind && a != b && forall e :: !fails(e)
    ensures
      var w := Run(Fresh(map[], []), [Snapshot(kind, [a])] + [Snapshot(kind, [b, a])], fails);
      w.state == map[KeyOf(a) := a] && Replay(map[], w.history) != w.state
  {
    FirstSnapshot(kind, a, fails);
    var w := Run(Fresh(map[], []), [Snapshot(kind, [a])], fails);
    RunOneMore(Fresh(map[], []), [Snapshot(kind, [a])], Snapshot(kind, [b, a]), fails);
    BothIncoming(a, b);
    assert !Replayable(w.state, [b, a]) by { assert b in [b, a] && KeyOf(b) in w.state; }
    SnapshotKeepsAccountIff(w, kind, [b, a], fails);
    forall k ensures At(NextState(w.state, kind, [b, a]), k) == At(map[KeyOf(a) := a], k) {
      NextStateAt(w.state, kind, [b, a], k);
    }
    SameAt(NextState(w.state, kind, [b, a]), map[KeyOf(a) := a]);
  }

  lemma BothIncoming(a: Entity, b: Entity)
    requires KeyOf(a) == KeyOf(b)
    ensures Incoming([a]) == Incoming([b, a]) == map[KeyOf(a) := a]
  {
    assert [b, a][..1] == [b] && [b][..0] == [] && [a][..0] == [];
  }

  /** After a save and a restart, the same snapshot with distinct ids emits nothing. */
  lemma {:induction false} RestartThenRepeatIsSilent(w: World, kind: Kind, records: seq<Entity>, fails: Event -> bool)
    requires OfKind(records, kind) && Distinct(records) && AllDelivered(Diff(w.state, kind, records), fails)
    ensures
      var v := Step(Step(w, Snapshot(kind, records), fails), Restart, fails);
      Step(v, Snapshot(kind, records), fails) == v
  {
    forall e | e in records ensures KeyOf(e) in Incoming(records) && Incoming(records)[KeyOf(e)] == e {
      DistinctIncoming(records, e);
    }
    RepeatIsSilentIff(w.state, kind, records);
    var next := NextState(w.state, kind, records);
    forall k ensures At(NextState(next, kind, records), k) == At(next, k) {
      NextStateAt(next, kind, records, k);
      NextStateAt(w.state, kind, records, k);
    }
    SameAt(NextState(next, kind, records), next);
  }
}
