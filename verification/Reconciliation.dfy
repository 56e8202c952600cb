/**
 Snapshot reconciliation of the central server adapter: a snapshot of users or systems is compared
 with the known state, every difference becomes a change event, and the state is replaced.
 The user half and the system half of the adapter run the same code over one event log; here a
 key carries its kind and one text covers both.
 */
module Reconciliation {
  import opened Wrappers
  import opened Sorting

  datatype Kind = Users | Systems

  datatype Key = Key(kind: Kind, id: Id)

  datatype Entity =
    | User(id: Id, active: bool, name: Option<string>, username: Option<string>, email: Option<string>,
           department: Option<string>, role: Option<string>, system: Option<Id>)
    | System(id: Id, active: bool, name: Option<string>, number: Option<string>)

  type State = map<Key, Entity>

  datatype EventType = Added | Removed | Updated | Activated | Deactivated

  datatype Event = Event(what: EventType, key: Key, previous: Option<Entity>, current: Option<Entity>)

  datatype Report = Report(initial: bool, added: seq<Id>, removed: seq<Id>, updated: seq<Id>, same: seq<Id>)

  function KindOf(e: Entity): Kind { if e.User? then Users else Systems }

  function KeyOf(e: Entity): Key { Key(KindOf(e), e.id) }

  predicate EntityLe(a: Entity, b: Entity) { IdLe(a.id, b.id) }

  ghost predicate OfKind(snapshot: seq<Entity>, kind: Kind) {
    forall e | e in snapshot :: KindOf(e) == kind
  }

  ghost predicate Distinct(snapshot: seq<Entity>) {
    forall i, j | 0 <= i < j < |snapshot| :: KeyOf(snapshot[i]) != KeyOf(snapshot[j])
  }

  /** Every stored entity is filed under its own key. */
  ghost predicate Filed(state: State) {
    forall k | k in state :: KeyOf(state[k]) == k
  }

  // ------------------------------------------------------- the difference

  function ChangeType(before: Entity, after: Entity): EventType {
    if !before.active && after.active then Activated
    else if before.active && !after.active then Deactivated
    else Updated
  }

  /** The event, if any, for one record of the snapshot. */
  function Change(previous: State, e: Entity): seq<Event> {
    var k := KeyOf(e);
    if k !in previous then [Event(Added, k, None, Some(e))]
    else if previous[k] == e then []
    else [Event(ChangeType(previous[k], e), k, Some(previous[k]), Some(e))]
  }

  function Changes(previous: State, records: seq<Entity>): seq<Event> {
    if records == [] then [] else
      Changes(previous, records[..|records| - 1]) + Change(previous, records[|records| - 1])
  }

  function KnownIds(state: State, kind: Kind): set<Id> {
    set k | k in state && k.kind == kind :: k.id
  }

  function Removals(previous: State, kind: Kind, ids: seq<Id>, incoming: State): seq<Event>
    requires forall i | i in ids :: Key(kind, i) in previous
  {
    if ids == [] then [] else
      var k := Key(kind, ids[|ids| - 1]);
      assert ids[|ids| - 1] in ids;
      Removals(previous, kind, ids[..|ids| - 1], incoming)
      + if k in incoming then [] else [Event(Removed, k, Some(previous[k]), None)]
  }

  /** The dict built from the records: a repeated id keeps its last record. */
  function Incoming(records: seq<Entity>): State {
    if records == [] then map[] else
      var e := records[|records| - 1];
      Incoming(records[..|records| - 1])[KeyOf(e) := e]
  }

  function SortedKnown(state: State, kind: Kind): (ids: seq<Id>)
    ensures forall i | i in ids :: Key(kind, i) in state
  {
    SortedIdsListTheSet(KnownIds(state, kind));
    SortedIds(KnownIds(state, kind))
  }

  function Diff(previous: State, kind: Kind, snapshot: seq<Entity>): seq<Event> {
    Changes(previous, Sort(EntityLe, snapshot))
    + Removals(previous, kind, SortedKnown(previous, kind), Incoming(snapshot))
  }

  function NextState(previous: State, kind: Kind, snapshot: seq<Entity>): State {
    (map k | k in previous && k.kind != kind :: previous[k]) + Incoming(snapshot)
  }

  // ------------------------------------------------------- replaying the log

  function Apply(state: State, e: Event): State {
    if e.current.Some? then state[e.key := e.current.value] else state - {e.key}
  }

  function Undo(state: State, e: Event): State {
    if e.previous.Some? then state[e.key := e.previous.value] else state - {e.key}
  }

  function Replay(state: State, log: seq<Event>): State {
    if log == [] then state else Apply(Replay(state, log[..|log| - 1]), log[|log| - 1])
  }

  function Rewind(state: State, log: seq<Event>): State
    decreases |log|
  {
    if log == [] then state else Rewind(Undo(state, log[|log| - 1]), log[..|log| - 1])
  }

  lemma {:induction false} ReplayAppend(state: State, a: seq<Event>, b: seq<Event>)
    ensures Replay(state, a + b) == Replay(Replay(state, a), b)
  {
    if b == [] {
      assert a + b == a;
    } else {
      assert (a + b)[..|a + b| - 1] == a + b[..|b| - 1];
      ReplayAppend(state, a, b[..|b| - 1]);
    }
  }

  lemma {:induction false} RewindAppend(state: State, a: seq<Event>, b: seq<Event>)
    ensures Rewind(state, a + b) == Rewind(Rewind(state, b), a)
    decreases |b|
  {
    if b == [] {
      assert a + b == a;
    } else {
      assert (a + b)[..|a + b| - 1] == a + b[..|b| - 1];
      RewindAppend(Undo(state, b[|b| - 1]), a, b[..|b| - 1]);
    }
  }

  // ------------------------------------------------------- the copies of one key

  /** The records of the snapshot under one key, in order. */
  function Copies(records: seq<Entity>, k: Key): seq<Entity> {
    if records == [] then [] else
      var e := records[|records| - 1];
      Copies(records[..|records| - 1], k) + if KeyOf(e) == k then [e] else []
  }

  lemma {:induction false} CopiesAppend(a: seq<Entity>, b: seq<Entity>, k: Key)
    ensures Copies(a + b, k) == Copies(a, k) + Copies(b, k)
  {
    if b == [] {
      assert a + b == a;
    } else {
      assert (a + b)[..|a + b| - 1] == a + b[..|b| - 1];
      CopiesAppend(a, b[..|b| - 1], k);
    }
  }

  lemma {:induction false} CopiesAre(records: seq<Entity>, k: Key)
    ensures forall e :: e in Copies(records, k) <==> e in records && KeyOf(e) == k
  {
    if records != [] {
      CopiesAre(records[..|records| - 1], k);
      assert records == records[..|records| - 1] + [records[|records| - 1]];
    }
  }

  /** Sorting is stable: the copies of a key keep their order. */
  lemma {:induction false} SortKeepsCopies(kind: Kind, records: seq<Entity>, k: Key)
    requires OfKind(records, kind)
    ensures Copies(Sort(EntityLe, records), k) == Copies(records, k)
  {
    if records != [] {
      var rest := records[1..];
      SortKeepsCopies(kind, rest, k);
      SameElements(Sort(EntityLe, rest), rest);
      InsertKeepsCopies(kind, records[0], Sort(EntityLe, rest), k);
      assert records == [records[0]] + rest;
      CopiesAppend([records[0]], rest, k);
    }
  }

  lemma {:induction false} InsertKeepsCopies(kind: Kind, e: Entity, records: seq<Entity>, k: Key)
    requires OfKind(records, kind) && KindOf(e) == kind
    ensures Copies(Insert(EntityLe, e, records), k) == Copies([e], k) + Copies(records, k)
  {
    if records == [] {
      assert Copies([e], k) + [] == Copies([e], k);
    } else if EntityLe(e, records[0]) {
      CopiesAppend([e], records, k);
    } else {
      var f, rest := records[0], records[1..];
      IdLeLinear(e.id, f.id, f.id);
      IdLeLinear(e.id, e.id, e.id);
      InsertKeepsCopies(kind, e, rest, k);
      assert records == [f] + rest;
      CopiesAppend([f], rest, k);
      CopiesAppend([f], Insert(EntityLe, e, rest), k);
      SwapWithEmpty(Copies([f], k), Copies([e], k), Copies(rest, k));
    }
  }

  lemma SwapWithEmpty<T>(a: seq<T>, b: seq<T>, c: seq<T>)
    requires a == [] || b == []
    ensures a + (b + c) == b + (a + c)
  {
    assert [] + (b + c) == b + ([] + c) && a + ([] + c) == [] + (a + c);
  }

  lemma {:induction false} IncomingIsLastCopy(records: seq<Entity>, k: Key)
    ensures k in Incoming(records) <==> Copies(records, k) != []
    ensures k in Incoming(records) ==> Incoming(records)[k] == Copies(records, k)[|Copies(records, k)| - 1]
  {
    if records != [] { IncomingIsLastCopy(records[..|records| - 1], k); }
  }

  // ------------------------------------------------------- what the events do to one key

  function At(state: State, k: Key): Option<Entity> {
    if k in state then Some(state[k]) else None
  }

  /** Where the changes leave a key: its last copy that differs from the old state. */
  function LastChange(before: Option<Entity>, copies: seq<Entity>): Option<Entity> {
    if copies == [] then before
    else if Some(copies[|copies| - 1]) != before then Some(copies[|copies| - 1])
    else LastChange(before, copies[..|copies| - 1])
  }

  lemma LastChangeStep(before: Option<Entity>, copies: seq<Entity>, e: Entity)
    ensures LastChange(before, copies + [e]) == if Some(e) != before then Some(e) else LastChange(before, copies)
    ensures copies + [] == copies
  {
    assert (copies + [e])[..|copies|] == copies;
  }

  lemma ReplayOfChange(previous: State, e: Entity, state: State, k: Key)
    ensures At(Replay(state, Change(previous, e)), k)
            == if KeyOf(e) == k && At(previous, k) != Some(e) then Some(e) else At(state, k)
  {
    if Change(previous, e) != [] {
      assert Change(previous, e)[..0] == [];
      assert Replay(state, Change(previous, e)) == Apply(state, Change(previous, e)[0]);
    }
  }

  lemma {:induction false} ReplayOfChanges(previous: State, records: seq<Entity>, k: Key)
    ensures At(Replay(previous, Changes(previous, records)), k) == LastChange(At(previous, k), Copies(records, k))
  {
    if records != [] {
      var init, e := records[..|records| - 1], records[|records| - 1];
      ReplayOfChanges(previous, init, k);
      ReplayAppend(previous, Changes(previous, init), Change(previous, e));
      ReplayOfChange(previous, e, Replay(previous, Changes(previous, init)), k);
      LastChangeStep(At(previous, k), Copies(init, k), e);
    }
  }

  lemma ReplayOneMore(state: State, log: seq<Event>, e: Event)
    ensures Replay(state, log + [e]) == Apply(Replay(state, log), e)
  {
    assert (log + [e])[..|log|] == log;
  }

  lemma InInit(ids: seq<Id>, i: Id)
    requires ids != []
    ensures i in ids <==> i in ids[..|ids| - 1] || i == ids[|ids| - 1]
  {
    assert ids == ids[..|ids| - 1] + [ids[|ids| - 1]];
  }

  lemma {:induction false} ReplayOfRemovals(
    previous: State, kind: Kind, ids: seq<Id>, incoming: State, state: State, k: Key)
    requires forall i | i in ids :: Key(kind, i) in previous
    ensures At(Replay(state, Removals(previous, kind, ids, incoming)), k)
            == if k.kind == kind && k.id in ids && k !in incoming then None else At(state, k)
  {
    if ids != [] {
      var n := |ids| - 1;
      ReplayOfRemovals(previous, kind, ids[..n], incoming, state, k);
      InInit(ids, k.id);
      assert ids[n] in ids;
      var gone := Key(kind, ids[n]);
      if gone in incoming {
        assert Removals(previous, kind, ids, incoming) == Removals(previous, kind, ids[..n], incoming);
      } else {
        ReplayOneMore(state, Removals(previous, kind, ids[..n], incoming),
            Event(Removed, gone, Some(previous[gone]), None));
      }
    }
  }

  lemma ReplayOfDiff(previous: State, kind: Kind, snapshot: seq<Entity>, k: Key)
    requires OfKind(snapshot, kind)
    ensures At(Replay(previous, Diff(previous, kind, snapshot)), k)
            == if k.kind == kind && k !in Incoming(snapshot) then None
               else LastChange(At(previous, k), Copies(snapshot, k))
  {
    var sorted, ids, incoming := Sort(EntityLe, snapshot), SortedKnown(previous, kind), Incoming(snapshot);
    SortedIdsListTheSet(KnownIds(previous, kind));
    ReplayAppend(previous, Changes(previous, sorted), Removals(previous, kind, ids, incoming));
    ReplayOfRemovals(previous, kind, ids, incoming, Replay(previous, Changes(previous, sorted)), k);
    ReplayOfChanges(previous, sorted, k);
    SortKeepsCopies(kind, snapshot, k);
    IncomingIsLastCopy(snapshot, k);
  }

  lemma NextStateAt(previous: State, kind: Kind, snapshot: seq<Entity>, k: Key)
    requires OfKind(snapshot, kind)
    ensures At(NextState(previous, kind, snapshot), k)
            == if k.kind != kind then At(previous, k) else At(Incoming(snapshot), k)
  {
    IncomingIsLastCopy(snapshot, k);
    CopiesAre(snapshot, k);
    if Copies(snapshot, k) != [] {
      assert Copies(snapshot, k)[0] in snapshot;
    }
  }

  // ------------------------------------------------------- main results on one snapshot

  /**
   The condition on a snapshot: a key whose last copy equals the known state has no other copy
   that differs from it.
   */
  ghost predicate Replayable(previous: State, snapshot: seq<Entity>) {
    forall e | e in snapshot ::
      var k := KeyOf(e);
      k in previous && k in Incoming(snapshot) && Incoming(snapshot)[k] == previous[k] ==> e == previous[k]
  }

  lemma SameAt(a: State, b: State)
    requires forall k :: At(a, k) == At(b, k)
    ensures a == b
  {
    forall k ensures k in a <==> k in b { assert At(a, k) == At(b, k); }
    forall k | k in a ensures a[k] == b[k] { assert At(a, k) == At(b, k); }
  }

  lemma {:induction false} LastChangeIsLast(before: Option<Entity>, copies: seq<Entity>)
    requires copies != []
    ensures LastChange(before, copies) == Some(copies[|copies| - 1])
            <==> (Some(copies[|copies| - 1]) == before ==> forall e | e in copies :: Some(e) == before)
  {
    var n := |copies| - 1;
    if Some(copies[n]) == before {
      assert copies == copies[..n] + [copies[n]];
      if copies[..n] != [] { LastChangeOfSame(before, copies[..n]); }
    }
  }

  lemma {:induction false} LastChangeOfSame(before: Option<Entity>, copies: seq<Entity>)
    ensures LastChange(before, copies) == before <==> forall e | e in copies :: Some(e) == before
  {
    if copies != [] {
      var n := |copies| - 1;
      assert copies == copies[..n] + [copies[n]];
      LastChangeOfSame(before, copies[..n]);
    }
  }

  /** Replaying the emitted events gives the new state exactly under the condition. */
  lemma {:induction false} DiffReplaysIff(previous: State, kind: Kind, snapshot: seq<Entity>)
    requires OfKind(snapshot, kind)
    ensures Replay(previous, Diff(previous, kind, snapshot)) == NextState(previous, kind, snapshot)
            <==> Replayable(previous, snapshot)
  {
    var replayed, next := Replay(previous, Diff(previous, kind, snapshot)), NextState(previous, kind, snapshot);
    if Replayable(previous, snapshot) {
      forall k ensures At(replayed, k) == At(next, k) {
        KeyReplaysIff(previous, kind, snapshot, k);
      }
      SameAt(replayed, next);
    } else {
      var e :| e in snapshot && var k := KeyOf(e);
                 k in previous && k in Incoming(snapshot) && Incoming(snapshot)[k] == previous[k] && e != previous[k];
      KeyReplaysIff(previous, kind, snapshot, KeyOf(e));
    }
  }

  lemma KeyReplaysIff(previous: State, kind: Kind, snapshot: seq<Entity>, k: Key)
    requires OfKind(snapshot, kind)
    ensures At(Replay(previous, Diff(previous, kind, snapshot)), k) == At(NextState(previous, kind, snapshot), k)
            <==> (k in previous && k in Incoming(snapshot) && Incoming(snapshot)[k] == previous[k]
                  ==> forall e | e in snapshot && KeyOf(e) == k :: e == previous[k])
  {
    var copies := Copies(snapshot, k);
    ReplayOfDiff(previous, kind, snapshot, k);
    NextStateAt(previous, kind, snapshot, k);
    IncomingIsLastCopy(snapshot, k);
    CopiesAre(snapshot, k);
    if copies != [] {
      assert copies[0] in snapshot;
      LastChangeIsLast(At(previous, k), copies);
    }
  }

  /** A snapshot with distinct ids meets the condition. */
  lemma DistinctIsReplayable(previous: State, snapshot: seq<Entity>)
    requires Distinct(snapshot)
    ensures Replayable(previous, snapshot)
  {
    forall e | e in snapshot ensures KeyOf(e) in Incoming(snapshot) && Incoming(snapshot)[KeyOf(e)] == e {
      DistinctIncoming(snapshot, e);
    }
  }

  lemma {:induction false} DistinctIncoming(snapshot: seq<Entity>, e: Entity)
    requires Distinct(snapshot) && e in snapshot
    ensures KeyOf(e) in Incoming(snapshot) && Incoming(snapshot)[KeyOf(e)] == e
  {
    var n := |snapshot| - 1;
    if snapshot[n] != e {
      assert snapshot == snapshot[..n] + [snapshot[n]];
      DistinctIncoming(snapshot[..n], e);
    }
  }

  // ------------------------------------------------------- undoing a snapshot

  /** Every event records the state before the snapshot and changes it. */
  ghost predicate Genuine(previous: State, log: seq<Event>) {
    forall i | 0 <= i < |log| :: log[i].previous == At(previous, log[i].key) && log[i].current != log[i].previous
  }

  lemma {:induction false} ChangesAreGenuine(previous: State, records: seq<Entity>)
    ensures Genuine(previous, Changes(previous, records))
  {
    if records != [] { ChangesAreGenuine(previous, records[..|records| - 1]); }
  }

  lemma {:induction false} RemovalsAreGenuine(previous: State, kind: Kind, ids: seq<Id>, incoming: State)
    requires forall i | i in ids :: Key(kind, i) in previous
    ensures Genuine(previous, Removals(previous, kind, ids, incoming))
  {
    if ids != [] { RemovalsAreGenuine(previous, kind, ids[..|ids| - 1], incoming); }
  }

  lemma DiffIsGenuine(previous: State, kind: Kind, snapshot: seq<Entity>)
    ensures Genuine(previous, Diff(previous, kind, snapshot))
  {
    ChangesAreGenuine(previous, Sort(EntityLe, snapshot));
    RemovalsAreGenuine(previous, kind, SortedKnown(previous, kind), Incoming(snapshot));
  }

  /**
   The label of an event follows from what it carries: added has nothing before, removed nothing after, and
   otherwise the two activity flags decide. What it carries is filed under its key.
   */
  ghost predicate Labelled(e: Event) {
    && (e.what == Added <==> e.previous == None) && (e.what == Removed <==> e.current == None)
    && (e.what == Activated <==>
        e.previous.Some? && e.current.Some? && !e.previous.value.active && e.current.value.active)
    && (e.what == Deactivated <==>
        e.previous.Some? && e.current.Some? && e.previous.value.active && !e.current.value.active)
    && (e.what == Updated <==>
        e.previous.Some? && e.current.Some? && e.previous.value.active == e.current.value.active)
    && (e.previous.Some? ==> Key(if e.previous.value.User? then Users else Systems, e.previous.value.id) == e.key)
    && (e.current.Some? ==> Key(if e.current.value.User? then Users else Systems, e.current.value.id) == e.key)
  }

  ghost predicate AllLabelled(log: seq<Event>) {
    forall i | 0 <= i < |log| :: Labelled(log[i])
  }

  lemma {:induction false} ChangesAreLabelled(previous: State, records: seq<Entity>)
    requires Filed(previous)
    ensures AllLabelled(Changes(previous, records))
  {
    if records != [] { ChangesAreLabelled(previous, records[..|records| - 1]); }
  }

  lemma {:induction false} RemovalsAreLabelled(previous: State, kind: Kind, ids: seq<Id>, incoming: State)
    requires Filed(previous) && forall i | i in ids :: Key(kind, i) in previous
    ensures AllLabelled(Removals(previous, kind, ids, incoming))
  {
    if ids != [] { RemovalsAreLabelled(previous, kind, ids[..|ids| - 1], incoming); }
  }

  /** Every event of a snapshot is labelled by its own two states, repeated ids included. */
  lemma DiffIsLabelled(previous: State, kind: Kind, snapshot: seq<Entity>)
    requires Filed(previous)
    ensures AllLabelled(Diff(previous, kind, snapshot))
  {
    ChangesAreLabelled(previous, Sort(EntityLe, snapshot));
    RemovalsAreLabelled(previous, kind, SortedKnown(previous, kind), Incoming(snapshot));
  }

  ghost predicate Touches(log: seq<Event>, k: Key) {
    exists i :: 0 <= i < |log| && log[i].key == k
  }

  lemma {:induction false} RewindAt(previous: State, state: State, log: seq<Event>, k: Key)
    requires Genuine(previous, log)
    ensures At(Rewind(state, log), k) == if Touches(log, k) then At(previous, k) else At(state, k)
    decreases |log|
  {
    if log != [] {
      var n := |log| - 1;
      RewindAt(previous, Undo(state, log[n]), log[..n], k);
      if Touches(log, k) && log[n].key != k {
        var i :| 0 <= i < |log| && log[i].key == k;
        assert log[..n][i].key == k;
      }
      if Touches(log[..n], k) {
        var i :| 0 <= i < n && log[..n][i].key == k;
        assert log[i].key == k;
      }
    }
  }

  lemma {:induction false} ReplayUntouched(state: State, log: seq<Event>, k: Key)
    requires !Touches(log, k)
    ensures At(Replay(state, log), k) == At(state, k)
  {
    if log != [] {
      var n := |log| - 1;
      assert log[n].key != k;
      assert forall i | 0 <= i < n :: log[..n][i] == log[i];
      ReplayUntouched(state, log[..n], k);
    }
  }

  lemma {:induction false} ChangesTouch(previous: State, records: seq<Entity>, e: Entity)
    requires e in records && At(previous, KeyOf(e)) != Some(e)
    ensures Touches(Changes(previous, records), KeyOf(e))
  {
    var init, last := records[..|records| - 1], records[|records| - 1];
    assert records == init + [last];
    var log := Changes(previous, init);
    if e == last {
      assert Changes(previous, records)[|log|].key == KeyOf(e);
    } else {
      ChangesTouch(previous, init, e);
      var i :| 0 <= i < |log| && log[i].key == KeyOf(e);
      assert Changes(previous, records)[i].key == KeyOf(e);
    }
  }

  /** Undoing the events of any snapshot, duplicated ids included, gives the old state back. */
  lemma DiffRewinds(previous: State, kind: Kind, snapshot: seq<Entity>)
    requires OfKind(snapshot, kind)
    ensures Rewind(NextState(previous, kind, snapshot), Diff(previous, kind, snapshot)) == previous
  {
    var next, log := NextState(previous, kind, snapshot), Diff(previous, kind, snapshot);
    DiffIsGenuine(previous, kind, snapshot);
    forall k ensures At(Rewind(next, log), k) == At(previous, k) {
      RewindAt(previous, next, log, k);
      if !Touches(log, k) {
        ReplayUntouched(previous, log, k);
        UntouchedCopies(previous, kind, snapshot, k);
        KeyReplaysIff(previous, kind, snapshot, k);
      }
    }
    SameAt(Rewind(next, log), previous);
  }

  lemma TouchesAppend(a: seq<Event>, b: seq<Event>, k: Key)
    ensures Touches(a, k) ==> Touches(a + b, k)
  {
    if i :| 0 <= i < |a| && a[i].key == k { assert (a + b)[i].key == k; }
  }

  lemma UntouchedCopies(previous: State, kind: Kind, snapshot: seq<Entity>, k: Key)
    requires OfKind(snapshot, kind) && !Touches(Diff(previous, kind, snapshot), k)
    ensures forall e | e in snapshot && KeyOf(e) == k :: At(previous, k) == Some(e)
  {
    var sorted := Sort(EntityLe, snapshot);
    SameElements(sorted, snapshot);
    var removals := Removals(previous, kind, SortedKnown(previous, kind), Incoming(snapshot));
    TouchesAppend(Changes(previous, sorted), removals, k);
    forall e | e in snapshot && KeyOf(e) == k ensures At(previous, k) == Some(e) {
      if At(previous, k) != Some(e) { ChangesTouch(previous, sorted, e); }
    }
  }

  /** Events published for a snapshot that was then abandoned never replay to the state that was kept. */
  lemma AbandonedPrefixDoesNotReplay(previous: State, kind: Kind, snapshot: seq<Entity>, n: nat)
    requires 0 < n <= |Diff(previous, kind, snapshot)|
    ensures Replay(previous, Diff(previous, kind, snapshot)[..n]) != previous
  {
    var log := Diff(previous, kind, snapshot)[..n];
    DiffIsGenuine(previous, kind, snapshot);
    var e := log[n - 1];
    assert e == Diff(previous, kind, snapshot)[n - 1];
    assert At(Replay(previous, log), e.key) == e.current;
  }

  /** Reconciling the same snapshot again emits nothing exactly when it holds no two different copies of an id. */
  lemma {:induction false} RepeatIsSilentIff(previous: State, kind: Kind, snapshot: seq<Entity>)
    requires OfKind(snapshot, kind)
    ensures Diff(NextState(previous, kind, snapshot), kind, snapshot) == []
            <==> forall e | e in snapshot :: KeyOf(e) in Incoming(snapshot) && Incoming(snapshot)[KeyOf(e)] == e
  {
    var next, incoming := NextState(previous, kind, snapshot), Incoming(snapshot);
    var sorted := Sort(EntityLe, snapshot);
    SameElements(sorted, snapshot);
    forall k { NextStateAt(previous, kind, snapshot, k); }
    forall e | e in snapshot ensures At(next, KeyOf(e)) == At(incoming, KeyOf(e)) {
      assert KindOf(e) == kind;
    }
    if e :| e in sorted && At(next, KeyOf(e)) != Some(e) {
      ChangesTouch(next, sorted, e);
    } else {
      NothingToChange(next, sorted);
    }
    forall i | i in SortedKnown(next, kind) ensures Key(kind, i) in incoming {
      assert At(next, Key(kind, i)) == At(incoming, Key(kind, i));
    }
    NothingToRemove(next, kind, SortedKnown(next, kind), incoming);
  }

  lemma {:induction false} NothingToChange(previous: State, records: seq<Entity>)
    requires forall e | e in records :: At(previous, KeyOf(e)) == Some(e)
    ensures Changes(previous, records) == []
  {
    if records != [] {
      assert records[|records| - 1] in records;
      NothingToChange(previous, records[..|records| - 1]);
    }
  }

  lemma {:induction false} NothingToRemove(previous: State, kind: Kind, ids: seq<Id>, incoming: State)
    requires forall i | i in ids :: Key(kind, i) in previous
    requires forall i | i in ids :: Key(kind, i) in incoming
    ensures Removals(previous, kind, ids, incoming) == []
  {
    if ids != [] {
      assert ids[|ids| - 1] in ids;
      NothingToRemove(previous, kind, ids[..|ids| - 1], incoming);
    }
  }

  // ------------------------------------------------------- which events, how often, in which order

  /** The event says of this record that it came, and differs from what was known. */
  ghost predicate Reports(previous: State, e: Event) {
    e.current.Some? && e.previous == At(previous, e.key) && e.previous != e.current && Labelled(e)
  }

  lemma ChangeCount(previous: State, r: Entity, e: Event)
    requires Filed(previous)
    ensures multiset(Change(previous, r))[e] == if Reports(previous, e) && e.current == Some(r) then 1 else 0
  {
  }

  lemma {:induction false} ChangesCount(previous: State, records: seq<Entity>, e: Event)
    requires Filed(previous)
    ensures multiset(Changes(previous, records))[e]
            == if Reports(previous, e) then multiset(records)[e.current.value] else 0
  {
    if records != [] {
      var n := |records| - 1;
      ChangesCount(previous, records[..n], e);
      ChangeCount(previous, records[n], e);
      assert records == records[..n] + [records[n]];
    }
  }

  /** The event says of a known entity that no record came for it. */
  ghost predicate ReportsGone(previous: State, kind: Kind, incoming: State, e: Event) {
    && e.key.kind == kind && e.key in previous && e.key !in incoming
    && e == Event(Removed, e.key, Some(previous[e.key]), None)
  }

  lemma {:induction false} RemovalsCount(previous: State, kind: Kind, ids: seq<Id>, incoming: State, e: Event)
    requires (forall i | i in ids :: Key(kind, i) in previous) && forall i, j | 0 <= i < j < |ids| :: ids[i] != ids[j]
    ensures multiset(Removals(previous, kind, ids, incoming))[e]
            == if e.key.id in ids && ReportsGone(previous, kind, incoming, e) then 1 else 0
  {
    if ids != [] {
      var n := |ids| - 1;
      assert ids[n] in ids;
      RemovalsCount(previous, kind, ids[..n], incoming, e);
      InInit(ids, e.key.id);
      assert ids[n] !in ids[..n];
    }
  }

  /**
   The events of a snapshot, each with its multiplicity: a change is reported once for every copy of a record that
   differs from the state before, a removal once for every known id of the kind that has no record; nothing else is.
   */
  lemma DiffCount(previous: State, kind: Kind, snapshot: seq<Entity>, e: Event)
    requires Filed(previous) && OfKind(snapshot, kind)
    ensures multiset(Diff(previous, kind, snapshot))[e]
            == if Reports(previous, e) then multiset(snapshot)[e.current.value]
               else if ReportsGone(previous, kind, Incoming(snapshot), e) then 1
               else 0
    ensures e.key !in Incoming(snapshot) <==> forall r | r in snapshot :: KeyOf(r) != e.key
  {
    var sorted, ids := Sort(EntityLe, snapshot), SortedKnown(previous, kind);
    SortedIdsListTheSet(KnownIds(previous, kind));
    ChangesCount(previous, sorted, e);
    RemovalsCount(previous, kind, ids, Incoming(snapshot), e);
    if e.key in previous && e.key.kind == kind { assert e.key.id in KnownIds(previous, kind); }
    IncomingIsLastCopy(snapshot, e.key);
    CopiesAre(snapshot, e.key);
    if Copies(snapshot, e.key) != [] { assert Copies(snapshot, e.key)[0] in snapshot; }
  }

  /** Changes come before removals; the changes in the order of ids, the removals in the order of ids. */
  ghost predicate InPlace(a: Event, b: Event) {
    if a.current.Some? == b.current.Some? then IdLe(a.key.id, b.key.id) else a.current.Some?
  }

  ghost predicate Ordered(log: seq<Event>) {
    forall i, j | 0 <= i < j < |log| :: InPlace(log[i], log[j])
  }

  lemma EntityLeTotal()
    ensures TotalPreorder(EntityLe)
  {
    forall a, b ensures EntityLe(a, b) || EntityLe(b, a) { IdLeLinear(a.id, b.id, b.id); }
    forall a, b, c | EntityLe(a, b) && EntityLe(b, c) ensures EntityLe(a, c) { IdLeLinear(a.id, b.id, c.id); }
  }

  lemma {:induction false} ChangesOrdered(previous: State, records: seq<Entity>)
    requires Sorted(EntityLe, records)
    ensures Ordered(Changes(previous, records))
    ensures forall e | e in Changes(previous, records) ::
              e.current.Some? && e.key == KeyOf(e.current.value) && e.current.value in records
  {
    if records != [] {
      var n := |records| - 1;
      var log, last := Changes(previous, records[..n]), Change(previous, records[n]);
      ChangesOrdered(previous, records[..n]);
      assert records == records[..n] + [records[n]];
      if last != [] {
        forall i | 0 <= i < |log| ensures InPlace(log[i], last[0]) {
          assert log[i] in log;
          var k :| 0 <= k < n && records[k] == log[i].current.value;
          assert EntityLe(records[k], records[n]);
        }
        assert last == [last[0]];
      }
    }
  }

  lemma {:induction false} RemovalsOrdered(previous: State, kind: Kind, ids: seq<Id>, incoming: State)
    requires (forall i | i in ids :: Key(kind, i) in previous) && Increasing(ids)
    ensures Ordered(Removals(previous, kind, ids, incoming))
    ensures forall e | e in Removals(previous, kind, ids, incoming) :: e.current.None? && e.key.id in ids
  {
    if ids != [] {
      var n := |ids| - 1;
      var log := Removals(previous, kind, ids[..n], incoming);
      RemovalsOrdered(previous, kind, ids[..n], incoming);
      assert ids == ids[..n] + [ids[n]] && ids[n] in ids;
      forall i | 0 <= i < |log| ensures IdLe(log[i].key.id, ids[n]) {
        assert log[i] in log;
        var k :| 0 <= k < n && ids[k] == log[i].key.id;
      }
    }
  }

  lemma DiffIsOrdered(previous: State, kind: Kind, snapshot: seq<Entity>)
    ensures Ordered(Diff(previous, kind, snapshot))
  {
    var sorted, ids := Sort(EntityLe, snapshot), SortedKnown(previous, kind);
    var changes, removals := Changes(previous, sorted), Removals(previous, kind, ids, Incoming(snapshot));
    EntityLeTotal();
    SortSorted(EntityLe, snapshot);
    SortedIdsListTheSet(KnownIds(previous, kind));
    ChangesOrdered(previous, sorted);
    RemovalsOrdered(previous, kind, ids, Incoming(snapshot));
    var log := changes + removals;
    forall i, j | 0 <= i < j < |log| ensures InPlace(log[i], log[j]) {
      if i < |changes| <= j { assert changes[i] in changes && removals[j - |changes|] in removals; }
    }
  }
}
