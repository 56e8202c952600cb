/** The distributed event collector: it filters, orders and numbers events and queues each for synchronization. */
module EventCollection {
  import opened Wrappers
  import opened Sorting
  import opened CloudSync

  datatype Event = Event(id: Id, organization: Id, eventType: string, occurredAt: int, stamp: string,
      data: seq<(string, string)>)

  datatype Envelope = Envelope(event: Event, sequence: nat)

  datatype Collected = Collected(
    received: nat, accepted: nat, duplicates: nat, rejected: nat, envelopes: seq<Envelope>, records: seq<Record>)

  datatype World = World(seen: set<Id>, sequence: nat, queue: Queue)

  /** `key=(occurred_at, event_id)`. */
  predicate EventLe(a: Event, b: Event) {
    a.occurredAt < b.occurredAt || (a.occurredAt == b.occurredAt && IdLe(a.id, b.id))
  }

  predicate Acceptable(c: Setting, item: Option<Event>) {
    item.Some? && item.value.organization == c.identity.organization
  }

  /** The events of the collector's organization, in order of arrival; None is something that is not an event. */
  function ValidEvents(c: Setting, items: seq<Option<Event>>): seq<Event> {
    if items == [] then []
    else ValidEvents(c, items[..|items| - 1])
         + if Acceptable(c, items[|items| - 1]) then [items[|items| - 1].value] else []
  }

  function PayloadOf(e: Event): Payload { Payload(e.eventType, e.id, e.stamp, e.data) }

  /** The second loop so far; `raised` when preparing the last record failed. */
  datatype Batch = Batch(world: World, envelopes: seq<Envelope>, records: seq<Record>, duplicates: nat, raised: bool)

  function Process(c: Setting, b: Batch, e: Event): Batch {
    if b.raised then b
    else if e.id in b.world.seen then b.(duplicates := b.duplicates + 1)
    else
      var w, answer := b.world, PrepareAnswer(c, b.world.queue, PayloadOf(e));
      Batch(World(w.seen + {e.id}, w.sequence + 1, AfterPrepare(c, w.queue, PayloadOf(e))),
            b.envelopes + [Envelope(e, w.sequence)],
            if answer.Success? then b.records + [answer.value] else b.records,
            b.duplicates, answer.Failure?)
  }

  function ProcessAll(c: Setting, w: World, events: seq<Event>): Batch {
    if events == [] then Batch(w, [], [], 0, false)
    else Process(c, ProcessAll(c, w, events[..|events| - 1]), events[|events| - 1])
  }

  function Ordered(c: Setting, items: seq<Option<Event>>): seq<Event> {
    Sort(EventLe, ValidEvents(c, items))
  }

  function BatchOf(c: Setting, w: World, items: seq<Option<Event>>): Batch {
    ProcessAll(c, w, Ordered(c, items))
  }

  function CollectAnswer(c: Setting, w: World, items: seq<Option<Event>>): Result<Collected, SyncError> {
    var b := BatchOf(c, w, items);
    if b.raised then Failure(InvalidPayload)
    else
      var valid := |ValidEvents(c, items)|;
      var rejected := if valid <= |items| then |items| - valid else 0;
      Success(Collected(|items|, |b.envelopes|, b.duplicates, rejected, b.envelopes, b.records))
  }

  class DistributedEventCollector {
    const manager: CloudSyncManager
    var seen: set<Id>
    var sequence: nat

    constructor (manager: CloudSyncManager)
      ensures this.manager == manager && seen == {} && sequence == 0
    {
      this.manager := manager;
      seen, sequence := {}, 0;
    }

    ghost function Contents(): World
      reads this, manager
    {
      World(seen, sequence, manager.queue)
    }

    method Collect(items: seq<Option<Event>>) returns (r: Result<Collected, SyncError>)
      modifies this, manager
      ensures Contents() == BatchOf(manager.setting, old(Contents()), items).world
      ensures r == CollectAnswer(manager.setting, old(Contents()), items)
      ensures r.Failure? ==> r.error == InvalidPayload
    {
      var valid, rejected := Filtered(manager.setting, items);
      var raised, envelopes, records, duplicates := NumberAll(Sort(EventLe, valid));
      if raised {
        return Failure(InvalidPayload);
      }
      r := Success(Collected(|items|, |envelopes|, duplicates, rejected, envelopes, records));
    }

    /** The second loop: duplicates are counted, the rest is numbered, and prepared until that raises. */
    method NumberAll(ordered: seq<Event>)
      returns (raised: bool, envelopes: seq<Envelope>, records: seq<Record>, duplicates: nat)
      modifies this, manager
      ensures ProcessAll(manager.setting, old(Contents()), ordered)
              == Batch(Contents(), envelopes, records, duplicates, raised)
    {
      ghost var c, w := manager.setting, Contents();
      raised, envelopes, records, duplicates := false, [], [], 0;
      for i := 0 to |ordered|
        invariant ProcessAll(c, w, ordered[..i]) == Batch(Contents(), envelopes, records, duplicates, false)
        invariant !raised
      {
        assert ordered[..i + 1][..i] == ordered[..i];
        if ordered[i].id in seen {
          duplicates := duplicates + 1;
        } else {
          var envelope, record := Take(ordered[i]);
          envelopes := envelopes + [envelope];
          if record.Failure? {
            RaisedStays(c, w, ordered, i + 1);
            raised := true;
            return;
          }
          records := records + [record.value];
        }
      }
      assert ordered[..|ordered|] == ordered;
    }

    method Take(e: Event) returns (envelope: Envelope, record: Result<Record, SyncError>)
      modifies this, manager
      ensures envelope == Envelope(e, old(sequence))
      ensures record == PrepareAnswer(manager.setting, old(manager.queue), PayloadOf(e))
      ensures seen == old(seen) + {e.id} && sequence == old(sequence) + 1
      ensures manager.queue == AfterPrepare(manager.setting, old(manager.queue), PayloadOf(e))
    {
      envelope := Envelope(e, sequence);
      sequence := sequence + 1;
      seen := seen + {e.id};
      record := manager.Prepare(PayloadOf(e));
    }

    /** The first loop: what is rejected before sorting. */
    static method Filtered(c: Setting, items: seq<Option<Event>>) returns (valid: seq<Event>, rejected: nat)
      ensures valid == ValidEvents(c, items) && rejected + |valid| == |items|
    {
      valid, rejected := [], 0;
      for i := 0 to |items|
        invariant valid == ValidEvents(c, items[..i]) && rejected + |valid| == i
      {
        assert items[..i + 1][..i] == items[..i];
        if !Acceptable(c, items[i]) {
          rejected := rejected + 1;
        } else {
          valid := valid + [items[i].value];
        }
      }
      assert items[..|items|] == items;
    }

    method ResetSeenEvents()
      modifies this`seen
      ensures seen == {}
    {
      seen := {};
    }
  }

  /** Once preparing fails, the rest of the events is not looked at. */
  lemma {:induction false} RaisedStays(c: Setting, w: World, events: seq<Event>, n: nat)
    requires n <= |events| && ProcessAll(c, w, events[..n]).raised
    ensures ProcessAll(c, w, events) == ProcessAll(c, w, events[..n])
    decreases |events|
  {
    if n == |events| {
      assert events[..n] == events;
    } else {
      assert events[..|events| - 1][..n] == events[..n];
      RaisedStays(c, w, events[..|events| - 1], n);
    }
  }

  // ------------------------------------------------------- one batch

  /** What a batch does to the counters, the seen ids and the queue. */
  ghost predicate Consistent(w: World, events: seq<Event>, b: Batch) {
    && (!b.raised ==> |b.envelopes| + b.duplicates == |events|)
    && b.world.sequence == w.sequence + |b.envelopes|
    && (forall i | 0 <= i < |b.envelopes| ::
          b.envelopes[i].sequence == w.sequence + i && b.envelopes[i].event.id !in w.seen)
    && (forall i, j | 0 <= i < j < |b.envelopes| :: b.envelopes[i].event.id != b.envelopes[j].event.id)
    && (forall i | 0 <= i < |b.envelopes| :: b.envelopes[i].event.id in b.world.seen)
    && (forall x | x in b.world.seen :: x in w.seen || HasId(b.envelopes, x))
    && w.seen <= b.world.seen
    && (!b.raised ==> forall e | e in events :: e.id in b.world.seen)
  }

  lemma {:induction false} BatchIsConsistent(c: Setting, w: World, events: seq<Event>)
    ensures Consistent(w, events, ProcessAll(c, w, events))
  {
    if events != [] {
      var init, e := events[..|events| - 1], events[|events| - 1];
      BatchIsConsistent(c, w, init);
      ProcessIsConsistent(c, w, init, ProcessAll(c, w, init), e);
      assert events == init + [e];
    }
  }

  lemma ProcessIsConsistent(c: Setting, w: World, init: seq<Event>, b: Batch, e: Event)
    requires Consistent(w, init, b)
    ensures Consistent(w, init + [e], Process(c, b, e))
  {
    var d := Process(c, b, e);
    if !b.raised && e.id !in b.world.seen {
      forall x ensures HasId(d.envelopes, x) <==> HasId(b.envelopes, x) || x == e.id {
        HasIdAppend(b.envelopes, [Envelope(e, b.world.sequence)], x);
        assert [Envelope(e, b.world.sequence)][0].event.id == e.id;
      }
    }
  }

  ghost predicate InOrder(envelopes: seq<Envelope>) {
    forall i, j | 0 <= i < j < |envelopes| :: EventLe(envelopes[i].event, envelopes[j].event)
  }

  ghost predicate TakenFrom(envelopes: seq<Envelope>, events: seq<Event>) {
    forall i | 0 <= i < |envelopes| :: envelopes[i].event in events
  }

  lemma InOrderOneMore(envelopes: seq<Envelope>, events: seq<Event>, last: Envelope)
    requires Sorted(EventLe, events + [last.event]) && TakenFrom(envelopes, events) && InOrder(envelopes)
    ensures InOrder(envelopes + [last])
  {
    forall i | 0 <= i < |envelopes| ensures EventLe(envelopes[i].event, last.event) {
      var k :| 0 <= k < |events| && events[k] == envelopes[i].event;
      assert (events + [last.event])[k] == events[k] && (events + [last.event])[|events|] == last.event;
    }
  }

  /** The envelopes keep the order of the sorted events. */
  lemma {:induction false} EnvelopesInOrder(c: Setting, w: World, events: seq<Event>)
    requires Sorted(EventLe, events)
    ensures TakenFrom(ProcessAll(c, w, events).envelopes, events) && InOrder(ProcessAll(c, w, events).envelopes)
  {
    if events != [] {
      var n := |events| - 1;
      EnvelopesInOrder(c, w, events[..n]);
      var before, after := ProcessAll(c, w, events[..n]).envelopes, ProcessAll(c, w, events).envelopes;
      assert events == events[..n] + [events[n]];
      if after != before {
        var last := after[|before|];
        InOrderOneMore(before, events[..n], last);
        assert after == before + [last];
      }
    }
  }

  /** A record once queued is never replaced, and every event that was prepared has one. */
  lemma {:induction false} QueueOnlyGrows(c: Setting, w: World, events: seq<Event>)
    requires Keyed(c, w.queue) && Unshared(c, w.queue)
    ensures
      var b := ProcessAll(c, w, events);
      && Keyed(c, b.world.queue) && Unshared(c, b.world.queue)
      && (forall k | k in w.queue :: k in b.world.queue && b.world.queue[k] == w.queue[k])
      && (!b.raised ==> forall i | 0 <= i < |b.envelopes| :: KeyOf(c, b.envelopes[i].event.id) in b.world.queue)
  {
    if events != [] { QueueOnlyGrows(c, w, events[..|events| - 1]); }
  }

  /** Received is accepted plus duplicate plus rejected, and a batch is sorted by time and id. */
  lemma CollectedAddsUp(c: Setting, w: World, items: seq<Option<Event>>)
    requires CollectAnswer(c, w, items).Success?
    ensures
      var r := CollectAnswer(c, w, items).value;
      && r.received == |items| && r.received == r.accepted + r.duplicates + r.rejected
      && r.accepted == |r.envelopes|
      && InOrder(r.envelopes)
  {
    var valid := ValidEvents(c, items);
    ValidCount(c, items);
    SameElements(Ordered(c, items), valid);
    BatchIsConsistent(c, w, Ordered(c, items));
    EventLeTotal();
    SortSorted(EventLe, valid);
    EnvelopesInOrder(c, w, Ordered(c, items));
  }

  lemma {:induction false} ValidCount(c: Setting, items: seq<Option<Event>>)
    ensures |ValidEvents(c, items)| <= |items|
  {
    if items != [] { ValidCount(c, items[..|items| - 1]); }
  }

  lemma EventLeTotal()
    ensures TotalPreorder(EventLe)
  {
    forall a, b ensures EventLe(a, b) || EventLe(b, a) { IdLeLinear(a.id, b.id, b.id); }
    forall a, b, c | EventLe(a, b) && EventLe(b, c) ensures EventLe(a, c) { IdLeLinear(a.id, b.id, c.id); }
  }

  // ------------------------------------------------------- whole runs

  datatype Action = Collect(items: seq<Option<Event>>) | Reset

  /**
   A run so far: the envelopes numbered by all calls, those that calls returned (a call that raised
   returned none), those numbered since the last reset, and whether some call raised.
   */
  datatype History = History(world: World, all: seq<Envelope>, returned: seq<Envelope>, recent: seq<Envelope>,
      raised: bool)

  function Next(c: Setting, h: History, a: Action): History {
    match a
    case Reset => h.(world := h.world.(seen := {}), recent := [])
    case Collect(items) =>
      var b := BatchOf(c, h.world, items);
      History(b.world, h.all + b.envelopes, if b.raised then h.returned else h.returned + b.envelopes,
              h.recent + b.envelopes, h.raised || b.raised)
  }

  function Run(c: Setting, actions: seq<Action>): History {
    if actions == [] then History(World({}, 0, map[]), [], [], [], false)
    else Next(c, Run(c, actions[..|actions| - 1]), actions[|actions| - 1])
  }

  ghost predicate Distinct(envelopes: seq<Envelope>) {
    forall i, j | 0 <= i < j < |envelopes| :: envelopes[i].event.id != envelopes[j].event.id
  }

  ghost predicate HasId(envelopes: seq<Envelope>, x: Id) {
    exists i :: 0 <= i < |envelopes| && envelopes[i].event.id == x
  }

  ghost predicate Numbered(h: History) {
    && h.world.sequence == |h.all| && (forall i | 0 <= i < |h.all| :: h.all[i].sequence == i)
    && |h.returned| <= |h.all| && (|h.returned| == |h.all| <==> !h.raised) && (!h.raised ==> h.returned == h.all)
  }

  ghost predicate Recent(h: History) {
    Distinct(h.recent) && forall x :: x in h.world.seen <==> HasId(h.recent, x)
  }

  /**
   Over any run: the envelopes are numbered 0, 1, 2, ... without a gap, all of them were returned if no call
   raised and otherwise some were not; since the last reset no id was numbered twice; and the queue holds this
   node's records under their own keys, so at most one for each event id, even across resets.
   */
  lemma {:induction false} NumberingIsGapless(c: Setting, actions: seq<Action>)
    ensures Numbered(Run(c, actions)) && Recent(Run(c, actions))
    ensures Keyed(c, Run(c, actions).world.queue) && Unshared(c, Run(c, actions).world.queue)
  {
    if actions != [] {
      var n := |actions| - 1;
      var h := Run(c, actions[..n]);
      NumberingIsGapless(c, actions[..n]);
      if actions[n].Collect? {
        var events := Ordered(c, actions[n].items);
        BatchIsConsistent(c, h.world, events);
        RaisedConsumes(c, h.world, events);
        QueueOnlyGrows(c, h.world, events);
        CollectKeepsNumbering(c, h, actions[n].items);
        CollectKeepsRecent(c, h, actions[n].items);
      }
    }
  }

  lemma {:induction false} RaisedConsumes(c: Setting, w: World, events: seq<Event>)
    ensures ProcessAll(c, w, events).raised ==> ProcessAll(c, w, events).envelopes != []
  {
    if events != [] { RaisedConsumes(c, w, events[..|events| - 1]); }
  }

  lemma CollectKeepsNumbering(c: Setting, h: History, items: seq<Option<Event>>)
    requires Numbered(h) && Consistent(h.world, Ordered(c, items), BatchOf(c, h.world, items))
    requires BatchOf(c, h.world, items).raised ==> BatchOf(c, h.world, items).envelopes != []
    ensures Numbered(Next(c, h, Collect(items)))
  {
  }

  lemma CollectKeepsRecent(c: Setting, h: History, items: seq<Option<Event>>)
    requires Recent(h) && Consistent(h.world, Ordered(c, items), BatchOf(c, h.world, items))
    ensures Recent(Next(c, h, Collect(items)))
  {
    var b := BatchOf(c, h.world, items);
    forall x { HasIdAppend(h.recent, b.envelopes, x); }
    forall i | 0 <= i < |h.recent| ensures h.recent[i].event.id in h.world.seen {
      assert HasId(h.recent, h.recent[i].event.id);
    }
  }

  lemma HasIdAppend(a: seq<Envelope>, b: seq<Envelope>, x: Id)
    ensures HasId(a + b, x) <==> HasId(a, x) || HasId(b, x)
  {
    if i :| 0 <= i < |a| && a[i].event.id == x { assert (a + b)[i].event.id == x; }
    if i :| 0 <= i < |b| && b[i].event.id == x { assert (a + b)[|a| + i].event.id == x; }
  }

  // ------------------------------------------------------- which calls raise

  /** An event that was not seen, that is the first in the list with its id, and that cannot be prepared. */
  predicate Unsendable(c: Setting, seen: set<Id>, events: seq<Event>, i: int) {
    && 0 <= i < |events| && events[i].id !in seen && !ValidPayload(c, PayloadOf(events[i]))
    && forall j | 0 <= j < i :: events[j].id != events[i].id
  }

  ghost predicate HasUnsendable(c: Setting, seen: set<Id>, events: seq<Event>) {
    exists i :: Unsendable(c, seen, events, i)
  }

  ghost predicate HasNew(seen: set<Id>, events: seq<Event>) {
    exists i :: 0 <= i < |events| && events[i].id !in seen
  }

  lemma UnsendableOneMore(c: Setting, seen: set<Id>, init: seq<Event>, e: Event)
    ensures HasUnsendable(c, seen, init + [e])
            <==> HasUnsendable(c, seen, init) || Unsendable(c, seen, init + [e], |init|)
  {
    var more := init + [e];
    if i :| Unsendable(c, seen, more, i) {
      if i < |init| {
        forall j | 0 <= j < i ensures init[j].id != init[i].id { assert more[j] == init[j]; }
        assert Unsendable(c, seen, init, i);
      }
    }
    if i :| Unsendable(c, seen, init, i) {
      forall j | 0 <= j < i ensures more[j].id != more[i].id { assert more[j] == init[j]; }
      assert Unsendable(c, seen, more, i);
    }
  }

  /** While nothing raises, the ids seen are those seen before and those of the events. */
  lemma SeenAfter(c: Setting, w: World, events: seq<Event>, x: Id)
    requires !ProcessAll(c, w, events).raised
    ensures x in ProcessAll(c, w, events).world.seen
            <==> x in w.seen || exists j :: 0 <= j < |events| && events[j].id == x
  {
    var b := ProcessAll(c, w, events);
    BatchIsConsistent(c, w, events);
    EnvelopesTaken(c, w, events);
    if x in b.world.seen && x !in w.seen {
      var i :| 0 <= i < |b.envelopes| && b.envelopes[i].event.id == x;
      assert b.envelopes[i].event in events;
    }
    if j :| 0 <= j < |events| && events[j].id == x { assert events[j] in events; }
  }

  lemma {:induction false} EnvelopesTaken(c: Setting, w: World, events: seq<Event>)
    ensures TakenFrom(ProcessAll(c, w, events).envelopes, events)
  {
    if events != [] {
      var n := |events| - 1;
      EnvelopesTaken(c, w, events[..n]);
      assert events == events[..n] + [events[n]];
    }
  }

  /** A batch raises exactly when one of its events is unsendable: new, the first with its id, and invalid. */
  lemma {:induction false} RaisesIff(c: Setting, w: World, events: seq<Event>)
    ensures ProcessAll(c, w, events).raised <==> HasUnsendable(c, w.seen, events)
  {
    if events == [] {
      assert !HasUnsendable(c, w.seen, events);
    } else {
      var n := |events| - 1;
      var init, e := events[..n], events[n];
      RaisesIff(c, w, init);
      UnsendableOneMore(c, w.seen, init, e);
      assert events == init + [e];
      if !ProcessAll(c, w, init).raised {
        SeenAfter(c, w, init, e.id);
        LastUnsendable(c, w, init, e);
      }
    }
  }

  lemma LastUnsendable(c: Setting, w: World, init: seq<Event>, e: Event)
    ensures Unsendable(c, w.seen, init + [e], |init|)
            <==> e.id !in w.seen && !ValidPayload(c, PayloadOf(e)) && !exists j :: 0 <= j < |init| && init[j].id == e.id
  {
    var events := init + [e];
    assert forall j | 0 <= j < |init| :: events[j] == init[j];
  }

  lemma HasNewOneMore(seen: set<Id>, init: seq<Event>, e: Event)
    ensures HasNew(seen, init + [e]) <==> HasNew(seen, init) || e.id !in seen
  {
    var more := init + [e];
    assert more[|init|] == e;
    if i :| 0 <= i < |init| && init[i].id !in seen { assert more[i].id !in seen; }
  }

  /** A batch numbers something exactly when some event is new. */
  lemma {:induction false} NumbersIff(c: Setting, w: World, events: seq<Event>)
    ensures ProcessAll(c, w, events).envelopes != [] <==> HasNew(w.seen, events)
  {
    if events != [] {
      var n := |events| - 1;
      NumbersIff(c, w, events[..n]);
      BatchIsConsistent(c, w, events[..n]);
      RaisedConsumes(c, w, events[..n]);
      HasNewOneMore(w.seen, events[..n], events[n]);
      assert events == events[..n] + [events[n]];
    }
  }

  // ------------------------------------------------------- when the returned numbers have a gap

  /** The numbers on the envelopes that callers got are 0, 1, 2, ... */
  ghost predicate Gapless(h: History) { FromZero(h.returned) }

  ghost predicate FromZero(envelopes: seq<Envelope>) {
    forall i | 0 <= i < |envelopes| :: envelopes[i].sequence == i
  }

  lemma FromZeroAppend(a: seq<Envelope>, b: seq<Envelope>, start: nat)
    requires |a| <= start && forall i | 0 <= i < |b| :: b[i].sequence == start + i
    ensures FromZero(a + b) <==> FromZero(a) && (b == [] || |a| == start)
  {
    var all := a + b;
    assert forall i | 0 <= i < |a| :: all[i] == a[i];
    assert forall i | 0 <= i < |b| :: all[|a| + i] == b[i];
    if FromZero(all) {
      assert FromZero(a);
      if b != [] { assert all[|a| + 0].sequence == start; }
    }
  }

  /** The call meets an unsendable event, given what was seen before it. */
  ghost predicate RaisesAt(c: Setting, actions: seq<Action>, n: nat)
    requires n < |actions|
  {
    actions[n].Collect? && HasUnsendable(c, Run(c, actions[..n]).world.seen, Ordered(c, actions[n].items))
  }

  /** The call meets a new event and no unsendable one. */
  ghost predicate ReturnsAt(c: Setting, actions: seq<Action>, n: nat)
    requires n < |actions|
  {
    actions[n].Collect? && !RaisesAt(c, actions, n)
    && HasNew(Run(c, actions[..n]).world.seen, Ordered(c, actions[n].items))
  }

  ghost predicate RaisedBefore(c: Setting, actions: seq<Action>, n: nat)
    requires n <= |actions|
  {
    exists m :: 0 <= m < n && RaisesAt(c, actions, m)
  }

  /** The call returns new envelopes after another one met an unsendable event. */
  ghost predicate LeavesGapAt(c: Setting, actions: seq<Action>, n: nat)
    requires n < |actions|
  {
    ReturnsAt(c, actions, n) && RaisedBefore(c, actions, n)
  }

  /** No call of the run does. */
  ghost predicate NoReturnAfterRaise(c: Setting, actions: seq<Action>) {
    actions == [] ||
    (NoReturnAfterRaise(c, actions[..|actions| - 1]) && !LeavesGapAt(c, actions, |actions| - 1))
  }

  lemma CallsInPrefix(c: Setting, actions: seq<Action>, n: nat, m: nat)
    requires m < n <= |actions|
    ensures RaisesAt(c, actions[..n], m) == RaisesAt(c, actions, m)
    ensures ReturnsAt(c, actions[..n], m) == ReturnsAt(c, actions, m)
  {
    assert actions[..n][..m] == actions[..m];
  }

  lemma RaisedBeforePrefix(c: Setting, actions: seq<Action>, n: nat, m: nat)
    requires m <= n <= |actions|
    ensures RaisedBefore(c, actions[..n], m) == RaisedBefore(c, actions, m)
  {
    forall k | 0 <= k < m ensures RaisesAt(c, actions[..n], k) == RaisesAt(c, actions, k) {
      CallsInPrefix(c, actions, n, k);
    }
  }

  lemma RaisedBeforeOneMore(c: Setting, actions: seq<Action>, n: nat)
    requires n < |actions|
    ensures RaisedBefore(c, actions, n + 1) <==> RaisedBefore(c, actions, n) || RaisesAt(c, actions, n)
  {
  }

  lemma {:induction false} RaisedIff(c: Setting, actions: seq<Action>)
    ensures Run(c, actions).raised <==> RaisedBefore(c, actions, |actions|)
  {
    if actions != [] {
      var n := |actions| - 1;
      RaisedIff(c, actions[..n]);
      RaisedBeforePrefix(c, actions, n, n);
      RaisedBeforeOneMore(c, actions, n);
      if actions[n].Collect? { RaisesIff(c, Run(c, actions[..n]).world, Ordered(c, actions[n].items)); }
    }
  }

  lemma GaplessOneMore(c: Setting, h: History, items: seq<Option<Event>>)
    requires Numbered(h) && Consistent(h.world, Ordered(c, items), BatchOf(c, h.world, items))
    ensures
      var b := BatchOf(c, h.world, items);
      Gapless(Next(c, h, Collect(items))) <==> Gapless(h) && !(h.raised && !b.raised && b.envelopes != [])
  {
    FromZeroAppend(h.returned, BatchOf(c, h.world, items).envelopes, h.world.sequence);
  }

  /**
   Over any run of collections and resets, the numbers on the returned envelopes are 0, 1, 2, ... exactly when no
   call that meets a new event, and no unsendable one, follows a call that met an unsendable event.
   */
  lemma {:induction false} ReturnedGaplessIff(c: Setting, actions: seq<Action>)
    ensures Gapless(Run(c, actions)) <==> NoReturnAfterRaise(c, actions)
  {
    if actions != [] {
      ReturnedGaplessIff(c, actions[..|actions| - 1]);
      LastCallGapless(c, actions);
    }
  }

  lemma LastCallGapless(c: Setting, actions: seq<Action>)
    requires actions != []
    ensures
      var n := |actions| - 1;
      Gapless(Run(c, actions)) <==> Gapless(Run(c, actions[..n])) && !LeavesGapAt(c, actions, n)
  {
    var n := |actions| - 1;
    RaisedIff(c, actions[..n]);
    RaisedBeforePrefix(c, actions, n, n);
    NumberingIsGapless(c, actions[..n]);
    if actions[n].Collect? { CollectGapless(c, Run(c, actions[..n]), actions[n].items); }
  }

  lemma CollectGapless(c: Setting, h: History, items: seq<Option<Event>>)
    requires Numbered(h)
    ensures
      var events := Ordered(c, items);
      Gapless(Next(c, h, Collect(items)))
      <==> Gapless(h) && !(h.raised && !HasUnsendable(c, h.world.seen, events) && HasNew(h.world.seen, events))
  {
    BatchIsConsistent(c, h.world, Ordered(c, items));
    RaisesIff(c, h.world, Ordered(c, items));
    NumbersIff(c, h.world, Ordered(c, items));
    GaplessOneMore(c, h, items);
  }

  // ------------------------------------------------------- an event that raised

  function One(e: Event): Action { Collect([Some(e)]) }

  lemma RunOneMore(c: Setting, actions: seq<Action>, a: Action)
    ensures Run(c, actions + [a]) == Next(c, Run(c, actions), a)
  {
    assert (actions + [a])[..|actions|] == actions;
  }

  lemma OneEvent(c: Setting, w: World, e: Event)
    requires Acceptable(c, Some(e))
    ensures Ordered(c, [Some(e)]) == [e]
    ensures ProcessAll(c, w, [e]) == Process(c, Batch(w, [], [], 0, false), e)
  {
    assert [Some(e)][..0] == [] && [e][..0] == [];
    assert ValidEvents(c, [Some(e)]) == [e];
    assert [e][1..] == [];
  }

  /** For any invalid event, from the start: its id is marked as seen and numbered, but has no record in the queue. */
  lemma FirstRaises(c: Setting, e: Event)
    requires Acceptable(c, Some(e)) && !ValidPayload(c, PayloadOf(e))
    ensures
      Run(c, [One(e)]) == History(World({e.id}, 1, map[]), [Envelope(e, 0)], [], [Envelope(e, 0)], true)
  {
    RunOneMore(c, [], One(e));
    assert [] + [One(e)] == [One(e)];
    OneEvent(c, World({}, 0, map[]), e);
  }

  /** For any invalid event and any valid one with another id: the first envelope that a caller gets is number 1. */
  lemma RaiseLeavesGap(c: Setting, bad: Event, good: Event)
    requires Acceptable(c, Some(bad)) && !ValidPayload(c, PayloadOf(bad))
    requires Acceptable(c, Some(good)) && ValidPayload(c, PayloadOf(good)) && good.id != bad.id
    ensures Run(c, [One(bad)] + [One(good)]).returned == [Envelope(good, 1)]
    ensures !Gapless(Run(c, [One(bad)] + [One(good)]))
  {
    FirstRaises(c, bad);
    RunOneMore(c, [One(bad)], One(good));
    OneEvent(c, Run(c, [One(bad)]).world, good);
    assert Run(c, [One(bad)] + [One(good)]).returned[0].sequence == 1;
  }

  /** The hash of this event's key belongs to no other event. */
  ghost predicate OwnKey(c: Setting, id: Id) {
    forall x: Id :: KeyOf(c, x) == KeyOf(c, id) ==> x == id
  }

  /** Nothing is queued for an id that is marked as seen: its events count as duplicates. */
  lemma {:induction false} SeenIsNotQueued(c: Setting, w: World, events: seq<Event>, id: Id)
    requires id in w.seen && KeyOf(c, id) !in w.queue && OwnKey(c, id)
    ensures
      var b := ProcessAll(c, w, events);
      && id in b.world.seen
      && KeyOf(c, id) !in b.world.queue
      && forall i | 0 <= i < |b.envelopes| :: b.envelopes[i].event.id != id
  {
    if events != [] { SeenIsNotQueued(c, w, events[..|events| - 1], id); }
  }

  /** The id counts as seen, and no envelope or record of it has come out. */
  ghost predicate Lost(c: Setting, h: History, id: Id) {
    && id in h.world.seen && KeyOf(c, id) !in h.world.queue
    && forall i | 0 <= i < |h.returned| :: h.returned[i].event.id != id
  }

  lemma CollectKeepsLost(c: Setting, h: History, items: seq<Option<Event>>, id: Id)
    requires Lost(c, h, id) && OwnKey(c, id)
    ensures Lost(c, Next(c, h, Collect(items)), id)
  {
    SeenIsNotQueued(c, h.world, Ordered(c, items), id);
  }

  ghost predicate OnlyCollects(calls: seq<Action>) {
    forall i | 0 <= i < |calls| :: calls[i].Collect?
  }

  lemma {:induction false} LostStays(c: Setting, actions: seq<Action>, calls: seq<Action>, id: Id)
    requires Lost(c, Run(c, actions), id) && OwnKey(c, id) && OnlyCollects(calls)
    ensures Lost(c, Run(c, actions + calls), id)
  {
    if calls == [] {
      AppendNothing(actions);
    } else {
      var n := |calls| - 1;
      LostStays(c, actions, calls[..n], id);
      SplitLast(calls);
      AppendAssociates(actions, calls[..n], [calls[n]]);
      LostAfterCollect(c, actions + calls[..n], calls[n], id);
    }
  }

  lemma AppendNothing<T>(s: seq<T>)
    ensures s + [] == s
  {
  }

  lemma LostAfterCollect(c: Setting, actions: seq<Action>, call: Action, id: Id)
    requires Lost(c, Run(c, actions), id) && OwnKey(c, id) && call.Collect?
    ensures Lost(c, Run(c, actions + [call]), id)
  {
    RunOneMore(c, actions, call);
    CollectKeepsLost(c, Run(c, actions), call.items, id);
  }

  /** What a batch queues under a key that is not shared, it numbered. */
  lemma {:induction false} QueuedIsNumbered(c: Setting, w: World, events: seq<Event>, id: Id)
    requires OwnKey(c, id) && KeyOf(c, id) !in w.queue && KeyOf(c, id) in ProcessAll(c, w, events).world.queue
    ensures HasId(ProcessAll(c, w, events).envelopes, id)
  {
    if events != [] {
      var n := |events| - 1;
      var b, e := ProcessAll(c, w, events[..n]), events[n];
      if KeyOf(c, id) in b.world.queue {
        QueuedIsNumbered(c, w, events[..n], id);
        HasIdAppend(b.envelopes, [Envelope(e, b.world.sequence)], id);
      } else {
        HasIdAppend(b.envelopes, [Envelope(e, b.world.sequence)], id);
        assert [Envelope(e, b.world.sequence)][0].event.id == id;
      }
    }
  }

  /** The event that a batch raised on is the last one numbered. It is not sendable, and nothing is queued for it. */
  lemma {:induction false} RaisedOnLast(c: Setting, w: World, events: seq<Event>)
    requires ProcessAll(c, w, events).raised
    ensures
      var b := ProcessAll(c, w, events);
      && b.envelopes != []
      && var e := b.envelopes[|b.envelopes| - 1].event;
      && !ValidPayload(c, PayloadOf(e)) && e.id in b.world.seen
      && (OwnKey(c, e.id) && KeyOf(c, e.id) !in w.queue ==> KeyOf(c, e.id) !in b.world.queue)
  {
    if events != [] {
      var n := |events| - 1;
      var b, e := ProcessAll(c, w, events[..n]), events[n];
      if b.raised {
        RaisedOnLast(c, w, events[..n]);
      } else {
        BatchIsConsistent(c, w, events[..n]);
        if OwnKey(c, e.id) && KeyOf(c, e.id) !in w.queue && KeyOf(c, e.id) in b.world.queue {
          QueuedIsNumbered(c, w, events[..n], e.id);
        }
      }
    }
  }

  /** What a run has returned or, under a key that is not shared, queued, it numbered. */
  lemma {:induction false} OnlyNumberedComesOut(c: Setting, actions: seq<Action>, id: Id)
    requires OwnKey(c, id) && !HasId(Run(c, actions).all, id)
    ensures KeyOf(c, id) !in Run(c, actions).world.queue && !HasId(Run(c, actions).returned, id)
  {
    if actions != [] {
      var n := |actions| - 1;
      var h := Run(c, actions[..n]);
      if actions[n].Collect? {
        var b := BatchOf(c, h.world, actions[n].items);
        HasIdAppend(h.all, b.envelopes, id);
        HasIdAppend(h.returned, b.envelopes, id);
        OnlyNumberedComesOut(c, actions[..n], id);
        if KeyOf(c, id) in b.world.queue { QueuedIsNumbered(c, h.world, Ordered(c, actions[n].items), id); }
      } else {
        OnlyNumberedComesOut(c, actions[..n], id);
      }
    }
  }

  /** The call raises, on an event with this id. */
  predicate RaisesOn(c: Setting, w: World, call: Action, id: Id) {
    && call.Collect?
    && BatchOf(c, w, call.items).raised
    && var numbered := BatchOf(c, w, call.items).envelopes;
    numbered != [] && numbered[|numbered| - 1].event.id == id
  }

  lemma RaiseLoses(c: Setting, h: History, call: Action, id: Id)
    requires RaisesOn(c, h.world, call, id) && OwnKey(c, id)
    requires KeyOf(c, id) !in h.world.queue && !HasId(h.returned, id)
    ensures Lost(c, Next(c, h, call), id)
  {
    RaisedOnLast(c, h.world, Ordered(c, call.items));
    assert Next(c, h, call).returned == h.returned;
    forall i | 0 <= i < |h.returned| ensures h.returned[i].event.id != id {}
  }

  /**
   After any run: an id that was never numbered, and that a call now raises on, is lost until the next reset if its
   key is not shared. However often a correct event is collected under it, none is returned and none is queued.
   */
  lemma ConsumedIsLost(c: Setting, actions: seq<Action>, call: Action, calls: seq<Action>, id: Id)
    requires RaisesOn(c, Run(c, actions).world, call, id) && OwnKey(c, id)
    requires !HasId(Run(c, actions).all, id) && OnlyCollects(calls)
    ensures Lost(c, Run(c, (actions + [call]) + calls), id)
  {
    OnlyNumberedComesOut(c, actions, id);
    RaiseLoses(c, Run(c, actions), call, id);
    RunOneMore(c, actions, call);
    LostStays(c, actions + [call], calls, id);
  }

  // ------------------------------------------------------- what a collection returns

  /** Earlier in time, or at the same time with the smaller id. */
  ghost predicate Precedes(a: Event, b: Event) {
    a.occurredAt < b.occurredAt || (a.occurredAt == b.occurredAt && IdLe(a.id, b.id))
  }

  /** The place holds something else than an event of the collector's organization. */
  ghost predicate Stray(c: Setting, items: seq<Option<Event>>, i: int) {
    0 <= i < |items| && (items[i] == None || items[i].value.organization != c.identity.organization)
  }

  ghost function Strays(c: Setting, items: seq<Option<Event>>): set<int> {
    set i | 0 <= i < |items| && Stray(c, items, i)
  }

  lemma {:induction false} ValidIffNotStray(c: Setting, items: seq<Option<Event>>)
    ensures |items| - |ValidEvents(c, items)| == |Strays(c, items)|
    ensures forall e :: e in ValidEvents(c, items) <==> Some(e) in items && e.organization == c.identity.organization
  {
    if items == [] {
      assert Strays(c, items) == {};
    } else {
      var n := |items| - 1;
      ValidIffNotStray(c, items[..n]);
      forall i ensures i in Strays(c, items) <==> i in Strays(c, items[..n]) || (i == n && Stray(c, items, n)) {}
      assert Strays(c, items) == Strays(c, items[..n]) + if Stray(c, items, n) then {n} else {};
      assert items == items[..n] + [items[n]];
    }
  }

  /** An id that a batch has marked as seen has an envelope, with an earlier event of the sorted list. */
  lemma SeenIsNumbered(c: Setting, w: World, init: seq<Event>, e: Event) returns (i: nat)
    requires Sorted(EventLe, init + [e]) && e.id in ProcessAll(c, w, init).world.seen && e.id !in w.seen
    ensures i < |ProcessAll(c, w, init).envelopes| && ProcessAll(c, w, init).envelopes[i].event.id == e.id
    ensures EventLe(ProcessAll(c, w, init).envelopes[i].event, e)
  {
    BatchIsConsistent(c, w, init);
    EnvelopesTaken(c, w, init);
    i :| 0 <= i < |ProcessAll(c, w, init).envelopes| && ProcessAll(c, w, init).envelopes[i].event.id == e.id;
    var j :| 0 <= j < |init| && init[j] == ProcessAll(c, w, init).envelopes[i].event;
    assert (init + [e])[j] == init[j] && (init + [e])[|init|] == e;
  }

  /** An event that is new gets an envelope, or one with its id that precedes it does. */
  lemma {:induction false} EarliestIsTaken(c: Setting, w: World, events: seq<Event>, k: nat) returns (i: nat)
    requires Sorted(EventLe, events) && !ProcessAll(c, w, events).raised && k < |events| && events[k].id !in w.seen
    ensures i < |ProcessAll(c, w, events).envelopes|
    ensures ProcessAll(c, w, events).envelopes[i].event.id == events[k].id
    ensures EventLe(ProcessAll(c, w, events).envelopes[i].event, events[k])
  {
    var n := |events| - 1;
    if k < n {
      i := EarliestIsTaken(c, w, events[..n], k);
    } else if events[n].id in ProcessAll(c, w, events[..n]).world.seen {
      assert events == events[..n] + [events[n]];
      i := SeenIsNumbered(c, w, events[..n], events[n]);
    } else {
      i := |ProcessAll(c, w, events[..n]).envelopes|;
      EventLeTotal();
    }
  }

  /** The record of an event that is queued for the first time. */
  ghost function FreshRecord(c: Setting, e: Event): Record {
    Record(KeyOf(c, e.id), c.identity, Payload(e.eventType, e.id, e.stamp, e.data), Pending, 0, None)
  }

  /** Each envelope has its record, the one that is queued: the old one if there was one, else a new one. */
  ghost predicate Recorded(c: Setting, w: World, b: Batch) {
    && |b.records| == |b.envelopes|
    && forall i | 0 <= i < |b.envelopes| ::
         var e := b.envelopes[i].event;
         var key := KeyOf(c, e.id);
         && key in b.world.queue && b.records[i] == b.world.queue[key]
         && (key in w.queue ==> b.records[i] == w.queue[key])
         && (key !in w.queue && OwnKey(c, e.id) ==> b.records[i] == FreshRecord(c, e))
  }

  lemma ProcessRecords(c: Setting, w: World, b: Batch, e: Event)
    requires Recorded(c, w, b) && !Process(c, b, e).raised
    requires KeyOf(c, e.id) in w.queue ==>
               KeyOf(c, e.id) in b.world.queue && b.world.queue[KeyOf(c, e.id)] == w.queue[KeyOf(c, e.id)]
    requires e.id !in b.world.seen && OwnKey(c, e.id) && KeyOf(c, e.id) !in w.queue ==> KeyOf(c, e.id) !in b.world.queue
    ensures Recorded(c, w, Process(c, b, e))
  {
  }

  lemma {:induction false} RecordsAreQueued(c: Setting, w: World, events: seq<Event>)
    requires Keyed(c, w.queue) && Unshared(c, w.queue) && !ProcessAll(c, w, events).raised
    ensures Recorded(c, w, ProcessAll(c, w, events))
  {
    if events != [] {
      var n := |events| - 1;
      var e := events[n];
      RecordsAreQueued(c, w, events[..n]);
      QueueOnlyGrows(c, w, events[..n]);
      BatchIsConsistent(c, w, events[..n]);
      if OwnKey(c, e.id) && KeyOf(c, e.id) !in w.queue && KeyOf(c, e.id) in ProcessAll(c, w, events[..n]).world.queue {
        QueuedIsNumbered(c, w, events[..n], e.id);
      }
      ProcessRecords(c, w, ProcessAll(c, w, events[..n]), e);
    }
  }

  /**
   What `collect` returns: the counts; envelopes numbered on from the collector's number, in order of time and id, for
   new events of the organization, each id once and with the event that precedes all others of the id; and their
   records.
   */
  lemma CollectMeans(c: Setting, w: World, items: seq<Option<Event>>)
    requires CollectAnswer(c, w, items).Success? && Keyed(c, w.queue) && Unshared(c, w.queue)
    ensures
      var r, v := CollectAnswer(c, w, items).value, BatchOf(c, w, items).world;
      && r.received == |items| && r.rejected == |Strays(c, items)|
      && r.accepted == |r.envelopes| == |r.records| && r.duplicates == r.received - r.rejected - r.accepted
      && v.sequence == w.sequence + r.accepted
      && (forall i | 0 <= i < |r.envelopes| ::
            var e := r.envelopes[i].event;
            && r.envelopes[i].sequence == w.sequence + i
            && Some(e) in items && e.organization == c.identity.organization && e.id !in w.seen)
      && (forall i, j | 0 <= i < j < |r.envelopes| ::
            && r.envelopes[i].event.id != r.envelopes[j].event.id
            && Precedes(r.envelopes[i].event, r.envelopes[j].event))
      && (forall e | Some(e) in items && e.organization == c.identity.organization && e.id !in w.seen ::
            exists i :: 0 <= i < |r.envelopes| && r.envelopes[i].event.id == e.id && Precedes(r.envelopes[i].event, e))
      && r.envelopes == BatchOf(c, w, items).envelopes && r.records == BatchOf(c, w, items).records
      && Recorded(c, w, BatchOf(c, w, items))
  {
    var events, b := Ordered(c, items), BatchOf(c, w, items);
    ValidIffNotStray(c, items);
    CollectedAddsUp(c, w, items);
    SameElements(events, ValidEvents(c, items));
    BatchIsConsistent(c, w, events);
    RecordsAreQueued(c, w, events);
    EventLeTotal();
    SortSorted(EventLe, ValidEvents(c, items));
    EnvelopesInOrder(c, w, events);
    forall e | Some(e) in items && e.organization == c.identity.organization && e.id !in w.seen
      ensures exists i :: 0 <= i < |b.envelopes| && b.envelopes[i].event.id == e.id && Precedes(b.envelopes[i].event, e)
    {
      var k :| 0 <= k < |events| && events[k] == e;
      var i := EarliestIsTaken(c, w, events, k);
    }
  }
}
