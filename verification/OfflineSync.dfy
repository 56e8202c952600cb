/** The offline manager: a local buffer of the records it prepared, mirroring the cloud queue. */
module OfflineSync {
  import opened Wrappers
  import opened Text
  import opened CloudSync

  datatype World = World(queue: Queue, local: Queue)

  /**
   A call on the offline manager that involves the sync manager, a call on the offline manager that touches
   the buffer alone, or a call that goes past it to the shared sync manager or its queue.
   */
  datatype Action =
    | Prepare(p: Payload) | Acknowledge(key: Id) | Fail(key: Id, reason: string) | ClearFailed
    | LocalQueue(record: Record) | LocalMarkSynced(key: Id) | LocalMarkFailed(key: Id, reason: string)
    | DirectPrepare(p: Payload) | DirectAcknowledge(key: Id) | DirectFail(key: Id, reason: string)
    | DirectEnqueue(record: Record)

  function Cleared(r: Record): Record {
    if r.state == Failed then r.(state := Pending, lastError := None) else r
  }

  function AfterClear(local: Queue): Queue {
    map k | k in local :: Cleared(local[k])
  }

  /** The record returned by the sync manager is kept under its sync id, unless one is there already. */
  function AfterBuffer(local: Queue, r: Record): Queue {
    if r.syncId in local then local else local[r.syncId := r]
  }

  function Next(c: Setting, w: World, a: Action): World {
    match a
    case Prepare(p) =>
      var r := PrepareAnswer(c, w.queue, p);
      World(AfterPrepare(c, w.queue, p), if r.Success? then AfterBuffer(w.local, r.value) else w.local)
    case Acknowledge(key) =>
      World(AfterAcknowledge(w.queue, key),
            if key in w.queue then AfterAcknowledge(w.local, key) else w.local)
    case Fail(key, reason) =>
      World(AfterFail(w.queue, key, reason),
            if key in w.queue then AfterFail(w.local, key, reason) else w.local)
    case ClearFailed => w.(local := AfterClear(w.local))
    case LocalQueue(record) => w.(local := AfterBuffer(w.local, record))
    case LocalMarkSynced(key) => w.(local := AfterAcknowledge(w.local, key))
    case LocalMarkFailed(key, reason) => w.(local := AfterFail(w.local, key, reason))
    case DirectPrepare(p) => w.(queue := AfterPrepare(c, w.queue, p))
    case DirectAcknowledge(key) => w.(queue := AfterAcknowledge(w.queue, key))
    case DirectFail(key, reason) => w.(queue := AfterFail(w.queue, key, reason))
    case DirectEnqueue(record) => w.(queue := AfterEnqueue(c, w.queue, record))
  }

  class OfflineConnectivityManager {
    const manager: CloudSyncManager
    var local: Queue

    constructor (manager: CloudSyncManager)
      ensures this.manager == manager && local == map[]
    {
      this.manager := manager;
      local := map[];
    }

    ghost function Contents(): World
      reads this, manager
    {
      World(manager.queue, local)
    }

    /** `queue`. */
    method Buffer(record: Record) returns (r: Record)
      modifies this
      ensures Contents() == Next(manager.setting, old(Contents()), LocalQueue(record))
      ensures local == if record.syncId in old(local) then old(local) else old(local)[record.syncId := record]
      ensures record.syncId in local && r == local[record.syncId]
    {
      if record.syncId in local {
        return local[record.syncId];
      }
      local := local[record.syncId := record];
      r := record;
    }

    method MarkLocalSynced(key: Id) returns (r: Result<Record, SyncError>)
      modifies this
      ensures Contents() == Next(manager.setting, old(Contents()), LocalMarkSynced(key))
      ensures r == if key in old(local) then Success(local[key]) else Failure(NotBuffered)
    {
      if key !in local {
        return Failure(NotBuffered);
      }
      local := local[key := MarkedSynced(local[key])];
      r := Success(local[key]);
    }

    method MarkLocalFailed(key: Id, reason: string) returns (r: Result<Record, SyncError>)
      modifies this
      ensures Contents() == Next(manager.setting, old(Contents()), LocalMarkFailed(key, reason))
      ensures r ==
        if Blank(reason) then Failure(BlankReason)
        else if key in old(local) then Success(local[key])
        else Failure(NotBuffered)
    {
      if Blank(reason) {
        return Failure(BlankReason);
      }
      if key !in local {
        return Failure(NotBuffered);
      }
      local := local[key := MarkedFailed(local[key], reason)];
      r := Success(local[key]);
    }

    method PrepareCloudSync(p: Payload) returns (r: Result<Record, SyncError>)
      modifies this, manager
      ensures Contents() == Next(manager.setting, old(Contents()), Prepare(p))
      ensures
        match Offer(manager.setting, Prepares(p))
        case None => r == Failure(InvalidPayload) && local == old(local)
        case Some(record) =>
          && record.syncId in manager.queue
          && var queued := manager.queue[record.syncId];
          && queued.syncId in local && r == Success(local[queued.syncId])
          && local == if queued.syncId in old(local) then old(local) else old(local)[queued.syncId := queued]
    {
      r := manager.Prepare(p);
      if r.Success? {
        var buffered := Buffer(r.value);
        r := Success(buffered);
      }
    }

    /** The sync manager is told first: a key it knows but the buffer does not still changes the queue. */
    method AcknowledgeCloudSync(key: Id) returns (r: Result<Record, SyncError>)
      modifies this, manager
      ensures Contents() == Next(manager.setting, old(Contents()), Acknowledge(key))
      ensures r ==
        if key !in old(manager.queue) then Failure(UnknownKey)
        else if key !in old(local) then Failure(NotBuffered)
        else Success(local[key])
    {
      r := manager.Acknowledge(key);
      if r.Failure? {
        return;
      }
      r := MarkLocalSynced(key);
    }

    method FailCloudSync(key: Id, reason: string) returns (r: Result<Record, SyncError>)
      modifies this, manager
      ensures Contents() == Next(manager.setting, old(Contents()), Fail(key, reason))
      ensures r ==
        if Blank(reason) then Failure(BlankReason)
        else if key !in old(manager.queue) then Failure(UnknownKey)
        else if key !in old(local) then Failure(NotBuffered)
        else Success(local[key])
    {
      r := manager.Fail(key, reason);
      if r.Failure? {
        return;
      }
      r := MarkLocalFailed(key, reason);
    }

    /** The loop over a copy of the buffer's items. */
    method ClearFailedRecords() returns (count: nat)
      modifies this
      ensures Contents() == Next(manager.setting, old(Contents()), ClearFailed)
      ensures local.Keys == old(local).Keys
      ensures forall k | k in local && old(local)[k].state == Failed ::
                local[k] == old(local)[k].(state := Pending, lastError := None)
      ensures forall k | k in local && old(local)[k].state != Failed :: local[k] == old(local)[k]
      ensures count == |set k | k in old(local) && old(local)[k].state == Failed|
    {
      ghost var before := local;
      var left := local.Keys;
      count := 0;
      while left != {}
        invariant left <= before.Keys == local.Keys
        invariant forall k | k in before :: local[k] == if k in left then before[k] else Cleared(before[k])
        invariant count == |FailedKeys(before, before.Keys - left)|
        decreases left
      {
        var key :| key in left;
        var record := local[key];
        FailedKeysStep(before, left, key);
        left := left - {key};
        if record.state == Failed {
          local := local[key := record.(state := Pending, lastError := None)];
          count := count + 1;
        }
      }
      assert before.Keys - left == before.Keys;
      assert FailedKeys(before, before.Keys) == set k | k in before && before[k].state == Failed;
    }
  }

  function FailedKeys(q: Queue, keys: set<Id>): set<Id> {
    set k | k in keys && k in q && q[k].state == Failed
  }

  lemma FailedKeysStep(q: Queue, left: set<Id>, key: Id)
    requires key in left && left <= q.Keys
    ensures |FailedKeys(q, q.Keys - (left - {key}))|
            == |FailedKeys(q, q.Keys - left)| + if q[key].state == Failed then 1 else 0
  {
    var failed := FailedKeys(q, q.Keys - left);
    assert FailedKeys(q, q.Keys - (left - {key})) == failed + if q[key].state == Failed then {key} else {};
    assert key !in failed;
  }

  // ------------------------------------------------------- the two sides

  /** What an action does to the queue: what the sync manager would do on its own. */
  ghost function QueueCall(a: Action): Option<Call> {
    match a
    case Prepare(p) => Some(Prepares(p))
    case Acknowledge(key) => Some(Acknowledges(key))
    case Fail(key, reason) => Some(Fails(key, reason))
    case DirectPrepare(p) => Some(Prepares(p))
    case DirectAcknowledge(key) => Some(Acknowledges(key))
    case DirectFail(key, reason) => Some(Fails(key, reason))
    case DirectEnqueue(record) => Some(Enqueues(record))
    case _ => None
  }

  lemma QueueSide(c: Setting, w: World, a: Action)
    ensures Next(c, w, a).queue == if QueueCall(a) == None then w.queue else Step(c, w.queue, QueueCall(a).value)
  {
  }

  /** What an action settles in the buffer, if the manager gets that far: the queue must know the key first. */
  ghost predicate Settling(w: World, a: Action, call: Call) {
    match a
    case Acknowledge(key) => key in w.queue && call == Acknowledges(key)
    case Fail(key, reason) => key in w.queue && call == Fails(key, reason)
    case LocalMarkSynced(key) => call == Acknowledges(key)
    case LocalMarkFailed(key, reason) => call == Fails(key, reason)
    case _ => false
  }

  /**
   The buffer settles like a queue; it takes a record under its sync id unless one is there, by itself or with a
   preparation, for which it takes the queued record; clearing makes failed records pending; else it stays.
   */
  lemma BufferSide(c: Setting, w: World, a: Action)
    ensures forall call | Settling(w, a, call) :: Next(c, w, a).local == Step(c, w.local, call)
    ensures a.LocalQueue? ==>
              var id := a.record.syncId;
              Next(c, w, a).local == if id in w.local then w.local else w.local[id := a.record]
    ensures a.Prepare? && Offer(c, Prepares(a.p)).Some? ==>
              var key := Offer(c, Prepares(a.p)).value.syncId;
              && key in Next(c, w, a).queue
              && var r := Next(c, w, a).queue[key];
              Next(c, w, a).local == if r.syncId in w.local then w.local else w.local[r.syncId := r]
    ensures (!a.LocalQueue? && !a.ClearFailed? && !(a.Prepare? && Offer(c, Prepares(a.p)).Some?)
             && forall call :: !Settling(w, a, call)) ==>
              Next(c, w, a).local == w.local
  {
    match a {
      case Acknowledge(key) => assert key in w.queue ==> Settling(w, a, Acknowledges(key));
      case Fail(key, reason) => assert key in w.queue ==> Settling(w, a, Fails(key, reason));
      case LocalMarkSynced(key) => assert Settling(w, a, Acknowledges(key));
      case LocalMarkFailed(key, reason) => assert Settling(w, a, Fails(key, reason));
      case _ =>
    }
  }

  // ------------------------------------------------------- the mirror

  /** How a buffered record may differ from the queued one: not at all, or cleared after a failure. */
  predicate Reflects(local: Record, queued: Record) {
    local == queued || (queued.state == Failed && local == queued.(state := Pending, lastError := None))
  }

  /** Every buffered key is queued, under the same key, with a record that the buffered one reflects. */
  ghost predicate Mirror(w: World) {
    forall k | k in w.local :: k in w.queue && Reflects(w.local[k], w.queue[k])
  }

  /** The queue holds, under the record's sync id, a record that this one reflects. */
  predicate Fits(r: Record, q: Queue) { r.syncId in q && Reflects(r, q[r.syncId]) }

  /**
   The condition under which a call keeps the mirror. A settlement on one side alone may not concern a buffered
   key. What is put into the buffer must be there already or fit the queue: a record that is queued locally, and
   also the record that a preparation gets back, which is somebody else's if the queue has one under that key.
   */
  predicate Harmless(c: Setting, w: World, a: Action) {
    match a
    case Prepare(p) =>
      !ValidPayload(c, p)
      || (var r := PrepareAnswer(c, w.queue, p).value; r.syncId in w.local || Fits(r, AfterPrepare(c, w.queue, p)))
    case LocalQueue(r) => r.syncId in w.local || Fits(r, w.queue)
    case LocalMarkSynced(key) => key !in w.local
    case LocalMarkFailed(key, reason) => Blank(reason) || key !in w.local
    case DirectAcknowledge(key) => key !in w.local
    case DirectFail(key, reason) => Blank(reason) || key !in w.local
    case _ => true
  }

  /** More records in the queue do no harm. */
  lemma MoreQueuedKeepsMirror(w: World, key: Id, r: Record)
    requires Mirror(w) && key !in w.queue
    ensures Mirror(w.(queue := w.queue[key := r]))
  {
  }

  lemma BufferKeepsMirrorIff(w: World, r: Record)
    requires Mirror(w)
    ensures Mirror(w.(local := AfterBuffer(w.local, r))) <==> r.syncId in w.local || Fits(r, w.queue)
  {
    var after := w.(local := AfterBuffer(w.local, r));
    if r.syncId !in w.local { assert after.local[r.syncId] == r; }
  }

  lemma PreparationKeepsMirrorIff(c: Setting, w: World, p: Payload)
    requires Mirror(w)
    ensures Mirror(Next(c, w, Prepare(p))) <==> Harmless(c, w, Prepare(p))
  {
    if ValidPayload(c, p) {
      var queued := w.(queue := AfterPrepare(c, w.queue, p));
      if KeyOf(c, p.eventId) !in w.queue { MoreQueuedKeepsMirror(w, KeyOf(c, p.eventId), NewRecord(c, p)); }
      assert Mirror(queued);
      BufferKeepsMirrorIff(queued, PrepareAnswer(c, w.queue, p).value);
    }
  }

  lemma DirectEntryKeepsMirror(c: Setting, w: World, p: Payload, r: Record)
    requires Mirror(w)
    ensures Mirror(Next(c, w, DirectPrepare(p))) && Mirror(Next(c, w, DirectEnqueue(r)))
  {
    if KeyOf(c, p.eventId) !in w.queue { MoreQueuedKeepsMirror(w, KeyOf(c, p.eventId), NewRecord(c, p)); }
    if IdempotencyKey(c, r) !in w.queue { MoreQueuedKeepsMirror(w, IdempotencyKey(c, r), r); }
  }

  lemma SettlementKeepsMirror(c: Setting, w: World, key: Id, reason: string)
    requires Mirror(w)
    ensures Mirror(Next(c, w, Acknowledge(key))) && Mirror(Next(c, w, Fail(key, reason)))
  {
  }

  lemma ClearingKeepsMirror(c: Setting, w: World)
    requires Mirror(w)
    ensures Mirror(Next(c, w, ClearFailed))
  {
  }

  /** A settlement on one side alone: the attempts differ from then on. */
  lemma OneSidedSettlementIff(c: Setting, w: World, a: Action)
    requires Mirror(w) && (a.LocalMarkSynced? || a.LocalMarkFailed? || a.DirectAcknowledge? || a.DirectFail?)
    ensures Mirror(Next(c, w, a)) <==> Harmless(c, w, a)
  {
    if a.key in w.local {
      assert w.local[a.key].attempts == w.queue[a.key].attempts;
    }
  }

  /** Every call keeps the mirror exactly under its condition. */
  lemma MirrorKeptIff(c: Setting, w: World, a: Action)
    requires Mirror(w)
    ensures Mirror(Next(c, w, a)) <==> Harmless(c, w, a)
  {
    match a {
      case Prepare(p) => PreparationKeepsMirrorIff(c, w, p);
      case DirectPrepare(p) => DirectEntryKeepsMirror(c, w, p, NewRecord(c, p));
      case DirectEnqueue(r) => DirectEntryKeepsMirror(c, w, r.payload, r);
      case Acknowledge(key) => SettlementKeepsMirror(c, w, key, "");
      case Fail(key, reason) => SettlementKeepsMirror(c, w, key, reason);
      case ClearFailed => ClearingKeepsMirror(c, w);
      case LocalQueue(r) => BufferKeepsMirrorIff(w, r);
      case _ => OneSidedSettlementIff(c, w, a);
    }
  }

  /** Preparations are harmless on a keyed queue, whoever shares it. */
  lemma KeyedPreparationIsHarmless(c: Setting, w: World, p: Payload)
    requires Keyed(c, w.queue)
    ensures Harmless(c, w, Prepare(p))
  {
  }

  /** A call leaves the queue keyed exactly when it is not one that files a record under another id than its sync id. */
  lemma KeyedKeptIff(c: Setting, w: World, a: Action)
    requires Keyed(c, w.queue)
    ensures Keyed(c, Next(c, w, a).queue)
            <==> !(&& a.DirectEnqueue?
                   && IdempotencyKey(c, a.record) !in w.queue
                   && a.record.syncId != IdempotencyKey(c, a.record))
  {
    match a {
      case Prepare(p) => QueueStaysKeyed(c, w.queue, p, Id(""), "");
      case DirectPrepare(p) => QueueStaysKeyed(c, w.queue, p, Id(""), "");
      case Acknowledge(key) => QueueStaysKeyed(c, w.queue, Payload("", Id(""), "", []), key, "");
      case DirectAcknowledge(key) => QueueStaysKeyed(c, w.queue, Payload("", Id(""), "", []), key, "");
      case Fail(key, reason) => QueueStaysKeyed(c, w.queue, Payload("", Id(""), "", []), key, reason);
      case DirectFail(key, reason) => QueueStaysKeyed(c, w.queue, Payload("", Id(""), "", []), key, reason);
      case DirectEnqueue(r) => EnqueueKeepsKeyedIff(c, w.queue, r);
      case _ =>
    }
  }

  function Reach(c: Setting, actions: seq<Action>): World {
    if actions == [] then World(map[], map[]) else Next(c, Reach(c, actions[..|actions| - 1]), actions[|actions| - 1])
  }

  ghost predicate AllHarmless(c: Setting, actions: seq<Action>) {
    forall n | 0 <= n < |actions| :: Harmless(c, Reach(c, actions[..n]), actions[n])
  }

  ghost predicate AlwaysMirrored(c: Setting, actions: seq<Action>) {
    forall n | 0 <= n <= |actions| :: Mirror(Reach(c, actions[..n]))
  }

  lemma AlwaysMirroredStep(c: Setting, actions: seq<Action>)
    requires actions != []
    ensures
      var init := actions[..|actions| - 1];
      && (AlwaysMirrored(c, actions) <==> AlwaysMirrored(c, init) && Mirror(Reach(c, actions)))
      && (AlwaysMirrored(c, init) ==> Mirror(Reach(c, init)))
  {
    var n := |actions| - 1;
    assert actions[..n + 1] == actions && actions[..n][..n] == actions[..n];
    forall m | 0 <= m <= n ensures actions[..n][..m] == actions[..m] {}
  }

  lemma AllHarmlessStep(c: Setting, actions: seq<Action>)
    requires actions != []
    ensures
      var n := |actions| - 1;
      AllHarmless(c, actions) <==> AllHarmless(c, actions[..n]) && Harmless(c, Reach(c, actions[..n]), actions[n])
  {
    var n := |actions| - 1;
    forall m | 0 <= m < n ensures actions[..n][..m] == actions[..m] && actions[..n][m] == actions[m] {}
  }

  lemma LastCallKeepsMirrorIff(c: Setting, actions: seq<Action>)
    requires actions != [] && Mirror(Reach(c, actions[..|actions| - 1]))
    ensures
      var n := |actions| - 1;
      Mirror(Reach(c, actions)) <==> Harmless(c, Reach(c, actions[..n]), actions[n])
  {
    MirrorKeptIff(c, Reach(c, actions[..|actions| - 1]), actions[|actions| - 1]);
  }

  /**
   Throughout a run each buffered key is in the queue under the same key with the same payload and attempts,
   and in the same state except that a cleared record is pending in the buffer and failed in the queue,
   exactly when every call of the run meets its condition at the moment it is made.
   */
  lemma {:induction false} BufferMirrorsQueue(c: Setting, actions: seq<Action>)
    ensures AlwaysMirrored(c, actions) <==> AllHarmless(c, actions)
  {
    if actions != [] {
      BufferMirrorsQueue(c, actions[..|actions| - 1]);
      AlwaysMirroredStep(c, actions);
      AllHarmlessStep(c, actions);
      if AlwaysMirrored(c, actions[..|actions| - 1]) { LastCallKeepsMirrorIff(c, actions); }
    }
  }

  /** For any valid payload: prepare it, then settle its key on one side only. The mirror is broken. */
  lemma OneSidedSettlementBreaks(c: Setting, p: Payload, locally: bool)
    requires ValidPayload(c, p)
    ensures
      var key := KeyOf(c, p.eventId);
      var w := Reach(c, [Prepare(p)] + [if locally then LocalMarkSynced(key) else DirectAcknowledge(key)]);
      key in w.local && key in w.queue && w.local[key].attempts != w.queue[key].attempts && !Mirror(w)
  {
    var key := KeyOf(c, p.eventId);
    var settle := if locally then LocalMarkSynced(key) else DirectAcknowledge(key);
    assert ([Prepare(p)] + [settle])[..1] == [Prepare(p)];
    assert [Prepare(p)][..0] == [];
    assert Reach(c, [Prepare(p)]) == Next(c, World(map[], map[]), Prepare(p));
  }

  /** For any valid payload: a record filed by hand with another sync id, and then a preparation that gets it back. */
  lemma MisfiledRecordBreaks(c: Setting, p: Payload, other: Id)
    requires ValidPayload(c, p) && other != KeyOf(c, p.eventId)
    ensures
      var w := Reach(c, [DirectEnqueue(NewRecord(c, p).(syncId := other))] + [Prepare(p)]);
      other in w.local && other !in w.queue && !Mirror(w)
  {
    var file := DirectEnqueue(NewRecord(c, p).(syncId := other));
    assert ([file] + [Prepare(p)])[..1] == [file] && [file][..0] == [];
    assert Reach(c, [file]) == Next(c, World(map[], map[]), file);
  }
}
