/** The outbound synchronization queue and the manager that prepares and settles its records. */
module CloudSync {
  import opened Wrappers
  import opened Sorting
  import opened Text

  datatype SyncState = Pending | Synced | Failed

  datatype Identity = Identity(organization: Id, deployment: Id, node: Id)

  datatype Payload = Payload(eventType: string, eventId: Id, occurredAt: string, data: seq<(string, string)>)

  datatype Record = Record(
    syncId: Id, identity: Identity, payload: Payload, state: SyncState, attempts: nat, lastError: Option<string>)

  datatype SyncError = InvalidPayload | UnknownKey | BlankReason | NotBuffered

  type Queue = map<Id, Record>

  /** Who prepares, how keys are hashed, and which texts are ISO timestamps. */
  datatype Setting = Setting(identity: Identity, hash: string -> Id, isTimestamp: string -> bool)

  /** `sync_id` and `idempotency_key` hash the same text. */
  function KeyText(identity: Identity, eventId: Id): string {
    identity.organization.text + ":" + identity.deployment.text + ":" + identity.node.text + ":" + eventId.text
  }

  function KeyOf(c: Setting, eventId: Id): Id { c.hash(KeyText(c.identity, eventId)) }

  function IdempotencyKey(c: Setting, r: Record): Id { c.hash(KeyText(r.identity, r.payload.eventId)) }

  predicate ValidPayload(c: Setting, p: Payload) {
    !Blank(p.eventType) && !Blank(p.eventId.text) && !Blank(p.occurredAt) && c.isTimestamp(p.occurredAt)
  }

  function NewRecord(c: Setting, p: Payload): Record {
    Record(KeyOf(c, p.eventId), c.identity, p, Pending, 0, None)
  }

  // ------------------------------------------------------- what each call does to the queue

  function PrepareAnswer(c: Setting, q: Queue, p: Payload): Result<Record, SyncError> {
    if !ValidPayload(c, p) then Failure(InvalidPayload)
    else if KeyOf(c, p.eventId) in q then Success(q[KeyOf(c, p.eventId)])
    else Success(NewRecord(c, p))
  }

  function AfterPrepare(c: Setting, q: Queue, p: Payload): Queue {
    if ValidPayload(c, p) && KeyOf(c, p.eventId) !in q then q[KeyOf(c, p.eventId) := NewRecord(c, p)] else q
  }

  function AfterEnqueue(c: Setting, q: Queue, r: Record): Queue {
    if IdempotencyKey(c, r) in q then q else q[IdempotencyKey(c, r) := r]
  }

  function MarkedSynced(r: Record): Record { r.(state := Synced, attempts := r.attempts + 1, lastError := None) }

  function MarkedFailed(r: Record, reason: string): Record {
    r.(state := Failed, attempts := r.attempts + 1, lastError := Some(reason))
  }

  function AfterAcknowledge(q: Queue, key: Id): Queue {
    if key in q then q[key := MarkedSynced(q[key])] else q
  }

  function AfterFail(q: Queue, key: Id, reason: string): Queue {
    if !Blank(reason) && key in q then q[key := MarkedFailed(q[key], reason)] else q
  }

  /** Every record is filed under its own key, which is also its sync id. */
  ghost predicate Keyed(c: Setting, q: Queue) {
    forall k | k in q :: q[k].syncId == k && IdempotencyKey(c, q[k]) == k
  }

  /** No other node shares the queue. */
  ghost predicate Unshared(c: Setting, q: Queue) {
    forall k | k in q :: q[k].identity == c.identity
  }

  class CloudSyncManager {
    const setting: Setting
    var queue: Queue

    constructor (setting: Setting)
      ensures this.setting == setting && queue == map[]
    {
      this.setting := setting;
      queue := map[];
    }

    /** `CloudSyncQueue.enqueue`: the first record under a key stays. */
    method Enqueue(record: Record) returns (r: Record)
      modifies this
      ensures
        var key := IdempotencyKey(setting, record);
        && r == (if key in old(queue) then old(queue)[key] else record)
        && queue == AfterEnqueue(setting, old(queue), record)
    {
      var key := IdempotencyKey(setting, record);
      if key in queue {
        return queue[key];
      }
      queue := queue[key := record];
      r := record;
    }

    method Prepare(p: Payload) returns (r: Result<Record, SyncError>)
      modifies this
      ensures r == PrepareAnswer(setting, old(queue), p) && queue == AfterPrepare(setting, old(queue), p)
      ensures
        match Offer(setting, Prepares(p))
        case None => r == Failure(InvalidPayload) && queue == old(queue)
        case Some(record) =>
          && r.Success? && record.syncId in queue && r.value == queue[record.syncId]
          && queue == if record.syncId in old(queue) then old(queue) else old(queue)[record.syncId := record]
    {
      if !ValidPayload(setting, p) {
        return Failure(InvalidPayload);
      }
      var record := Enqueue(Record(KeyOf(setting, p.eventId), setting.identity, p, Pending, 0, None));
      r := Success(record);
    }

    method Acknowledge(key: Id) returns (r: Result<Record, SyncError>)
      modifies this
      ensures queue == AfterAcknowledge(old(queue), key)
      ensures r == if key in old(queue) then Success(queue[key]) else Failure(UnknownKey)
    {
      if key !in queue {
        return Failure(UnknownKey);
      }
      queue := queue[key := MarkedSynced(queue[key])];
      r := Success(queue[key]);
    }

    method Fail(key: Id, reason: string) returns (r: Result<Record, SyncError>)
      modifies this
      ensures queue == AfterFail(old(queue), key, reason)
      ensures r ==
        if Blank(reason) then Failure(BlankReason)
        else if key in old(queue) then Success(queue[key])
        else Failure(UnknownKey)
    {
      if Blank(reason) {
        return Failure(BlankReason);
      }
      if key !in queue {
        return Failure(UnknownKey);
      }
      queue := queue[key := MarkedFailed(queue[key], reason)];
      r := Success(queue[key]);
    }
  }

  lemma QueueStaysKeyed(c: Setting, q: Queue, p: Payload, key: Id, reason: string)
    requires Keyed(c, q)
    ensures Keyed(c, AfterPrepare(c, q, p)) && Keyed(c, AfterAcknowledge(q, key)) && Keyed(c, AfterFail(q, key, reason))
  {
  }

  lemma PrepareKeepsUnshared(c: Setting, q: Queue, p: Payload)
    requires Unshared(c, q)
    ensures Unshared(c, AfterPrepare(c, q, p))
  {
  }

  /** A record put into the queue by hand keeps it keyed exactly when its sync id is its key, or the key is taken. */
  lemma EnqueueKeepsKeyedIff(c: Setting, q: Queue, r: Record)
    requires Keyed(c, q)
    ensures Keyed(c, AfterEnqueue(c, q, r)) <==> IdempotencyKey(c, r) in q || r.syncId == IdempotencyKey(c, r)
  {
    var key := IdempotencyKey(c, r);
    if key !in q { assert AfterEnqueue(c, q, r)[key] == r; }
  }

  /** A keyed queue holds at most one record for each node and event id, whoever shares it. */
  lemma OneRecordPerEvent(c: Setting, q: Queue, k: Id, l: Id)
    requires Keyed(c, q) && k in q && l in q
    requires q[k].identity == q[l].identity && q[k].payload.eventId == q[l].payload.eventId
    ensures k == l
  {
  }

  // ------------------------------------------------------- whole runs of one queue

  datatype Call =
    | Prepares(p: Payload) | Enqueues(record: Record) | Acknowledges(key: Id) | Fails(key: Id, reason: string)

  function Step(c: Setting, q: Queue, call: Call): Queue {
    match call
    case Prepares(p) => AfterPrepare(c, q, p)
    case Enqueues(record) => AfterEnqueue(c, q, record)
    case Acknowledges(key) => AfterAcknowledge(q, key)
    case Fails(key, reason) => AfterFail(q, key, reason)
  }

  function Run(c: Setting, calls: seq<Call>): Queue {
    if calls == [] then map[] else Step(c, Run(c, calls[..|calls| - 1]), calls[|calls| - 1])
  }

  /** The hashed text: organization, deployment, node and event, with colons between them. */
  ghost function HashOf(c: Setting, i: Identity, eventId: Id): Id {
    c.hash(i.organization.text + ":" + i.deployment.text + ":" + i.node.text + ":" + eventId.text)
  }

  /** What a call offers to the queue: a record handed in, or a pending one with no attempts for a good payload. */
  ghost function Offer(c: Setting, call: Call): Option<Record> {
    match call
    case Prepares(p) =>
      if Blank(p.eventType) || Blank(p.eventId.text) || Blank(p.occurredAt) || !c.isTimestamp(p.occurredAt) then None
      else Some(Record(HashOf(c, c.identity, p.eventId), c.identity, p, Pending, 0, None))
    case Enqueues(record) => Some(record)
    case _ => None
  }

  ghost predicate OffersUnder(c: Setting, call: Call, k: Id) {
    Offer(c, call).Some? && HashOf(c, Offer(c, call).value.identity, Offer(c, call).value.payload.eventId) == k
  }

  /** Call `n` is the first that offers a record under `k`. */
  ghost predicate FirstOffer(c: Setting, calls: seq<Call>, k: Id, n: int) {
    && 0 <= n < |calls| && OffersUnder(c, calls[n], k)
    && forall m | 0 <= m < n :: !OffersUnder(c, calls[m], k)
  }

  ghost predicate Settles(call: Call, k: Id) {
    call == Acknowledges(k) || (call.Fails? && call.key == k && !Blank(call.reason))
  }

  /** The settlements of `k` after call `n`. */
  ghost function Settlements(calls: seq<Call>, k: Id, n: int): set<int> {
    set m | n < m < |calls| && 0 <= m && Settles(calls[m], k)
  }

  ghost predicate LastSettlement(calls: seq<Call>, k: Id, n: int, m: int) {
    && n < m < |calls| && 0 <= m && Settles(calls[m], k)
    && forall l | m < l < |calls| :: !Settles(calls[l], k)
  }

  /**
   What a queued record says of its history: it is the one that was offered first, with one more attempt for each
   settlement since then, and in the state, and with the error, of the last of them.
   */
  ghost predicate TellsHistory(calls: seq<Call>, k: Id, first: Record, r: Record, n: int) {
    var after := Settlements(calls, k, n);
    && r.syncId == first.syncId && r.identity == first.identity && r.payload == first.payload
    && r.attempts == first.attempts + |after|
    && (after == {} ==> r == first)
    && forall m | LastSettlement(calls, k, n, m) :: SettledBy(r, calls[m])
  }

  ghost predicate SettledBy(r: Record, call: Call) {
    if call.Fails? then r.state == Failed && r.lastError == Some(call.reason)
    else r.state == Synced && r.lastError == None
  }

  lemma SettlementsOneMore(init: seq<Call>, call: Call, k: Id, n: int)
    requires n < |init|
    ensures |Settlements(init + [call], k, n)| == |Settlements(init, k, n)| + if Settles(call, k) then 1 else 0
    ensures Settlements(init + [call], k, n) == {} <==> Settlements(init, k, n) == {} && !Settles(call, k)
  {
    var before, after := Settlements(init, k, n), Settlements(init + [call], k, n);
    forall m ensures m in after <==> m in before || (m == |init| && Settles(call, k)) {}
    assert after == before + if Settles(call, k) then {|init|} else {};
    assert |init| !in before;
    if Settles(call, k) { assert |init| in after; }
  }

  lemma LastSettlementOneMore(init: seq<Call>, call: Call, k: Id, n: int, m: int)
    requires n < |init| && LastSettlement(init + [call], k, n, m)
    ensures if Settles(call, k) then m == |init| else LastSettlement(init, k, n, m)
  {
    var calls := init + [call];
    assert calls[|init|] == call;
    assert forall l | 0 <= l < |init| :: calls[l] == init[l];
  }

  lemma StepMoves(c: Setting, q: Queue, call: Call, k: Id)
    requires k in q
    ensures k in Step(c, q, call)
    ensures
      var r, t := q[k], Step(c, q, call)[k];
      if !Settles(call, k) then t == r
      else t == r.(attempts := r.attempts + 1, state := t.state, lastError := t.lastError) && SettledBy(t, call)
  {
  }

  lemma StepTells(c: Setting, q: Queue, init: seq<Call>, call: Call, k: Id, first: Record, n: int)
    requires n < |init| && k in q && TellsHistory(init, k, first, q[k], n)
    ensures k in Step(c, q, call) && TellsHistory(init + [call], k, first, Step(c, q, call)[k], n)
  {
    StepMoves(c, q, call, k);
    SettlementsOneMore(init, call, k, n);
    var t := Step(c, q, call)[k];
    forall m | LastSettlement(init + [call], k, n, m) ensures SettledBy(t, (init + [call])[m]) {
      LastSettlementOneMore(init, call, k, n, m);
    }
  }

  lemma StepFiles(c: Setting, q: Queue, call: Call, k: Id)
    requires k !in q
    ensures k in Step(c, q, call) <==> OffersUnder(c, call, k)
    ensures OffersUnder(c, call, k) ==> Step(c, q, call)[k] == Offer(c, call).value
  {
  }

  lemma FirstOfferOneMore(c: Setting, init: seq<Call>, call: Call, k: Id, n: int)
    ensures FirstOffer(c, init + [call], k, n)
            <==> FirstOffer(c, init, k, n)
                 || (&& n == |init| && OffersUnder(c, call, k)
                     && forall m | 0 <= m < |init| :: !OffersUnder(c, init[m], k))
  {
    var calls := init + [call];
    assert calls[|init|] == call;
    assert forall l | 0 <= l < |init| :: calls[l] == init[l];
  }

  /** The key is queued since the first offer under it, and its record tells its history. */
  ghost predicate Faithful(c: Setting, calls: seq<Call>, q: Queue, k: Id) {
    && (k in q <==> exists n :: FirstOffer(c, calls, k, n))
    && forall n | FirstOffer(c, calls, k, n) :: k in q && TellsHistory(calls, k, Offer(c, calls[n]).value, q[k], n)
  }

  lemma StepFaithful(c: Setting, init: seq<Call>, q: Queue, call: Call, k: Id)
    requires Faithful(c, init, q, k)
    ensures Faithful(c, init + [call], Step(c, q, call), k)
  {
    var calls := init + [call];
    forall n { FirstOfferOneMore(c, init, call, k, n); }
    if k in q {
      forall n | FirstOffer(c, calls, k, n)
        ensures k in Step(c, q, call) && TellsHistory(calls, k, Offer(c, calls[n]).value, Step(c, q, call)[k], n)
      {
        var m :| FirstOffer(c, init, k, m);
        assert n == m && calls[n] == init[n];
        StepTells(c, q, init, call, k, Offer(c, init[n]).value, n);
      }
    } else {
      StepFiles(c, q, call, k);
      forall m | 0 <= m < |init| ensures !OffersUnder(c, init[m], k) { NoFirstNoOffer(c, init, k, m); }
      if OffersUnder(c, call, k) {
        assert FirstOffer(c, calls, k, |init|);
        assert Settlements(calls, k, |init|) == {};
      }
    }
  }

  /**
   Over any run from the empty queue, whatever is handed in: a key is queued exactly when some call offered a record
   under it, and then its record tells its history since the first of these calls.
   */
  lemma {:induction false} RecordTellsItsHistory(c: Setting, calls: seq<Call>, k: Id)
    ensures Faithful(c, calls, Run(c, calls), k)
  {
    if calls == [] {
      assert Run(c, calls) == map[];
    } else {
      var init, call := calls[..|calls| - 1], calls[|calls| - 1];
      RecordTellsItsHistory(c, init, k);
      LastStepFaithful(c, calls, k);
    }
  }

  lemma LastStepFaithful(c: Setting, calls: seq<Call>, k: Id)
    requires calls != [] && Faithful(c, calls[..|calls| - 1], Run(c, calls[..|calls| - 1]), k)
    ensures Faithful(c, calls, Run(c, calls), k)
  {
    var init, call := calls[..|calls| - 1], calls[|calls| - 1];
    StepFaithful(c, init, Run(c, init), call, k);
    SplitLast(calls);
  }

  /** Some offer means that there is a first one. */
  lemma {:induction false} NoFirstNoOffer(c: Setting, calls: seq<Call>, k: Id, m: nat)
    requires m < |calls| && forall n :: !FirstOffer(c, calls, k, n)
    ensures !OffersUnder(c, calls[m], k)
    decreases m
  {
    forall l | 0 <= l < m ensures !OffersUnder(c, calls[l], k) { NoFirstNoOffer(c, calls, k, l); }
    assert !FirstOffer(c, calls, k, m);
  }

  /** Two events of one node never share the text that is hashed, so only the hash itself could confuse them. */
  lemma DifferentEventsDifferentTexts(identity: Identity, e: Id, f: Id)
    requires KeyText(identity, e) == KeyText(identity, f)
    ensures e == f
  {
    var prefix := identity.organization.text + ":" + identity.deployment.text + ":" + identity.node.text + ":";
    assert KeyText(identity, e)[|prefix|..] == e.text && KeyText(identity, f)[|prefix|..] == f.text;
  }
}
