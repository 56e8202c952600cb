/** Stable internal ids for external identities: instances with their own caches over one shared table. */
module IdentityMapping {
  import opened Wrappers
  import opened Sorting
  import opened Text

  datatype External = External(provider: Id, externalId: Id)

  datatype MappingError = ProviderRequired | ExternalIdRequired | InternalIdRequired | DuplicateInternalId

  type Rows = map<External, Id>

  datatype Cache = Cache(inward: map<External, Id>, outward: map<Id, External>)

  function Trim(id: Id): Id { Id(Strip(id.text)) }

  function KeyOf(provider: Id, externalId: Id): Result<External, MappingError> {
    if Blank(provider.text) then Failure(ProviderRequired)
    else if Blank(externalId.text) then Failure(ExternalIdRequired)
    else Success(External(Trim(provider), Trim(externalId)))
  }

  /**
   A blank provider is refused first, then a blank external id; otherwise the identity is the two texts without white
   space at their ends, so it does not matter how they were padded.
   */
  lemma KeyOfIff(provider: Id, externalId: Id)
    ensures
      var key := KeyOf(provider, externalId);
      && (key == Failure(ProviderRequired) <==> AllSpace(provider.text))
      && (key == Failure(ExternalIdRequired) <==> !AllSpace(provider.text) && AllSpace(externalId.text))
      && (key.Success? <==> !AllSpace(provider.text) && !AllSpace(externalId.text))
      && (key.Success? ==>
            key.value.provider.text == Strip(provider.text) && key.value.externalId.text == Strip(externalId.text))
  {
    BlankIff(provider.text);
    BlankIff(externalId.text);
  }

  /** Some other identity already has this internal id: the UNIQUE column refuses the row. */
  predicate Taken(rows: Rows, key: External, id: Id) {
    exists k | k in rows :: k != key && rows[k] == id
  }

  /** The row with this internal id. */
  ghost function OwnerOf(rows: Rows, id: Id): Option<External> {
    if k :| k in rows && rows[k] == id then Some(k) else None
  }

  function Remember(cache: Cache, key: External, id: Id): Cache {
    Cache(cache.inward[key := id], cache.outward[id := key])
  }

  // ------------------------------------------------------- what each call answers and changes

  /** The save of `map`. */
  function RowsAfterSave(rows: Rows, key: External, uuid: Id): Rows {
    if Taken(rows, key, uuid) then rows else rows[key := uuid]
  }

  function CacheAfterGet(rows: Rows, cache: Cache, key: External): Cache {
    if key !in cache.inward && key in rows then Remember(cache, key, rows[key]) else cache
  }

  function GetAnswer(rows: Rows, cache: Cache, key: External): Option<Id> {
    if key in cache.inward then Some(cache.inward[key])
    else if key in rows then Some(rows[key])
    else None
  }

  ghost function CacheAfterReverse(rows: Rows, cache: Cache, id: Id): Cache {
    if id !in cache.outward && OwnerOf(rows, id).Some? then Remember(cache, OwnerOf(rows, id).value, id) else cache
  }

  ghost function ReverseAnswer(rows: Rows, cache: Cache, id: Id): Option<External> {
    if id in cache.outward then Some(cache.outward[id]) else OwnerOf(rows, id)
  }

  // ------------------------------------------------------- the table and its users

  class IdentityMappingPersistence {
    var rows: Rows

    constructor ()
      ensures rows == map[]
    {
      rows := map[];
    }

    /** An internal id that is not blank is written under its identity, unless another identity has it. */
    method Save(provider: Id, externalId: Id, internalId: Id) returns (r: Result<External, MappingError>)
      modifies this
      ensures
        var key := KeyOf(provider, externalId);
        && (key.Failure? ==> r == key && rows == old(rows))
        && (key.Success? && Blank(internalId.text) ==> r == Failure(InternalIdRequired) && rows == old(rows))
        && (key.Success? && !Blank(internalId.text) ==>
              if Taken(old(rows), key.value, Trim(internalId)) then
                r == Failure(DuplicateInternalId) && rows == old(rows)
              else r == key && rows == old(rows)[key.value := Trim(internalId)])
    {
      r := KeyOf(provider, externalId);
      if r.Failure? {
        return;
      }
      if Blank(internalId.text) {
        return Failure(InternalIdRequired);
      }
      if Taken(rows, r.value, Trim(internalId)) {
        return Failure(DuplicateInternalId);
      }
      rows := rows[r.value := Trim(internalId)];
    }

    method GetInternalId(key: External) returns (r: Option<Id>)
      ensures r == if key in rows then Some(rows[key]) else None
    {
      r := if key in rows then Some(rows[key]) else None;
    }

    method GetExternalIdentity(id: Id) returns (r: Option<External>)
      ensures r.Some? ==> r.value in rows && rows[r.value] == id
      ensures r.None? ==> forall k | k in rows :: rows[k] != id
    {
      var left := rows.Keys;
      r := None;
      while left != {}
        invariant left <= rows.Keys
        invariant forall k | k in rows.Keys - left :: rows[k] != id
        decreases left
      {
        var k :| k in left;
        if rows[k] == id {
          return Some(k);
        }
        left := left - {k};
      }
    }
  }

  class IdentityMapper {
    const persistence: IdentityMappingPersistence
    var cache: Cache

    constructor (persistence: IdentityMappingPersistence)
      ensures this.persistence == persistence && cache == Cache(map[], map[])
    {
      this.persistence := persistence;
      cache := Cache(map[], map[]);
    }

    /** The first half of `map`, and all of `get_internal_id`: the cache, then one read of the table. */
    method LookUp(key: External) returns (r: Option<Id>)
      modifies this
      ensures r == GetAnswer(persistence.rows, old(cache), key)
      ensures cache == CacheAfterGet(persistence.rows, old(cache), key)
      ensures key in old(cache).inward ==> r == Some(old(cache).inward[key]) && cache == old(cache)
      ensures key !in old(cache).inward && key in persistence.rows ==>
                var id := persistence.rows[key];
                r == Some(id) && cache == Cache(old(cache).inward[key := id], old(cache).outward[id := key])
      ensures key !in old(cache).inward && key !in persistence.rows ==> r == None && cache == old(cache)
    {
      if key in cache.inward {
        return Some(cache.inward[key]);
      }
      r := persistence.GetInternalId(key);
      if r.Some? {
        cache := Remember(cache, key, r.value);
      }
    }

    /** The second part of `map`: a new id goes into the caches, before the table has it. */
    method Fill(key: External, uuid: Id)
      modifies this
      ensures cache == Cache(old(cache).inward[key := uuid], old(cache).outward[uuid := key])
    {
      cache := Remember(cache, key, uuid);
    }

    /** `map` when nothing comes between its parts; the third is the save, whatever the table holds by then. */
    method MapIdentity(provider: Id, externalId: Id, uuid: Id) returns (r: Result<Id, MappingError>)
      requires IsUuid(uuid)
      modifies this, persistence
      ensures
        var key, rows, was := KeyOf(provider, externalId), old(persistence.rows), old(cache);
        if key.Failure? then r == Failure(key.error) && persistence.rows == rows && cache == was
        else
          match GetAnswer(rows, was, key.value)
          case Some(id) => r == Success(id) && persistence.rows == rows && cache == CacheAfterGet(rows, was, key.value)
          case None =>
            && r == (if Taken(rows, key.value, uuid) then Failure(DuplicateInternalId) else Success(uuid))
            && persistence.rows == RowsAfterSave(rows, key.value, uuid) && cache == Remember(was, key.value, uuid)
    {
      var checked := KeyOf(provider, externalId);
      if checked.Failure? {
        return Failure(checked.error);
      }
      var existing := LookUp(checked.value);
      if existing.Some? {
        return Success(existing.value);
      }
      StripIsIdempotent(provider.text);
      StripIsIdempotent(externalId.text);
      Fill(checked.value, uuid);
      var saved := persistence.Save(checked.value.provider, checked.value.externalId, uuid);
      if saved.Failure? {
        return Failure(saved.error);
      }
      r := Success(uuid);
    }

    method GetInternalId(provider: Id, externalId: Id) returns (r: Result<Option<Id>, MappingError>)
      modifies this
      ensures
        var key := KeyOf(provider, externalId);
        && (key.Failure? ==> r == Failure(key.error) && cache == old(cache))
        && (key.Success? ==>
              && r == Success(GetAnswer(persistence.rows, old(cache), key.value))
              && cache == CacheAfterGet(persistence.rows, old(cache), key.value))
    {
      var checked := KeyOf(provider, externalId);
      if checked.Failure? {
        return Failure(checked.error);
      }
      var existing := LookUp(checked.value);
      r := Success(existing);
    }

    method GetExternalIdentity(internalId: Id) returns (r: Result<Option<External>, MappingError>)
      requires Injective(persistence.rows)
      modifies this
      ensures Blank(internalId.text) ==> r == Failure(InternalIdRequired) && cache == old(cache)
      ensures !Blank(internalId.text) ==>
        && r == Success(ReverseAnswer(persistence.rows, old(cache), Trim(internalId)))
        && cache == CacheAfterReverse(persistence.rows, old(cache), Trim(internalId))
      ensures r.Success? && r.value.Some? ==>
                var id, key := Id(Strip(internalId.text)), r.value.value;
                if id in old(cache).outward then key == old(cache).outward[id] && cache == old(cache)
                else
                  && key in persistence.rows && persistence.rows[key] == id
                  && cache == Cache(old(cache).inward[key := id], old(cache).outward[id := key])
      ensures r == Success(None) ==>
                && cache == old(cache) && Id(Strip(internalId.text)) !in cache.outward
                && forall k | k in persistence.rows :: persistence.rows[k].text != Strip(internalId.text)
    {
      if Blank(internalId.text) {
        return Failure(InternalIdRequired);
      }
      var id := Trim(internalId);
      if id in cache.outward {
        return Success(Some(cache.outward[id]));
      }
      var existing := persistence.GetExternalIdentity(id);
      if existing.Some? {
        OwnerIsUnique(persistence.rows, existing.value);
        cache := Remember(cache, existing.value, id);
      }
      r := Success(existing);
    }
  }

  /** What `uuid4` returns has no blanks to strip. */
  predicate IsUuid(id: Id) { Trim(id) == id && !Blank(id.text) }

  /** No two identities share an internal id: the UNIQUE column. */
  ghost predicate Injective(rows: Rows) {
    forall k, l | k in rows && l in rows && rows[k] == rows[l] :: k == l
  }

  lemma OwnerIsUnique(rows: Rows, key: External)
    requires Injective(rows) && key in rows
    ensures OwnerOf(rows, rows[key]) == Some(key)
  {
  }

  // ------------------------------------------------------- runs of any number of instances

  /** A call of `map` that found nothing: first without an id, then with one in the caches that is yet to be saved. */
  datatype Flight = Flight(instance: nat, key: External, id: Option<Id>)

  datatype World = World(rows: Rows, caches: seq<Cache>, flights: seq<Flight>)

  /**
   Each transaction is a step, and so is each update of the caches between two of them: a new instance opens;
   `map` looks up, and either answers or is in flight from then on; a call in flight fills the caches with a new id;
   it saves the id; `get_internal_id`; `get_external_identity`. Calls of all instances interleave, and an instance
   may have several in flight.
   */
  datatype Action =
    | Open
    | LookUp(i: nat, provider: Id, externalId: Id)
    | Fill(f: nat, uuid: Id)
    | Save(f: nat)
    | Get(i: nat, provider: Id, externalId: Id)
    | Reverse(i: nat, internalId: Id)

  predicate Served(w: World, a: Action) {
    match a
    case Open => true
    case LookUp(i, p, e) => i < |w.caches| && KeyOf(p, e).Success?
    case Fill(f, _) => f < |w.flights| && w.flights[f].id.None? && w.flights[f].instance < |w.caches|
    case Save(f) => f < |w.flights| && w.flights[f].id.Some?
    case Get(i, p, e) => i < |w.caches| && KeyOf(p, e).Success?
    case Reverse(i, id) => i < |w.caches| && !Blank(id.text)
  }

  /** A step of one instance on its cache. */
  function SetCache(w: World, i: nat, cache: Cache): World
    requires i < |w.caches|
  {
    w.(caches := w.caches[i := cache])
  }

  function AfterGet(w: World, i: nat, key: External): World
    requires i < |w.caches|
  {
    SetCache(w, i, CacheAfterGet(w.rows, w.caches[i], key))
  }

  function AfterLookUp(w: World, i: nat, key: External): World
    requires i < |w.caches|
  {
    if GetAnswer(w.rows, w.caches[i], key).Some? then AfterGet(w, i, key)
    else w.(flights := w.flights + [Flight(i, key, None)])
  }

  function AfterFill(w: World, f: nat, uuid: Id): World
    requires Served(w, Fill(f, uuid))
  {
    var flight := w.flights[f];
    SetCache(w, flight.instance, Remember(w.caches[flight.instance], flight.key, uuid))
      .(flights := w.flights[f := flight.(id := Some(uuid))])
  }

  function AfterSave(w: World, f: nat): World
    requires Served(w, Save(f))
  {
    w.(rows := RowsAfterSave(w.rows, w.flights[f].key, w.flights[f].id.value), flights := Without(w.flights, f))
  }

  ghost function AfterReverse(w: World, i: nat, id: Id): World
    requires i < |w.caches|
  {
    SetCache(w, i, CacheAfterReverse(w.rows, w.caches[i], id))
  }

  ghost function Next(w: World, a: Action): World {
    if !Served(w, a) then w
    else
      match a
      case Open => w.(caches := w.caches + [Cache(map[], map[])])
      case LookUp(i, p, e) => AfterLookUp(w, i, KeyOf(p, e).value)
      case Fill(f, uuid) => AfterFill(w, f, uuid)
      case Save(f) => AfterSave(w, f)
      case Get(i, p, e) => AfterGet(w, i, KeyOf(p, e).value)
      case Reverse(i, id) => AfterReverse(w, i, Trim(id))
  }

  ghost function Reach(actions: seq<Action>): World {
    if actions == [] then World(map[], [], []) else Next(Reach(actions[..|actions| - 1]), actions[|actions| - 1])
  }

  // ------------------------------------------------------- every id comes from one call

  type Ledger = map<Id, External>

  function IssuedBy(w: World, a: Action, issued: Ledger): Ledger {
    if a.Fill? && Served(w, a) then issued[a.uuid := w.flights[a.f].key] else issued
  }

  /** The ids that the run has given out, to a cache at first, each with its identity. */
  ghost function Issued(actions: seq<Action>): Ledger {
    if actions == [] then map[]
    else
      var n := |actions| - 1;
      IssuedBy(Reach(actions[..n]), actions[n], Issued(actions[..n]))
  }

  ghost predicate FreshIn(issued: Ledger, a: Action) { a.Fill? ==> IsUuid(a.uuid) && a.uuid !in issued }

  /** No uuid is drawn twice. */
  ghost predicate FreshUuids(actions: seq<Action>) {
    forall n | 0 <= n < |actions| :: FreshIn(Issued(actions[..n]), actions[n])
  }

  /** The ids that are in caches and yet to be saved. */
  function Landing(flights: seq<Flight>): set<Id> {
    set f | 0 <= f < |flights| && flights[f].id.Some? :: flights[f].id.value
  }

  ghost predicate RowsSourced(rows: Rows, issued: Ledger) {
    forall k | k in rows :: rows[k] in issued && issued[rows[k]] == k
  }

  ghost predicate CacheSourced(cache: Cache, issued: Ledger) {
    && (forall k | k in cache.inward :: cache.inward[k] in issued && issued[cache.inward[k]] == k)
    && (forall id | id in cache.outward :: id in issued && issued[id] == cache.outward[id])
  }

  ghost predicate FlightSourced(flight: Flight, issued: Ledger) {
    flight.id.Some? ==> flight.id.value in issued && issued[flight.id.value] == flight.key
  }

  ghost predicate Sourced(w: World, issued: Ledger) {
    && RowsSourced(w.rows, issued)
    && (forall i | 0 <= i < |w.caches| :: CacheSourced(w.caches[i], issued))
    && (forall f | 0 <= f < |w.flights| :: FlightSourced(w.flights[f], issued))
  }

  /** The ledger only grows. */
  ghost predicate Keeps(more: Ledger, issued: Ledger) {
    forall id | id in issued :: id in more && more[id] == issued[id]
  }

  lemma SourcedInMore(w: World, issued: Ledger, more: Ledger)
    requires Sourced(w, issued) && Keeps(more, issued)
    ensures Sourced(w, more)
  {
    forall i | 0 <= i < |w.caches| ensures CacheSourced(w.caches[i], more) {
      assert CacheSourced(w.caches[i], issued);
    }
    forall f | 0 <= f < |w.flights| ensures FlightSourced(w.flights[f], more) {
      assert FlightSourced(w.flights[f], issued);
    }
  }

  lemma RememberStaysSourced(cache: Cache, issued: Ledger, key: External, id: Id)
    requires CacheSourced(cache, issued) && id in issued && issued[id] == key
    ensures CacheSourced(Remember(cache, key, id), issued)
  {
  }

  lemma LookupsStaySourced(rows: Rows, cache: Cache, issued: Ledger, key: External, id: Id)
    requires RowsSourced(rows, issued) && CacheSourced(cache, issued)
    ensures CacheSourced(CacheAfterGet(rows, cache, key), issued)
    ensures CacheSourced(CacheAfterReverse(rows, cache, id), issued)
  {
  }

  lemma FillKeepsSourced(w: World, issued: Ledger, f: nat, uuid: Id)
    requires Sourced(w, issued) && Served(w, Fill(f, uuid)) && uuid !in issued
    ensures Sourced(AfterFill(w, f, uuid), issued[uuid := w.flights[f].key])
  {
    var more := issued[uuid := w.flights[f].key];
    SourcedInMore(w, issued, more);
    RememberStaysSourced(w.caches[w.flights[f].instance], more, w.flights[f].key, uuid);
  }

  /** The UNIQUE column refuses no id that was given out to the saving call. */
  lemma SaveKeepsSourced(w: World, issued: Ledger, f: nat)
    requires Sourced(w, issued) && Served(w, Save(f))
    ensures Sourced(AfterSave(w, f), issued)
    ensures !Taken(w.rows, w.flights[f].key, w.flights[f].id.value)
  {
    assert FlightSourced(w.flights[f], issued);
    var left := Without(w.flights, f);
    forall g | 0 <= g < |left| ensures FlightSourced(left[g], issued) {
      assert left[g] == w.flights[if g < f then g else g + 1];
    }
  }

  lemma NextKeepsSourced(w: World, issued: Ledger, a: Action)
    requires Sourced(w, issued) && FreshIn(issued, a)
    ensures Sourced(Next(w, a), IssuedBy(w, a, issued))
  {
    if Served(w, a) {
      match a {
        case Open =>
        case LookUp(i, p, e) => LookupsStaySourced(w.rows, w.caches[i], issued, KeyOf(p, e).value, Id(""));
        case Fill(f, uuid) => FillKeepsSourced(w, issued, f, uuid);
        case Save(f) => SaveKeepsSourced(w, issued, f);
        case Get(i, p, e) => LookupsStaySourced(w.rows, w.caches[i], issued, KeyOf(p, e).value, Id(""));
        case Reverse(i, id) => LookupsStaySourced(w.rows, w.caches[i], issued, External(Id(""), Id("")), Trim(id));
      }
    }
  }

  lemma Prefixes(actions: seq<Action>, n: nat)
    requires n <= |actions|
    ensures FreshUuids(actions) ==> FreshUuids(actions[..n])
    ensures NoLateFill(actions) ==> NoLateFill(actions[..n])
  {
    forall m | 0 <= m < n ensures actions[..n][..m] == actions[..m] && actions[..n][m] == actions[m] {}
    forall m | 0 <= m < n ensures LateAt(actions[..n], m) == LateAt(actions, m) { LateAtPrefix(actions, n, m); }
  }

  /** In every run all ids, in the table, in the caches and in flight, were given out for that identity. */
  lemma {:induction false} AllIdsAreIssued(actions: seq<Action>)
    requires FreshUuids(actions)
    ensures Sourced(Reach(actions), Issued(actions))
  {
    if actions != [] {
      var n := |actions| - 1;
      Prefixes(actions, n);
      AllIdsAreIssued(actions[..n]);
      NextKeepsSourced(Reach(actions[..n]), Issued(actions[..n]), actions[n]);
    }
  }

  lemma KeepsOneMore(issued: Ledger, w: World, a: Action)
    requires FreshIn(issued, a)
    ensures Keeps(IssuedBy(w, a, issued), issued)
  {
  }

  lemma IssuedOneMore(actions: seq<Action>)
    requires actions != [] && FreshUuids(actions)
    ensures FreshUuids(actions[..|actions| - 1]) && Keeps(Issued(actions), Issued(actions[..|actions| - 1]))
  {
    var n := |actions| - 1;
    Prefixes(actions, n);
    assert FreshIn(Issued(actions[..n]), actions[n]);
    KeepsOneMore(Issued(actions[..n]), Reach(actions[..n]), actions[n]);
  }

  lemma {:induction false} IssuedStands(actions: seq<Action>, n: nat)
    requires FreshUuids(actions) && n <= |actions|
    ensures Keeps(Issued(actions), Issued(actions[..n]))
    decreases |actions|
  {
    if n == |actions| {
      assert actions[..n] == actions;
    } else {
      var init := actions[..|actions| - 1];
      assert init[..n] == actions[..n];
      IssuedOneMore(actions);
      IssuedStands(init, n);
    }
  }

  // ------------------------------------------------------- answers

  datatype Answer = Answer(key: External, id: Id)

  /** The id that a step hands to its caller: `map` returns a new id once it is saved. */
  function AnswerOf(w: World, a: Action): Option<Answer> {
    if !Served(w, a) then None
    else if a.LookUp? || a.Get? then
      var key := KeyOf(a.provider, a.externalId).value;
      var found := GetAnswer(w.rows, w.caches[a.i], key);
      if found.Some? then Some(Answer(key, found.value)) else None
    else if a.Save? && !Taken(w.rows, w.flights[a.f].key, w.flights[a.f].id.value) then
      Some(Answer(w.flights[a.f].key, w.flights[a.f].id.value))
    else None
  }

  /** A look-up answers from the cache first, then from the table, remembering it; else the call is in flight. */
  lemma LookUpMeans(w: World, i: nat, p: Id, e: Id)
    requires i < |w.caches| && KeyOf(p, e).Success?
    ensures
      var key, cache := KeyOf(p, e).value, w.caches[i];
      var looked, got := Next(w, LookUp(i, p, e)), Next(w, Get(i, p, e));
      var answer := AnswerOf(w, LookUp(i, p, e));
      && answer == AnswerOf(w, Get(i, p, e))
      && (key in cache.inward ==> answer == Some(Answer(key, cache.inward[key])) && looked == got == w)
      && (key !in cache.inward && key in w.rows ==>
            var id := w.rows[key];
            && answer == Some(Answer(key, id))
            && looked == got == w.(caches := w.caches[i := Cache(cache.inward[key := id], cache.outward[id := key])]))
      && (key !in cache.inward && key !in w.rows ==>
            && answer == None && got == w
            && looked == w.(flights := w.flights + [Flight(i, key, None)]))
  {
    assert w.caches[i := w.caches[i]] == w.caches;
  }

  /** Another identity has the id. */
  ghost predicate OwnedElsewhere(rows: Rows, key: External, id: Id) {
    exists k :: k in rows && k != key && rows[k] == id
  }

  /** A fill puts the id into both caches of the instance; a save writes the row and answers, or is refused. */
  lemma FillAndSaveMean(w: World, f: nat, uuid: Id)
    requires f < |w.flights| && w.flights[f].instance < |w.caches|
    ensures
      var i, key := w.flights[f].instance, w.flights[f].key;
      w.flights[f].id == None ==>
        Next(w, Fill(f, uuid)) ==
        World(w.rows, w.caches[i := Cache(w.caches[i].inward[key := uuid], w.caches[i].outward[uuid := key])],
              w.flights[f := Flight(i, key, Some(uuid))])
    ensures
      var key := w.flights[f].key;
      w.flights[f].id.Some? ==>
        var id := w.flights[f].id.value;
        var refused := OwnedElsewhere(w.rows, key, id);
        && Next(w, Save(f)) == World(if refused then w.rows else w.rows[key := id], w.caches,
                                     w.flights[..f] + w.flights[f + 1..])
        && AnswerOf(w, Save(f)) == if refused then None else Some(Answer(key, id))
  {
  }

  ghost function AnswerAt(actions: seq<Action>, n: nat): Option<Answer>
    requires n < |actions|
  {
    AnswerOf(Reach(actions[..n]), actions[n])
  }

  lemma AnswerIsIssued(w: World, issued: Ledger, a: Action)
    requires Sourced(w, issued) && AnswerOf(w, a).Some?
    ensures AnswerOf(w, a).value.id in issued && issued[AnswerOf(w, a).value.id] == AnswerOf(w, a).value.key
  {
    if a.Save? {
      assert FlightSourced(w.flights[a.f], issued);
    } else {
      assert CacheSourced(w.caches[a.i], issued);
    }
  }

  lemma AnswersAreIssued(actions: seq<Action>, n: nat)
    requires FreshUuids(actions) && n < |actions| && AnswerAt(actions, n).Some?
    ensures
      var answer := AnswerAt(actions, n).value;
      answer.id in Issued(actions) && Issued(actions)[answer.id] == answer.key
  {
    Prefixes(actions, n);
    AllIdsAreIssued(actions[..n]);
    AnswerIsIssued(Reach(actions[..n]), Issued(actions[..n]), actions[n]);
    IssuedStands(actions, n);
  }

  /** In every run, overlapping calls included, different identities get different ids. */
  lemma DifferentIdentitiesDifferentIds(actions: seq<Action>, m: nat, n: nat)
    requires FreshUuids(actions) && m < |actions| && n < |actions|
    requires AnswerAt(actions, m).Some? && AnswerAt(actions, n).Some?
    requires AnswerAt(actions, m).value.key != AnswerAt(actions, n).value.key
    ensures AnswerAt(actions, m).value.id != AnswerAt(actions, n).value.id
  {
    AnswersAreIssued(actions, m);
    AnswersAreIssued(actions, n);
  }

  // ------------------------------------------------------- exactly when an identity has one id

  /** A new id for an identity that has one by now, which the look-up of this call did not see. */
  ghost predicate Late(w: World, issued: Ledger, a: Action) {
    a.Fill? && Served(w, a) && w.flights[a.f].key in issued.Values
  }

  ghost predicate LateAt(actions: seq<Action>, n: nat)
    requires n < |actions|
  {
    Late(Reach(actions[..n]), Issued(actions[..n]), actions[n])
  }

  ghost predicate NoLateFill(actions: seq<Action>) {
    forall n | 0 <= n < |actions| :: !LateAt(actions, n)
  }

  lemma LateAtPrefix(actions: seq<Action>, n: nat, m: nat)
    requires m < n <= |actions|
    ensures LateAt(actions[..n], m) == LateAt(actions, m)
  {
    assert actions[..n][..m] == actions[..m];
  }

  /** No identity has two ids. */
  ghost predicate OneId(issued: Ledger) {
    forall x, y | x in issued && y in issued && issued[x] == issued[y] :: x == y
  }

  lemma OneIdOneMore(issued: Ledger, uuid: Id, key: External)
    requires uuid !in issued
    ensures OneId(issued[uuid := key]) <==> OneId(issued) && key !in issued.Values
  {
    var more := issued[uuid := key];
    if key in issued.Values {
      var id :| id in issued && issued[id] == key;
      assert more[id] == more[uuid];
    }
    if OneId(more) {
      forall x, y | x in issued && y in issued && issued[x] == issued[y] ensures x == y {
        assert more[x] == more[y];
      }
    }
  }

  lemma NoLateFillStep(actions: seq<Action>)
    requires actions != []
    ensures
      var n := |actions| - 1;
      NoLateFill(actions) <==> NoLateFill(actions[..n]) && !LateAt(actions, n)
  {
    var n := |actions| - 1;
    forall m | 0 <= m < n ensures LateAt(actions[..n], m) == LateAt(actions, m) { LateAtPrefix(actions, n, m); }
  }

  /** Over any run every identity has one id exactly when no call fills late. */
  lemma {:induction false} OneIdIff(actions: seq<Action>)
    requires FreshUuids(actions)
    ensures OneId(Issued(actions)) <==> NoLateFill(actions)
  {
    if actions != [] {
      var n := |actions| - 1;
      Prefixes(actions, n);
      OneIdIff(actions[..n]);
      NoLateFillStep(actions);
      if actions[n].Fill? && Served(Reach(actions[..n]), actions[n]) {
        OneIdOneMore(Issued(actions[..n]), actions[n].uuid, Reach(actions[..n]).flights[actions[n].f].key);
      }
    }
  }

  /** An id that is no longer in flight has given its identity a row; if ids are single, the row holds it. */
  ghost predicate Landed(w: World, issued: Ledger) {
    forall id | id in issued && id !in Landing(w.flights) ::
      issued[id] in w.rows && (OneId(issued) ==> w.rows[issued[id]] == id)
  }

  lemma LandingAfterFill(flights: seq<Flight>, f: nat, uuid: Id)
    requires f < |flights| && flights[f].id.None?
    ensures Landing(flights[f := flights[f].(id := Some(uuid))]) == Landing(flights) + {uuid}
  {
    var more := flights[f := flights[f].(id := Some(uuid))];
    assert more[f].id == Some(uuid);
    forall id | id in Landing(flights) ensures id in Landing(more) {
      var g :| 0 <= g < |flights| && flights[g].id.Some? && flights[g].id.value == id;
      assert more[g] == flights[g];
    }
  }

  lemma LandingAfterSave(flights: seq<Flight>, f: nat, id: Id)
    requires f < |flights| && flights[f].id.Some? && id in Landing(flights) && id != flights[f].id.value
    ensures id in Landing(Without(flights, f))
  {
    var g :| 0 <= g < |flights| && flights[g].id.Some? && flights[g].id.value == id;
    assert Without(flights, f)[if g < f then g else g - 1] == flights[g];
  }

  lemma LandingAfterLookUp(flights: seq<Flight>, i: nat, key: External)
    ensures Landing(flights + [Flight(i, key, None)]) == Landing(flights)
  {
    var more := flights + [Flight(i, key, None)];
    forall id | id in Landing(flights) ensures id in Landing(more) {
      var g :| 0 <= g < |flights| && flights[g].id.Some? && flights[g].id.value == id;
      assert more[g] == flights[g];
    }
  }

  lemma FillKeepsLanded(w: World, issued: Ledger, f: nat, uuid: Id)
    requires Landed(w, issued) && Served(w, Fill(f, uuid)) && uuid !in issued
    ensures Landed(AfterFill(w, f, uuid), issued[uuid := w.flights[f].key])
  {
    LandingAfterFill(w.flights, f, uuid);
    OneIdOneMore(issued, uuid, w.flights[f].key);
  }

  lemma SaveKeepsLanded(w: World, issued: Ledger, f: nat)
    requires Sourced(w, issued) && Landed(w, issued) && Served(w, Save(f))
    ensures Landed(AfterSave(w, f), issued)
  {
    SaveKeepsSourced(w, issued, f);
    assert FlightSourced(w.flights[f], issued);
    var saved := w.flights[f].id.value;
    forall id | id in issued && id !in Landing(Without(w.flights, f)) && id != saved ensures id !in Landing(w.flights) {
      if id in Landing(w.flights) { LandingAfterSave(w.flights, f, id); }
    }
  }

  lemma NextKeepsLanded(w: World, issued: Ledger, a: Action)
    requires Sourced(w, issued) && Landed(w, issued) && FreshIn(issued, a)
    ensures Landed(Next(w, a), IssuedBy(w, a, issued))
  {
    if Served(w, a) {
      match a {
        case LookUp(i, p, e) => LandingAfterLookUp(w.flights, i, KeyOf(p, e).value);
        case Fill(f, uuid) => FillKeepsLanded(w, issued, f, uuid);
        case Save(f) => SaveKeepsLanded(w, issued, f);
        case _ =>
      }
    }
  }

  lemma {:induction false} AllLand(actions: seq<Action>)
    requires FreshUuids(actions)
    ensures Landed(Reach(actions), Issued(actions))
  {
    if actions != [] {
      var n := |actions| - 1;
      Prefixes(actions, n);
      AllIdsAreIssued(actions[..n]);
      AllLand(actions[..n]);
      NextKeepsLanded(Reach(actions[..n]), Issued(actions[..n]), actions[n]);
    }
  }

  /** No id is in a cache and yet to be saved. */
  ghost predicate AtRest(w: World) { Landing(w.flights) == {} }

  /** The table holds every id that was given out. */
  ghost predicate Complete(rows: Rows, issued: Ledger) {
    forall id | id in issued :: issued[id] in rows && rows[issued[id]] == id
  }

  /** Whenever every id is saved: the table holds them all exactly when no call filled late. */
  lemma {:induction false} TableCompleteIff(actions: seq<Action>)
    requires FreshUuids(actions) && AtRest(Reach(actions))
    ensures Complete(Reach(actions).rows, Issued(actions)) <==> NoLateFill(actions)
  {
    AllLand(actions);
    OneIdIff(actions);
  }

  /** Whoever asks, and however often: the same identity is answered with the same id. */
  ghost predicate Stable(actions: seq<Action>) {
    forall m, n | 0 <= m < |actions| && 0 <= n < |actions| :: SameAnswer(AnswerAt(actions, m), AnswerAt(actions, n))
  }

  predicate SameAnswer(a: Option<Answer>, b: Option<Answer>) {
    a.Some? && b.Some? && a.value.key == b.value.key ==> a.value.id == b.value.id
  }

  /** An id that was given out and is not in flight was the answer of the call that saved it. */
  lemma {:induction false} LandedWasAnswered(actions: seq<Action>, id: Id) returns (m: nat)
    requires FreshUuids(actions) && id in Issued(actions) && id !in Landing(Reach(actions).flights)
    ensures m < |actions| && AnswerAt(actions, m) == Some(Answer(Issued(actions)[id], id))
  {
    var n := |actions| - 1;
    var w, issued, a := Reach(actions[..n]), Issued(actions[..n]), actions[n];
    Prefixes(actions, n);
    AllIdsAreIssued(actions[..n]);
    IssuedOneMore(actions);
    LandingStep(w, issued, a, id);
    if id in Landing(w.flights) {
      m := n;
      SaveKeepsSourced(w, issued, a.f);
      assert FlightSourced(w.flights[a.f], issued);
    } else {
      m := LandedWasAnswered(actions[..n], id);
      assert actions[..n][..m] == actions[..m];
    }
  }

  /** An id leaves its flight by the save that answers it, and is in flight when it is given out. */
  lemma LandingStep(w: World, issued: Ledger, a: Action, id: Id)
    requires Sourced(w, issued) && FreshIn(issued, a) && id !in Landing(Next(w, a).flights)
    ensures id in Landing(w.flights) ==> a.Save? && Served(w, a) && w.flights[a.f].id.value == id
    ensures id in IssuedBy(w, a, issued) ==> id in issued
  {
    if Served(w, a) {
      match a {
        case LookUp(i, p, e) => LandingAfterLookUp(w.flights, i, KeyOf(p, e).value);
        case Fill(f, uuid) => LandingAfterFill(w.flights, f, uuid);
        case Save(f) =>
          if id in Landing(w.flights) && id != w.flights[f].id.value { LandingAfterSave(w.flights, f, id); }
        case _ =>
      }
    }
  }

  /** In every run without a late fill, at every point of it, answers are stable. */
  lemma {:induction false} MapIsStable(actions: seq<Action>)
    requires FreshUuids(actions) && NoLateFill(actions)
    ensures Stable(actions)
  {
    OneIdIff(actions);
    forall m, n | 0 <= m < |actions| && 0 <= n < |actions|
      ensures SameAnswer(AnswerAt(actions, m), AnswerAt(actions, n))
    {
      if AnswerAt(actions, m).Some? && AnswerAt(actions, n).Some? {
        AnswersAreIssued(actions, m);
        AnswersAreIssued(actions, n);
      }
    }
  }

  /** Over any run that ends with every id saved, answers are stable exactly when no call filled late. */
  lemma {:induction false} MapIsStableIff(actions: seq<Action>)
    requires FreshUuids(actions) && AtRest(Reach(actions))
    ensures Stable(actions) <==> NoLateFill(actions)
  {
    OneIdIff(actions);
    if NoLateFill(actions) {
      MapIsStable(actions);
    } else {
      var issued := Issued(actions);
      var x, y :| x in issued && y in issued && issued[x] == issued[y] && x != y;
      var m := LandedWasAnswered(actions, x);
      var n := LandedWasAnswered(actions, y);
      assert !SameAnswer(AnswerAt(actions, m), AnswerAt(actions, n));
    }
  }

  // ------------------------------------------------------- caches and lookups

  ghost predicate SubMap(cache: Cache, rows: Rows) {
    && (forall k | k in cache.inward :: k in rows && rows[k] == cache.inward[k])
    && (forall id | id in cache.outward :: cache.outward[id] in rows && rows[cache.outward[id]] == id)
  }

  ghost predicate Agreement(w: World) {
    forall i | 0 <= i < |w.caches| :: SubMap(w.caches[i], w.rows)
  }

  ghost predicate Remembers(w: World, i: nat, id: Id, key: External) {
    i < |w.caches| && id in w.caches[i].outward && w.caches[i].outward[id] == key
  }

  lemma NextRemembers(w: World, issued: Ledger, a: Action, i: nat, id: Id)
    requires Sourced(w, issued) && FreshIn(issued, a) && id in issued && Remembers(w, i, id, issued[id])
    ensures Remembers(Next(w, a), i, id, issued[id])
  {
  }

  /** An instance that gave out an id remembers it for good. */
  lemma {:induction false} GiverRemembers(actions: seq<Action>, id: Id) returns (i: nat)
    requires FreshUuids(actions) && id in Issued(actions)
    ensures Remembers(Reach(actions), i, id, Issued(actions)[id])
  {
    var n := |actions| - 1;
    var w, a := Reach(actions[..n]), actions[n];
    Prefixes(actions, n);
    IssuedOneMore(actions);
    if a.Fill? && Served(w, a) && a.uuid == id {
      i := w.flights[a.f].instance;
    } else {
      i := GiverRemembers(actions[..n], id);
      AllIdsAreIssued(actions[..n]);
      NextRemembers(w, Issued(actions[..n]), a, i, id);
    }
  }

  /** Whenever every id is saved: every cache is a sub-map of the table exactly when no call filled late. */
  lemma {:induction false} CachesAgreeIff(actions: seq<Action>)
    requires FreshUuids(actions) && AtRest(Reach(actions))
    ensures Agreement(Reach(actions)) <==> NoLateFill(actions)
  {
    var w, issued := Reach(actions), Issued(actions);
    AllIdsAreIssued(actions);
    TableCompleteIff(actions);
    if Complete(w.rows, issued) {
      forall i | 0 <= i < |w.caches| ensures SubMap(w.caches[i], w.rows) { assert CacheSourced(w.caches[i], issued); }
    }
    if Agreement(w) {
      forall id | id in issued ensures issued[id] in w.rows && w.rows[issued[id]] == id {
        var i := GiverRemembers(actions, id);
        assert SubMap(w.caches[i], w.rows);
      }
    }
  }

  /** The two directions of a cache hold the same pairs. */
  ghost predicate Mirrored(cache: Cache) {
    && (forall k | k in cache.inward :: cache.inward[k] in cache.outward && cache.outward[cache.inward[k]] == k)
    && (forall id | id in cache.outward :: cache.outward[id] in cache.inward && cache.inward[cache.outward[id]] == id)
  }

  lemma RememberKeepsMirrored(cache: Cache, issued: Ledger, key: External, id: Id)
    requires Mirrored(cache) && CacheSourced(cache, issued) && OneId(issued) && id in issued && issued[id] == key
    ensures Mirrored(Remember(cache, key, id))
  {
  }

  lemma NextKeepsMirrored(w: World, issued: Ledger, a: Action)
    requires Sourced(w, issued) && FreshIn(issued, a) && OneId(IssuedBy(w, a, issued))
    requires forall i | 0 <= i < |w.caches| :: Mirrored(w.caches[i])
    ensures forall i | 0 <= i < |Next(w, a).caches| :: Mirrored(Next(w, a).caches[i])
  {
    var more := IssuedBy(w, a, issued);
    KeepsOneMore(issued, w, a);
    SourcedInMore(w, issued, more);
    if Served(w, a) {
      match a {
        case LookUp(i, p, e) => GetKeepsMirrored(w, more, i, KeyOf(p, e).value);
        case Get(i, p, e) => GetKeepsMirrored(w, more, i, KeyOf(p, e).value);
        case Fill(f, uuid) =>
          RememberKeepsMirrored(w.caches[w.flights[f].instance], more, w.flights[f].key, uuid);
        case Reverse(i, id) =>
          var owner := OwnerOf(w.rows, Trim(id));
          if owner.Some? { RememberKeepsMirrored(w.caches[i], more, owner.value, Trim(id)); }
        case _ =>
      }
    }
  }

  lemma GetKeepsMirrored(w: World, issued: Ledger, i: nat, key: External)
    requires Sourced(w, issued) && OneId(issued) && i < |w.caches| && Mirrored(w.caches[i])
    ensures Mirrored(CacheAfterGet(w.rows, w.caches[i], key))
  {
    if key in w.rows { RememberKeepsMirrored(w.caches[i], issued, key, w.rows[key]); }
  }

  lemma {:induction false} CachesMirrored(actions: seq<Action>)
    requires FreshUuids(actions) && NoLateFill(actions)
    ensures forall i | 0 <= i < |Reach(actions).caches| :: Mirrored(Reach(actions).caches[i])
  {
    if actions != [] {
      var n := |actions| - 1;
      Prefixes(actions, n);
      CachesMirrored(actions[..n]);
      AllIdsAreIssued(actions[..n]);
      OneIdIff(actions);
      NextKeepsMirrored(Reach(actions[..n]), Issued(actions[..n]), actions[n]);
    }
  }

  lemma LookupsInverse(rows: Rows, cache: Cache, issued: Ledger, key: External, id: Id)
    requires RowsSourced(rows, issued) && CacheSourced(cache, issued) && OneId(issued) && Mirrored(cache)
    ensures GetAnswer(rows, cache, key) == Some(id) <==> ReverseAnswer(rows, cache, id) == Some(key)
  {
    if key in rows { OwnerIsUnique(rows, key); }
    if id in cache.outward { assert issued[id] == cache.outward[id]; }
  }

  /**
   At every point of a run without a late fill, in every instance, `get_external_identity` undoes `map` and
   `get_internal_id`, and whatever they give was given out for that identity.
   */
  lemma {:induction false} LookupsInvertMap(actions: seq<Action>, i: nat, key: External, id: Id)
    requires FreshUuids(actions) && NoLateFill(actions) && i < |Reach(actions).caches|
    ensures
      var w, issued := Reach(actions), Issued(actions);
      && (GetAnswer(w.rows, w.caches[i], key) == Some(id) <==> ReverseAnswer(w.rows, w.caches[i], id) == Some(key))
      && (GetAnswer(w.rows, w.caches[i], key) == Some(id) ==> id in issued && issued[id] == key)
  {
    var w, issued := Reach(actions), Issued(actions);
    AllIdsAreIssued(actions);
    OneIdIff(actions);
    CachesMirrored(actions);
    assert CacheSourced(w.caches[i], issued);
    LookupsInverse(w.rows, w.caches[i], issued, key, id);
  }

  /** Whenever every id is saved, late or not, a lookup finds nothing exactly for an identity without an id. */
  lemma {:induction false} NothingFoundIff(actions: seq<Action>, i: nat, key: External)
    requires FreshUuids(actions) && AtRest(Reach(actions)) && i < |Reach(actions).caches|
    ensures
      var w := Reach(actions);
      GetAnswer(w.rows, w.caches[i], key) == None <==> key !in Issued(actions).Values
  {
    var w, issued := Reach(actions), Issued(actions);
    AllIdsAreIssued(actions);
    AllLand(actions);
    assert CacheSourced(w.caches[i], issued);
    if key in w.rows { assert issued[w.rows[key]] == key; }
    if key in w.caches[i].inward { assert issued[w.caches[i].inward[key]] == key; }
  }

  // ------------------------------------------------------- what a caller can see to

  ghost predicate InFlight(w: World, key: External) {
    exists f :: 0 <= f < |w.flights| && w.flights[f].key == key
  }

  /** A first `map` of an identity that begins while another one is in flight. */
  ghost predicate Overlaps(w: World, a: Action) {
    && a.LookUp? && Served(w, a)
    && var key := KeyOf(a.provider, a.externalId).value;
       GetAnswer(w.rows, w.caches[a.i], key).None? && InFlight(w, key)
  }

  ghost predicate OverlapAt(actions: seq<Action>, n: nat)
    requires n < |actions|
  {
    Overlaps(Reach(actions[..n]), actions[n])
  }

  ghost predicate NoOverlap(actions: seq<Action>) {
    forall n | 0 <= n < |actions| :: !OverlapAt(actions, n)
  }

  lemma OverlapAtPrefix(actions: seq<Action>, n: nat, m: nat)
    requires m < n <= |actions|
    ensures OverlapAt(actions[..n], m) == OverlapAt(actions, m)
  {
    assert actions[..n][..m] == actions[..m];
  }

  lemma NoOverlapPrefix(actions: seq<Action>, n: nat)
    requires n <= |actions| && NoOverlap(actions)
    ensures NoOverlap(actions[..n])
  {
    forall m | 0 <= m < n ensures OverlapAt(actions[..n], m) == OverlapAt(actions, m) {
      OverlapAtPrefix(actions, n, m);
    }
  }

  /** No identity is in flight twice, and one that is in flight without an id has none. */
  ghost predicate Apart(w: World, issued: Ledger) {
    && (forall f, g | 0 <= f < g < |w.flights| :: w.flights[f].key != w.flights[g].key)
    && (forall f | 0 <= f < |w.flights| && w.flights[f].id.None? :: w.flights[f].key !in issued.Values)
  }

  /** An identity that was given an id has a row, or is in flight. */
  lemma GivenIsKnown(w: World, issued: Ledger, key: External)
    requires Sourced(w, issued) && Landed(w, issued) && key in issued.Values
    ensures key in w.rows || InFlight(w, key)
  {
    var id :| id in issued && issued[id] == key;
    if id in Landing(w.flights) {
      var f :| 0 <= f < |w.flights| && w.flights[f].id.Some? && w.flights[f].id.value == id;
      assert FlightSourced(w.flights[f], issued);
    }
  }

  lemma LookUpKeepsApart(w: World, issued: Ledger, a: Action)
    requires Sourced(w, issued) && Landed(w, issued) && Apart(w, issued) && a.LookUp? && Served(w, a) && !Overlaps(w, a)
    ensures Apart(Next(w, a), issued)
  {
    var key := KeyOf(a.provider, a.externalId).value;
    if GetAnswer(w.rows, w.caches[a.i], key).None? && key in issued.Values { GivenIsKnown(w, issued, key); }
  }

  lemma FillKeepsApart(w: World, issued: Ledger, f: nat, uuid: Id)
    requires Apart(w, issued) && Served(w, Fill(f, uuid)) && uuid !in issued
    ensures Apart(AfterFill(w, f, uuid), issued[uuid := w.flights[f].key]) && !Late(w, issued, Fill(f, uuid))
  {
    var key := w.flights[f].key;
    forall k | k in issued[uuid := key].Values ensures k in issued.Values || k == key {
      var id :| id in issued[uuid := key] && issued[uuid := key][id] == k;
    }
  }

  lemma SaveKeepsApart(w: World, issued: Ledger, f: nat)
    requires Apart(w, issued) && Served(w, Save(f))
    ensures Apart(AfterSave(w, f), issued)
  {
    var left := Without(w.flights, f);
    forall g | 0 <= g < |left| ensures left[g] == w.flights[if g < f then g else g + 1] {}
  }

  lemma NextKeepsApart(w: World, issued: Ledger, a: Action)
    requires Sourced(w, issued) && Landed(w, issued) && Apart(w, issued) && FreshIn(issued, a) && !Overlaps(w, a)
    ensures Apart(Next(w, a), IssuedBy(w, a, issued)) && !Late(w, issued, a)
  {
    if Served(w, a) {
      match a {
        case LookUp(_, _, _) => LookUpKeepsApart(w, issued, a);
        case Fill(f, uuid) => FillKeepsApart(w, issued, f, uuid);
        case Save(f) => SaveKeepsApart(w, issued, f);
        case _ =>
      }
    }
  }

  lemma {:induction false} NoOverlapStaysApart(actions: seq<Action>)
    requires FreshUuids(actions) && NoOverlap(actions)
    ensures Apart(Reach(actions), Issued(actions)) && NoLateFill(actions)
  {
    if actions != [] {
      var n := |actions| - 1;
      NoOverlapPrefix(actions, n);
      assert !OverlapAt(actions, n);
      Prefixes(actions, n);
      NoOverlapStaysApart(actions[..n]);
      AllIdsAreIssued(actions[..n]);
      AllLand(actions[..n]);
      NextKeepsApart(Reach(actions[..n]), Issued(actions[..n]), actions[n]);
      NoLateFillStep(actions);
    }
  }

  /** It is enough that first calls of `map` for one identity do not overlap. */
  lemma {:induction false} NoOverlapIsEnough(actions: seq<Action>)
    requires FreshUuids(actions) && NoOverlap(actions)
    ensures Stable(actions) && OneId(Issued(actions))
    ensures AtRest(Reach(actions)) ==> Agreement(Reach(actions)) && Complete(Reach(actions).rows, Issued(actions))
  {
    NoOverlapStaysApart(actions);
    MapIsStable(actions);
    OneIdIff(actions);
    if AtRest(Reach(actions)) {
      CachesAgreeIff(actions);
      TableCompleteIff(actions);
    }
  }

  lemma ReachNext(actions: seq<Action>, a: Action)
    ensures Reach(actions + [a]) == Next(Reach(actions), a)
    ensures Issued(actions + [a]) == IssuedBy(Reach(actions), a, Issued(actions))
    ensures AnswerAt(actions + [a], |actions|) == AnswerOf(Reach(actions), a)
  {
    assert (actions + [a])[..|actions|] == actions;
  }

  lemma FreshOneMore(actions: seq<Action>, a: Action)
    requires FreshUuids(actions) && FreshIn(Issued(actions), a)
    ensures FreshUuids(actions + [a])
  {
    var more := actions + [a];
    forall n | 0 <= n < |more| ensures FreshIn(Issued(more[..n]), more[n]) {
      if n < |actions| {
        assert more[..n] == actions[..n];
      } else {
        assert more[..n] == actions;
      }
    }
  }

  lemma AnswerInPrefix(run: seq<Action>, n: nat, m: nat)
    requires m < n <= |run|
    ensures AnswerAt(run[..n], m) == AnswerAt(run, m)
  {
    assert run[..n][..m] == run[..m];
  }

  /** The run goes on with nothing but fills and saves of calls in flight. */
  ghost predicate Finishes(actions: seq<Action>, run: seq<Action>) {
    actions <= run && forall n | |actions| <= n < |run| :: run[n].Fill? || run[n].Save?
  }

  lemma FinishesOneMore(actions: seq<Action>, run: seq<Action>, a: Action)
    requires Finishes(actions, run) && (a.Fill? || a.Save?)
    ensures Finishes(actions, run + [a])
  {
  }

  /** One call in flight has an id in the caches, another for the same identity has none: fill that, save the first. */
  lemma FillThenSave(actions: seq<Action>, f: nat, g: nat, v: Id) returns (two: seq<Action>, h: nat)
    requires FreshUuids(actions) && FreshIn(Issued(actions), Fill(g, v))
    requires Served(Reach(actions), Save(f)) && Served(Reach(actions), Fill(g, v))
    requires Reach(actions).flights[f].key == Reach(actions).flights[g].key
    ensures
      var key, u := Reach(actions).flights[f].key, Reach(actions).flights[f].id.value;
      && Finishes(actions, two) && FreshUuids(two) && |two| == |actions| + 2 && u != v
      && AnswerAt(two, |two| - 1) == Some(Answer(key, u))
      && h < |Reach(two).flights| && Reach(two).flights[h].key == key && Reach(two).flights[h].id == Some(v)
  {
    var w, issued := Reach(actions), Issued(actions);
    AllIdsAreIssued(actions);
    assert FlightSourced(w.flights[f], issued);
    ReachNext(actions, Fill(g, v));
    FillKeepsSourced(w, issued, g, v);
    FreshOneMore(actions, Fill(g, v));
    FinishesOneMore(actions, actions, Fill(g, v));
    var one := actions + [Fill(g, v)];
    ReachNext(one, Save(f));
    SaveKeepsSourced(Reach(one), Issued(one), f);
    FreshOneMore(one, Save(f));
    FinishesOneMore(actions, one, Save(f));
    two := one + [Save(f)];
    h := if g < f then g else g - 1;
    assert Reach(two).flights[h] == Reach(one).flights[g];
  }

  lemma SaveAnswers(actions: seq<Action>, h: nat)
    requires FreshUuids(actions) && Served(Reach(actions), Save(h))
    ensures
      var flight, run := Reach(actions).flights[h], actions + [Save(h)];
      FreshUuids(run) && AnswerAt(run, |actions|) == Some(Answer(flight.key, flight.id.value))
  {
    AllIdsAreIssued(actions);
    ReachNext(actions, Save(h));
    SaveKeepsSourced(Reach(actions), Issued(actions), h);
    FreshOneMore(actions, Save(h));
  }

  /** And save the second: two answers. */
  lemma FinishBoth(actions: seq<Action>, f: nat, g: nat, v: Id) returns (run: seq<Action>)
    requires FreshUuids(actions) && FreshIn(Issued(actions), Fill(g, v))
    requires Served(Reach(actions), Save(f)) && Served(Reach(actions), Fill(g, v))
    requires Reach(actions).flights[f].key == Reach(actions).flights[g].key
    ensures Finishes(actions, run) && FreshUuids(run) && !Stable(run)
  {
    var two, h := FillThenSave(actions, f, g, v);
    SaveAnswers(two, h);
    FinishesOneMore(actions, two, Save(h));
    run := two + [Save(h)];
    AnswerInPrefix(run, |two|, |two| - 1);
    assert run[..|two|] == two;
    assert !SameAnswer(AnswerAt(run, |two| - 1), AnswerAt(run, |two|));
  }

  lemma InstancesOpen(actions: seq<Action>)
    ensures forall f | 0 <= f < |Reach(actions).flights| :: Reach(actions).flights[f].instance < |Reach(actions).caches|
  {
    if actions != [] {
      var n := |actions| - 1;
      InstancesOpen(actions[..n]);
      NextKeepsInstancesOpen(Reach(actions[..n]), actions[n]);
    }
  }

  lemma NextKeepsInstancesOpen(w: World, a: Action)
    requires forall f | 0 <= f < |w.flights| :: w.flights[f].instance < |w.caches|
    ensures forall f | 0 <= f < |Next(w, a).flights| :: Next(w, a).flights[f].instance < |Next(w, a).caches|
  {
    if a.Save? && Served(w, a) {
      var left := Without(w.flights, a.f);
      forall g | 0 <= g < |left| ensures left[g] == w.flights[if g < a.f then g else g + 1] {}
    }
  }

  /** Wherever two calls are in flight for one identity, one of them without an id, finishing both gives it two. */
  lemma {:induction false} OverlapSplits(actions: seq<Action>, f: nat, g: nat) returns (run: seq<Action>)
    requires FreshUuids(actions) && f < |Reach(actions).flights| && g < |Reach(actions).flights| && f != g
    requires Reach(actions).flights[f].key == Reach(actions).flights[g].key && Reach(actions).flights[g].id.None?
    ensures Finishes(actions, run) && FreshUuids(run) && !Stable(run)
  {
    InstancesOpen(actions);
    var u := UnusedUuid(Issued(actions).Keys);
    if Reach(actions).flights[f].id.Some? {
      run := FinishBoth(actions, f, g, u);
    } else {
      ReachNext(actions, Fill(f, u));
      FreshOneMore(actions, Fill(f, u));
      FinishesOneMore(actions, actions, Fill(f, u));
      var filled := actions + [Fill(f, u)];
      var v := UnusedUuid(Issued(filled).Keys);
      run := FinishBoth(filled, f, g, v);
    }
  }

  // ------------------------------------------------------- there is always another uuid

  function Letters(n: nat): string { seq(n, _ => 'a') }

  lemma LettersAreUuid(n: nat)
    ensures IsUuid(Id(Letters(n + 1))) && |Letters(n + 1)| == n + 1
  {
    var s := Letters(n + 1);
    assert !IsSpace(s[0]) && !IsSpace(s[n]);
    assert StripLeft(s) == s && StripRight(s) == s;
  }

  /** A length that no text of the set reaches. */
  lemma {:induction false} LongerThanAll(ids: set<Id>) returns (n: nat)
    ensures forall id | id in ids :: |id.text| <= n
    decreases ids
  {
    if ids == {} {
      n := 0;
    } else {
      var id :| id in ids;
      n := LongerThanAll(ids - {id});
      if n < |id.text| { n := |id.text|; }
    }
  }

  lemma UnusedUuid(ids: set<Id>) returns (u: Id)
    ensures u !in ids && IsUuid(u)
  {
    var n := LongerThanAll(ids);
    LettersAreUuid(n);
    u := Id(Letters(n + 1));
  }

  // ------------------------------------------------------- exactly when a look-up is dangerous

  /** The run goes on with this step after those actions. */
  ghost predicate Continues(actions: seq<Action>, a: Action, run: seq<Action>) {
    |actions| < |run| && run[..|actions|] == actions && run[|actions|] == a
  }

  /** It goes on without a further overlap, and ends with two ids answered for one identity. */
  ghost predicate Splits(actions: seq<Action>, a: Action, run: seq<Action>) {
    && Continues(actions, a, run) && FreshUuids(run) && !Stable(run)
    && forall n | |actions| < n < |run| :: !OverlapAt(run, n)
  }

  lemma NoOverlapAlong(actions: seq<Action>, a: Action, run: seq<Action>)
    requires NoOverlap(actions) && !Overlaps(Reach(actions), a) && Continues(actions, a, run)
    requires forall n | |actions| < n < |run| :: !OverlapAt(run, n)
    ensures NoOverlap(run)
  {
    forall n | 0 <= n < |actions| ensures !OverlapAt(run, n) { OverlapAtPrefix(run, |actions|, n); }
    assert !OverlapAt(run, |actions|);
  }

  lemma FinishesWithoutOverlap(actions: seq<Action>, run: seq<Action>)
    requires Finishes(actions, run)
    ensures forall n | |actions| <= n < |run| :: !OverlapAt(run, n)
  {
  }

  /**
   After a run without overlap, a look-up of `map` that finds nothing can lead to two answers for an identity,
   without any further overlap, exactly when its own identity is in flight at that moment.
   */
  lemma {:induction false} LookUpCanSplitIff(actions: seq<Action>, i: nat, p: Id, e: Id)
    requires FreshUuids(actions) && NoOverlap(actions) && Served(Reach(actions), LookUp(i, p, e))
    requires GetAnswer(Reach(actions).rows, Reach(actions).caches[i], KeyOf(p, e).value).None?
    ensures (exists run :: Splits(actions, LookUp(i, p, e), run)) <==> InFlight(Reach(actions), KeyOf(p, e).value)
  {
    var a, key := LookUp(i, p, e), KeyOf(p, e).value;
    if InFlight(Reach(actions), key) {
      var f :| 0 <= f < |Reach(actions).flights| && Reach(actions).flights[f].key == key;
      ReachNext(actions, a);
      FreshOneMore(actions, a);
      var run := OverlapSplits(actions + [a], f, |Reach(actions).flights|);
      FinishesWithoutOverlap(actions + [a], run);
      PrefixThenOne(actions, a, run);
      assert Splits(actions, a, run);
    } else {
      forall run ensures !Splits(actions, a, run) {
        if Splits(actions, a, run) {
          NoOverlapAlong(actions, a, run);
          NoOverlapIsEnough(run);
        }
      }
    }
  }

  // ------------------------------------------------------- two instances

  /** Two instances look one identity up at once, on an empty table. */
  lemma TogetherInFlight(p: Id, e: Id) returns (run: seq<Action>)
    requires KeyOf(p, e).Success?
    ensures
      var empty, key := Cache(map[], map[]), KeyOf(p, e).value;
      |run| == 4 && Issued(run) == map[]
      && Reach(run) == World(map[], [empty, empty], [Flight(0, key, None), Flight(1, key, None)])
  {
    ReachNext([], Open);
    run := [] + [Open];
    ReachNext(run, Open);
    run := run + [Open];
    ReachNext(run, LookUp(0, p, e));
    run := run + [LookUp(0, p, e)];
    ReachNext(run, LookUp(1, p, e));
    run := run + [LookUp(1, p, e)];
  }

  /** For every identity: two instances answer with different ids, and the first keeps the lost one in its cache. */
  lemma TwoInstancesSplit(p: Id, e: Id, u: Id, v: Id) returns (run: seq<Action>)
    requires KeyOf(p, e).Success? && u != v
    ensures
      var key := KeyOf(p, e).value;
      && |run| == 8 && AnswerAt(run[..7], 6) == Some(Answer(key, u)) && AnswerAt(run, 7) == Some(Answer(key, v))
      && Reach(run).rows == map[key := v]
      && |Reach(run).caches| == 2 && Reach(run).caches[0].inward == map[key := u]
  {
    var key := KeyOf(p, e).value;
    run := TogetherInFlight(p, e);
    ReachNext(run, Fill(0, u));
    run := run + [Fill(0, u)];
    ReachNext(run, Fill(1, v));
    run := run + [Fill(1, v)];
    assert Reach(run).flights == [Flight(0, key, Some(u)), Flight(1, key, Some(v))];
    ReachNext(run, Save(0));
    run := run + [Save(0)];
    assert Reach(run).rows == map[key := u] && Reach(run).flights == [Flight(1, key, Some(v))];
    ReachNext(run, Save(0));
    assert (run + [Save(0)])[..7] == run;
    run := run + [Save(0)];
  }
}
