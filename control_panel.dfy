/** The control panel's per-user name tables: buses, agents and operators.
    The three controllers for each table follow one pattern, modelled once
    by `NameRegistry`; each table is one instance of it. */
module ControlPanel {
  import opened Wrappers
  import opened Text
  import opened Transactions

  /** A stored row: the store's id, the normalised name and the owner. */
  datatype Record = Record(id: int, name: string, userId: UserId)

  datatype RegistryError =
    | NameRequired  // 400, the name is empty once trimmed
    | AuthFailed    // 401, the caller's id is 0 or not a number
    | UserNotFound  // 404, no user row for the caller
    | Duplicate     // 400, the caller already has a row with this name

  /** A listing: the "No … found for this user" message, or the rows. */
  datatype Listing = NoneFound | Found(rows: seq<Record>)

  /** `!userId` is false: `caller` is `Number(req.user.id)`, `None` for NaN. */
  predicate Truthy(caller: Option<UserId>) {
    caller.Some? && caller.value != 0
  }

  /** `findFirst({ where: { name, userId } })` finds a row. */
  function Taken(records: seq<Record>, name: string, u: UserId): (b: bool)
    ensures b <==> exists i :: 0 <= i < |records| && records[i].name == name && records[i].userId == u
  {
    if records == [] then false
    else (records[0].name == name && records[0].userId == u) || Taken(records[1..], name, u)
  }

  /** `findMany({ where: { userId } })`: the caller's rows, in table order. */
  function OwnedBy(records: seq<Record>, u: UserId): (r: seq<Record>)
    ensures forall x :: x in r <==> x in records && x.userId == u
    ensures |r| <= |records|
  {
    if records == [] then []
    else if records[0].userId == u then [records[0]] + OwnedBy(records[1..], u)
    else OwnedBy(records[1..], u)
  }

  /** Appending one row adds it to its owner's listing and to no other. */
  lemma {:induction false} OwnedByAppend(records: seq<Record>, x: Record, u: UserId)
    ensures OwnedBy(records + [x], u) == OwnedBy(records, u) + (if x.userId == u then [x] else [])
  {
    if records != [] {
      assert (records + [x])[1..] == records[1..] + [x];
      OwnedByAppend(records[1..], x, u);
    }
  }

  /** No user has two rows with the same name; different users may share one. */
  predicate UniquePerUser(records: seq<Record>) {
    forall i, j :: 0 <= i < j < |records| && records[i].userId == records[j].userId ==>
      records[i].name != records[j].name
  }

  /** A row whose name the owner does not have yet keeps the table unique. */
  lemma AppendKeepsUnique(records: seq<Record>, x: Record)
    requires UniquePerUser(records)
    requires !Taken(records, x.name, x.userId)
    ensures UniquePerUser(records + [x])
  {
    var s := records + [x];
    forall i, j | 0 <= i < j < |s| && s[i].userId == s[j].userId ensures s[i].name != s[j].name {
      if j == |records| {
        assert s[i] == records[i];
      }
    }
  }

  /** The registry's invariant: names unique per user, ids below the next one,
      and stored names non-empty and already in normal form. */
  ghost predicate TableOk(records: seq<Record>, nextId: int) {
    && UniquePerUser(records)
    && (forall i :: 0 <= i < |records| ==> records[i].id < nextId)
    && (forall i :: 0 <= i < |records| ==> records[i].name != [] && Normalize(records[i].name) == records[i].name)
  }

  /** Appending a new normalised name the owner does not have yet, with the
      next id, keeps the invariant. */
  lemma InsertKeepsTableOk(records: seq<Record>, nextId: int, name: string, u: UserId)
    requires TableOk(records, nextId)
    requires Normalize(name) != [] && !Taken(records, Normalize(name), u)
    ensures TableOk(records + [Record(nextId, Normalize(name), u)], nextId + 1)
  {
    AppendKeepsUnique(records, Record(nextId, Normalize(name), u));
    NormalizeIdempotent(name);
  }

  class NameRegistry {
    var records: seq<Record>
    /** The id the store gives the next row. */
    var nextId: int

    ghost predicate Valid()
      reads this
    {
      TableOk(records, nextId)
    }

    constructor ()
      ensures Valid() && records == []
    {
      records, nextId := [], 0;
    }

    /** `createBus`, `createAgent`, `createOperator`. `users` holds the ids
        that have a user row. */
    method Create(caller: Option<UserId>, users: set<UserId>, name: string)
      returns (r: Reply<Record, RegistryError>)
      requires Valid()
      modifies this
      ensures Valid()
      ensures Normalize(name) == [] ==> r == Fail(400, NameRequired) && unchanged(this)
      ensures Normalize(name) != [] && !Truthy(caller) ==> r == Fail(401, AuthFailed) && unchanged(this)
      ensures Normalize(name) != [] && Truthy(caller) && caller.value !in users ==>
        r == Fail(404, UserNotFound) && unchanged(this)
      ensures (Normalize(name) != [] && Truthy(caller) && caller.value in users
               && Taken(old(records), Normalize(name), caller.value)) ==>
        r == Fail(400, Duplicate) && unchanged(this)
      ensures r.Ok? <==>
        Normalize(name) != [] && Truthy(caller) && caller.value in users
        && !Taken(old(records), Normalize(name), caller.value)
      ensures r.Ok? ==>
        && r == Ok(201, Record(old(nextId), Normalize(name), caller.value))
        && records == old(records) + [r.body]
        && nextId == old(nextId) + 1
    {
      var normalized := Normalize(name);
      if normalized == [] {
        return Fail(400, NameRequired);
      }
      if !Truthy(caller) {
        return Fail(401, AuthFailed);
      }
      var u := caller.value;
      if u !in users {
        return Fail(404, UserNotFound);
      }
      if Taken(records, normalized, u) {
        return Fail(400, Duplicate);
      }
      var row := Record(nextId, normalized, u);
      InsertKeepsTableOk(records, nextId, name, u);
      records := records + [row];
      nextId := nextId + 1;
      return Ok(201, row);
    }

    /** `getBuses`, `getAgents`, `getOperators`. */
    function List(caller: Option<UserId>): (r: Reply<Listing, RegistryError>)
      reads this
      ensures !Truthy(caller) <==> r == Fail(401, AuthFailed)
      ensures Truthy(caller) ==> r.Ok? && r.status == 200
      ensures Truthy(caller) ==>
        (r.body == NoneFound <==> forall x :: x in records ==> x.userId != caller.value)
      ensures r.Ok? && r.body.Found? ==>
        forall x :: x in r.body.rows <==> x in records && x.userId == caller.value
    {
      if !Truthy(caller) then Fail(401, AuthFailed)
      else
        var rows := OwnedBy(records, caller.value);
        if rows == [] then Ok(200, NoneFound)
        else
          assert rows[0] in rows;
          Ok(200, Found(rows))
    }
  }
}
