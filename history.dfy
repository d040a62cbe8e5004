/**
 * The history API: POST validates a reading and appends it to the caller's
 * history, GET lists the caller's readings newest first. Authentication and
 * the database are replaced by an optional session e-mail, a user table
 * keyed by e-mail and an append-only sequence of records.
 */
module History {
  import opened Wrappers

  /** A JSON value, as the request body decodes to. */
  datatype Json =
    | JNull
    | JBool(b: bool)
    | JNum(n: int)
    | JStr(s: string)
    | JArr(items: seq<Json>)
    | JObj(fields: seq<(string, Json)>)

  datatype TossMode = AUTOMATIC | MANUAL

  /** The five fields read from the body; None is a missing field (`undefined`). */
  datatype Body = Body(
    intention: Option<Json>,
    tosses: Option<Json>,
    hexagram: Option<Json>,
    mode: Option<Json>,
    interpretation: Option<Json>)

  /** The enum value a `mode` field names, if any. */
  function ModeOf(mode: Option<Json>): Option<TossMode>
  {
    if mode == Some(JStr("AUTOMATIC")) then Some(AUTOMATIC)
    else if mode == Some(JStr("MANUAL")) then Some(MANUAL)
    else None
  }

  /**
   * The body check: a string intention, an array of exactly 18 or 21 tosses,
   * a numeric hexagram and a known mode. The hexagram's range, the toss
   * values and the interpretation are not checked.
   */
  predicate ValidBody(body: Body)
  {
    && body.intention.Some? && body.intention.value.JStr?
    && body.tosses.Some? && body.tosses.value.JArr?
    && (|body.tosses.value.items| == 21 || |body.tosses.value.items| == 18)
    && body.hexagram.Some? && body.hexagram.value.JNum?
    && ModeOf(body.mode).Some?
  }

  /** `session?.user?.email` is truthy: present and not the empty string. */
  predicate SignedIn(email: Option<string>)
  {
    email.Some? && email.value != ""
  }

  datatype TossRecord = TossRecord(
    id: nat,
    userId: nat,
    intention: string,
    tosses: seq<Json>,
    hexagram: int,
    mode: TossMode,
    interpretation: Option<Json>,
    createdAt: nat)

  datatype Response =
    | Unauthorized
    | InvalidInput
    | UserNotFound
    | Created(id: nat)
    | HistoryList(history: seq<TossRecord>)

  /** The HTTP status of a response; a successful one is sent with the default 200. */
  function StatusCode(response: Response): nat
  {
    match response
    case Unauthorized => 401
    case InvalidInput => 400
    case UserNotFound => 404
    case _ => 200
  }

  /** The record a valid body becomes. */
  function NewRecord(id: nat, userId: nat, body: Body, createdAt: nat): TossRecord
    requires ValidBody(body)
  {
    TossRecord(id, userId, body.intention.value.s, body.tosses.value.items,
      body.hexagram.value.n, ModeOf(body.mode).value, body.interpretation, createdAt)
  }

  // ---------------------------------------------------------------------------
  // The listing query: the caller's records, newest first
  // ---------------------------------------------------------------------------

  function Filter(records: seq<TossRecord>, userId: nat): seq<TossRecord>
  {
    if records == [] then []
    else (if records[0].userId == userId then [records[0]] else []) + Filter(records[1..], userId)
  }

  function Reverse(s: seq<TossRecord>): seq<TossRecord>
  {
    if s == [] then [] else Reverse(s[1..]) + [s[0]]
  }

  /** `findMany({ where: { userId }, orderBy: { createdAt: "desc" } })` over a chronological store. */
  function UserHistory(records: seq<TossRecord>, userId: nat): seq<TossRecord>
  {
    Reverse(Filter(records, userId))
  }

  /** Records in the order they were created, each strictly later than the one before. */
  predicate Chronological(records: seq<TossRecord>)
  {
    forall i, j :: 0 <= i < j < |records| ==> records[i].createdAt < records[j].createdAt
  }

  predicate NewestFirst(records: seq<TossRecord>)
  {
    forall i, j :: 0 <= i < j < |records| ==> records[i].createdAt > records[j].createdAt
  }

  lemma {:induction false} FilterKeepsOwnRecords(records: seq<TossRecord>, userId: nat)
    ensures forall r :: r in Filter(records, userId) <==> r in records && r.userId == userId
    ensures Chronological(records) ==> Chronological(Filter(records, userId))
  {
    if records != [] {
      var rest := Filter(records[1..], userId);
      FilterKeepsOwnRecords(records[1..], userId);
      assert forall r :: r in records <==> r == records[0] || r in records[1..];
      if Chronological(records) {
        assert Chronological(records[1..]);
        forall r | r in rest ensures records[0].createdAt < r.createdAt {
          var k :| 0 <= k < |records[1..]| && records[1..][k] == r;
          assert records[k + 1] == r;
        }
      }
    }
  }

  lemma {:induction false} ReverseAt(s: seq<TossRecord>)
    ensures |Reverse(s)| == |s|
    ensures forall k :: 0 <= k < |s| ==> Reverse(s)[k] == s[|s| - 1 - k]
  {
    if s != [] {
      ReverseAt(s[1..]);
    }
  }

  /**
   * The listing holds exactly the caller's records and orders them strictly
   * newest first.
   */
  lemma UserHistoryIsNewestFirstSelection(records: seq<TossRecord>, userId: nat)
    requires Chronological(records)
    ensures forall r :: r in UserHistory(records, userId) <==> r in records && r.userId == userId
    ensures NewestFirst(UserHistory(records, userId))
  {
    var own := Filter(records, userId);
    FilterKeepsOwnRecords(records, userId);
    ReverseAt(own);
    assert forall r :: r in Reverse(own) <==> r in own by {
      forall r ensures r in Reverse(own) ==> r in own {
        if r in Reverse(own) {
          var k :| 0 <= k < |Reverse(own)| && Reverse(own)[k] == r;
          assert own[|own| - 1 - k] == r;
        }
      }
      forall r ensures r in own ==> r in Reverse(own) {
        if r in own {
          var k :| 0 <= k < |own| && own[k] == r;
          assert Reverse(own)[|own| - 1 - k] == r;
        }
      }
    }
  }

  // ---------------------------------------------------------------------------
  // The store and the two handlers
  // ---------------------------------------------------------------------------

  class HistoryStore {
    /** The user table: user id by e-mail. The handlers never change it. */
    const users: map<string, nat>
    /** The toss history, in creation order. */
    var records: seq<TossRecord>
    /** The id and the creation time the next record receives. */
    var nextId: nat
    var clock: nat

    ghost predicate Valid()
      reads this
    {
      && Chronological(records)
      && (forall i :: 0 <= i < |records| ==> records[i].id < nextId && records[i].createdAt < clock)
      && (forall i, j :: 0 <= i < j < |records| ==> records[i].id < records[j].id)
    }

    constructor (users: map<string, nat>)
      ensures Valid()
      ensures this.users == users && records == []
    {
      this.users := users;
      records := [];
      nextId, clock := 0, 0;
    }

    /**
     * POST: 401 without a session e-mail, then 400 for a malformed body, then
     * 404 for an unknown user; otherwise one record is appended and its id
     * returned. Only the last case touches the store.
     */
    method Post(email: Option<string>, body: Body) returns (response: Response)
      requires Valid()
      modifies this
      ensures Valid()
      ensures !SignedIn(email) ==> response == Unauthorized
      ensures SignedIn(email) && !ValidBody(body) ==> response == InvalidInput
      ensures SignedIn(email) && ValidBody(body) && email.value !in users ==> response == UserNotFound
      ensures response.Created? <==> SignedIn(email) && ValidBody(body) && email.value in users
      ensures StatusCode(response) == 401 <==> !SignedIn(email)
      ensures StatusCode(response) == 200 <==> response.Created?
      ensures !response.Created? ==> records == old(records)
      ensures response.Created? ==>
        && records == old(records) + [NewRecord(response.id, users[email.value], body, old(clock))]
        && forall r :: r in old(records) ==> r.id != response.id
    {
      if !SignedIn(email) {
        return Unauthorized;
      }
      if !ValidBody(body) {
        return InvalidInput;
      }
      if email.value !in users {
        return UserNotFound;
      }
      var record := NewRecord(nextId, users[email.value], body, clock);
      records := records + [record];
      response := Created(nextId);
      nextId, clock := nextId + 1, clock + 1;
    }

    /**
     * GET: 401 without a session e-mail, 404 for an unknown user, otherwise
     * the caller's records newest first. The store is not changed.
     */
    method Get(email: Option<string>) returns (response: Response)
      requires Valid()
      ensures !SignedIn(email) ==> response == Unauthorized
      ensures SignedIn(email) && email.value !in users ==> response == UserNotFound
      ensures StatusCode(response) == 401 <==> !SignedIn(email)
      ensures StatusCode(response) == 200 <==> SignedIn(email) && email.value in users
      ensures SignedIn(email) && email.value in users ==>
        && response == HistoryList(UserHistory(records, users[email.value]))
        && NewestFirst(response.history)
        && forall r :: r in response.history <==> r in records && r.userId == users[email.value]
    {
      if !SignedIn(email) {
        return Unauthorized;
      }
      if email.value !in users {
        return UserNotFound;
      }
      UserHistoryIsNewestFirstSelection(records, users[email.value]);
      response := HistoryList(UserHistory(records, users[email.value]));
    }
  }
}
