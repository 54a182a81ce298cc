/**
 * Values shared by the controllers and models: optional values, results,
 * HTTP outcomes, parsed JSON, principals, and the document store.
 */
module Common {

  datatype Option<+T> = None | Some(value: T) {
    function GetOr(default: T): T {
      match this
      case Some(v) => v
      case None => default
    }
  }

  datatype Result<+T, +E> = Success(value: T) | Failure(error: E)

  /**
   * What a request handler answers: a success status with its JSON body, or
   * an error status.  An error is either an `ErrorResponse` carrying its own
   * status (400, 401, 404) or any other thrown error, which the central
   * error middleware (server.js:68) answers with 500.
   */
  datatype Response<+T> = Ok(status: nat, body: T) | Err(status: nat)

  const BadRequest: nat := 400
  const Unauthorized: nat := 401
  const NotFound: nat := 404
  const ServerError: nat := 500

  /** Document identities (Mongo ObjectIds, compared by their string form). */
  type Id = string

  /** The authenticated principal `req.user`. */
  datatype User = User(id: Id, role: string)

  predicate IsAdmin(u: User) {
    u.role == "admin"
  }

  /**
   * A parsed JSON value: what `express.json()` and the query-string parser
   * hand to a controller.  Objects keep their members in property order;
   * the parsers never produce two members with the same key (`UniqueKeys`).
   */
  datatype Json =
    | JNull
    | JBool(b: bool)
    | JNum(n: int)
    | JStr(s: string)
    | JArr(items: seq<Json>)
    | JObj(members: seq<Member>)

  datatype Member = Member(key: string, value: Json)

  /**
   * A JavaScript object whose key order plays no part (request bodies and
   * line items, which the document schema casts field by field).  A key
   * holding `undefined` is simply absent.
   */
  type JsObject = map<string, Json>

  /** No two members of an object share a key, as in every object the parsers produce. */
  predicate UniqueKeys(members: seq<Member>) {
    forall i, j :: 0 <= i < j < |members| ==> members[i].key != members[j].key
  }

  /** `obj[key]`: the value of the member with that key, `undefined` (`None`) when there is none. */
  function Lookup(members: seq<Member>, key: string): (r: Option<Json>)
    ensures r.Some? <==> exists i :: 0 <= i < |members| && members[i].key == key
    ensures r.Some? ==> Member(key, r.value) in members
  {
    if members == [] then None
    else if members[0].key == key then Some(members[0].value)
    else Lookup(members[1..], key)
  }

  /** On an object with unique keys, reading a member's key gives that member's value. */
  lemma {:induction false} LookupUnique(members: seq<Member>, i: nat)
    requires UniqueKeys(members) && i < |members|
    ensures Lookup(members, members[i].key) == Some(members[i].value)
  {
    if i > 0 {
      assert members[0].key != members[i].key;
      var rest := members[1..];
      assert UniqueKeys(rest) by {
        forall a, b | 0 <= a < b < |rest| ensures rest[a].key != rest[b].key {
          assert rest[a] == members[a + 1] && rest[b] == members[b + 1];
        }
      }
      assert rest[i - 1] == members[i];
      LookupUnique(rest, i - 1);
    }
  }

  /**
   * JavaScript truthiness of a value that may be `undefined`: the empty
   * string, 0, false, null and undefined are falsy; arrays and objects,
   * even empty ones, are truthy.
   */
  predicate Truthy(v: Option<Json>) {
    match v
    case None => false
    case Some(JNull) => false
    case Some(JBool(b)) => b
    case Some(JNum(n)) => n != 0
    case Some(JStr(s)) => s != []
    case Some(JArr(_)) => true
    case Some(JObj(_)) => true
  }

  /**
   * `Model.findById(id)` answered by a handler: 200 with the document when
   * it exists, otherwise the `ErrorResponse` 404.
   */
  function GetById<T>(docs: map<Id, T>, id: Id): (r: Response<T>)
    ensures r.Ok? <==> id in docs
    ensures r.Ok? ==> r.status == 200 && r.body == docs[id]
    ensures r.Err? ==> r.status == NotFound
  {
    if id in docs then Ok(200, docs[id]) else Err(NotFound)
  }

  /**
   * One Mongo collection: its documents by id.  Documents are values; a
   * handler reads one, builds the changed copy and saves it back.
   */
  class Collection<T> {
    var docs: map<Id, T>

    constructor ()
      ensures docs == map[]
    {
      docs := map[];
    }

    /** `doc.save()` / `Model.create(doc)`: store the document under its id. */
    method Save(id: Id, doc: T)
      modifies this
      ensures docs == old(docs)[id := doc]
    {
      docs := docs[id := doc];
    }

    /** `Model.deleteMany(...)`: drop every document whose id is in `ids`. */
    method RemoveAll(ids: set<Id>)
      modifies this
      ensures docs == old(docs) - ids
    {
      docs := docs - ids;
    }

    /** `doc.remove()`: drop the document with that id. */
    method Remove(id: Id)
      modifies this
      ensures docs == old(docs) - {id}
    {
      docs := docs - {id};
    }
  }
}
