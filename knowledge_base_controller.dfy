/**
 * The knowledge-base request handlers: the paginated list, read, create,
 * update and delete behind the not-found-then-not-authorised gate, and text
 * search.  The collection is a `Collection<KbItem>`; the store's query
 * evaluation and text index are parameters.
 */
module KnowledgeBaseController {
  import opened Common
  import opened JsText
  import opened OperatorRewrite
  import opened QueryBuilder
  import opened KnowledgeBaseModel

  // ---------------------------------------------------------------------
  // GET /knowledge-base
  // ---------------------------------------------------------------------

  /** What the list handler hands the store: the filter text, the projection and the sort. */
  datatype FindQuery = FindQuery(filter: string, fields: Option<string>, sort: string)

  /** The list response: `count`, `pagination` and `data`. */
  datatype ListPage = ListPage(count: nat, pagination: Pagination, data: seq<KbItem>)

  /**
   * The query the handler builds from the request's query parameters, or
   * `None` when `select` or `sort` is truthy but not a string, where calling
   * `.split` throws.
   */
  function ListQuery(query: seq<Member>): (r: Option<FindQuery>)
    ensures var sel := Lookup(query, "select"); var srt := Lookup(query, "sort");
      r.Some? <==> (!Truthy(sel) || sel.value.JStr?) && (!Truthy(srt) || srt.value.JStr?)
    ensures r.Some? ==> r.value.filter == Marked(Stringify(JObj(Without(query, ControlParams))), 0)
    ensures var sel := Lookup(query, "select");
      r.Some? ==> r.value.fields == if Truthy(sel) then Some(SpaceSeparated(sel.value.s)) else None
    ensures var srt := Lookup(query, "sort");
      r.Some? ==> r.value.sort == if Truthy(srt) then SpaceSeparated(srt.value.s) else DefaultSort
  {
    var sel := Lookup(query, "select");
    var srt := Lookup(query, "sort");
    var text := Stringify(JObj(Without(query, ControlParams)));
    RewriteMarksMatches(text);
    if (Truthy(sel) && !sel.value.JStr?) || (Truthy(srt) && !srt.value.JStr?) then None
    else
      Some(FindQuery(
        RewriteOperators(text),
        if Truthy(sel) then Some(SpaceSeparated(sel.value.s)) else None,
        if Truthy(srt) then SpaceSeparated(srt.value.s) else DefaultSort))
  }

  /**
   * For the values the query-string parser produces, the filter text is the
   * serialisation of the filter object with every key and string value
   * rewritten, so `JSON.parse` gives back that object.
   */
  lemma ListFilterIsRewrittenObject(query: seq<Member>)
    requires PlainQueryValue(JObj(query))
    requires ListQuery(query).Some?
    ensures ListQuery(query).value.filter == Stringify(RewriteJson(JObj(Without(query, ControlParams))))
  {
    var filter := Without(query, ControlParams);
    assert PlainQueryValue(JObj(filter)) by {
      forall i | 0 <= i < |filter|
        ensures NoControlChars(filter[i].key) && PlainQueryValue(filter[i].value)
      {
        assert filter[i] in query;
      }
    }
    var text := Stringify(JObj(filter));
    StringifyRewrite(JObj(filter));
    RewriteMarksMatches(text);
  }

  /** The pieces the list handler computes one by one make up `ListQuery`. */
  lemma ListQueryOfParts(query: seq<Member>, filter: string, fields: Option<string>, sort: string)
    requires filter == RewriteOperators(Stringify(JObj(Without(query, ControlParams))))
    requires var sel := Lookup(query, "select");
      (!Truthy(sel) || sel.value.JStr?)
      && fields == if Truthy(sel) then Some(SpaceSeparated(sel.value.s)) else None
    requires var srt := Lookup(query, "sort");
      (!Truthy(srt) || srt.value.JStr?)
      && sort == if Truthy(srt) then SpaceSeparated(srt.value.s) else DefaultSort
    ensures ListQuery(query) == Some(FindQuery(filter, fields, sort))
  {
  }

  /** The links the list handler sets one by one make up `Paginate`. */
  lemma PaginateOfLinks(page: int, limit: int, total: nat, next: Option<PageRef>, prev: Option<PageRef>)
    requires next == if page * limit < total then Some(PageRef(page + 1, limit)) else None
    requires prev == if (page - 1) * limit > 0 then Some(PageRef(page - 1, limit)) else None
    ensures Pagination(next, prev) == Paginate(page, limit, total)
  {
  }

  /**
   * `getKnowledgeBaseItems`: strips the control parameters, rewrites the
   * operators, sets projection and sort, computes page, limit and skip,
   * fetches the window of matching items and fills the pagination object
   * link by link.  A negative skip is refused by the store (500), as is a
   * query the store cannot evaluate (`find` gives `None`).
   */
  method GetKnowledgeBaseItems(query: seq<Member>, docs: map<Id, KbItem>,
                               find: FindQuery -> Option<seq<KbItem>>)
    returns (r: Response<ListPage>)
    ensures r.Err? ==> r.status == ServerError
    ensures var q := ListQuery(query);
      r.Ok? <==> q.Some? && (PageOf(query) - 1) * LimitOf(query) >= 0 && find(q.value).Some?
    ensures r.Ok? ==>
      var page := PageOf(query);
      var limit := LimitOf(query);
      && r.status == 200
      && r.body.data == Window(find(ListQuery(query).value).value, (page - 1) * limit, limit)
      && r.body.count == |r.body.data| <= Abs(limit)
      && r.body.pagination == Paginate(page, limit, |docs|)
  {
    var filter := StripControlParams(query);
    var queryStr := Stringify(JObj(filter));
    queryStr := RewriteOperators(queryStr);

    var fields: Option<string> := None;
    var select := Lookup(query, "select");
    if Truthy(select) {
      if !select.value.JStr? {
        return Err(ServerError);
      }
      fields := Some(SpaceSeparated(select.value.s));
    }

    var sortBy := DefaultSort;
    var sort := Lookup(query, "sort");
    if Truthy(sort) {
      if !sort.value.JStr? {
        return Err(ServerError);
      }
      sortBy := SpaceSeparated(sort.value.s);
    }

    ListQueryOfParts(query, queryStr, fields, sortBy);
    var page := PageOf(query);
    var limit := LimitOf(query);
    var startIndex := (page - 1) * limit;
    var endIndex := page * limit;
    var total := |docs|;

    if startIndex < 0 {
      return Err(ServerError);
    }
    var found := find(FindQuery(queryStr, fields, sortBy));
    if found.None? {
      return Err(ServerError);
    }
    var items := Window(found.value, startIndex, limit);

    var next: Option<PageRef> := None;
    if endIndex < total {
      next := Some(PageRef(page + 1, limit));
    }
    var prev: Option<PageRef> := None;
    if startIndex > 0 {
      prev := Some(PageRef(page - 1, limit));
    }
    PaginateOfLinks(page, limit, total, next, prev);
    var pagination := Pagination(next, prev);
    return Ok(200, ListPage(|items|, pagination, items));
  }

  // ---------------------------------------------------------------------
  // GET, POST, PUT, DELETE /knowledge-base/:id
  // ---------------------------------------------------------------------

  /** The creator of an item, or any admin, may change or delete it. */
  predicate CanMutate(user: User, item: KbItem) {
    item.createdBy == user.id || IsAdmin(user)
  }

  /** The document `createKnowledgeBaseItem` validates: the body with `createdBy` set to the caller. */
  function CreatedItem(body: KbInput, user: User): (r: Result<KbItem, set<KbField>>)
    ensures r.Success? ==> r.value.createdBy == user.id && WellFormed(r.value)
    ensures r.Failure? ==> CreatedByField !in r.error || user.id == []
  {
    ValidateKnowledgeBase(body.(createdBy := Some(user.id)))
  }

  /** Whatever owner the client sends is ignored. */
  lemma CreateIgnoresClientOwner(body: KbInput, user: User, claimed: Option<Id>)
    ensures CreatedItem(body.(createdBy := claimed), user) == CreatedItem(body, user)
  {
    assert body.(createdBy := claimed).(createdBy := Some(user.id)) == body.(createdBy := Some(user.id));
  }

  /** `createKnowledgeBaseItem`: validate the body owned by the caller and store it under a fresh id. */
  method CreateKnowledgeBaseItem(store: Collection<KbItem>, body: KbInput, user: User, newId: Id)
    returns (r: Response<KbItem>)
    requires newId !in store.docs
    modifies store
    ensures CreatedItem(body, user).Failure? ==> r == Err(ServerError) && store.docs == old(store.docs)
    ensures CreatedItem(body, user).Success? ==>
      var item := CreatedItem(body, user).value;
      r == Ok(201, item) && store.docs == old(store.docs)[newId := item]
  {
    var input := body.(createdBy := Some(user.id));
    var validated := ValidateKnowledgeBase(input);
    if validated.Failure? {
      return Err(ServerError);
    }
    store.Save(newId, validated.value);
    return Ok(201, validated.value);
  }

  /** The document `findByIdAndUpdate` produces with validators on: the merged item, or the failing paths. */
  function UpdatedItem(item: KbItem, body: KbInput): (r: Result<KbItem, set<KbField>>)
    ensures r.Success? ==> WellFormed(r.value)
    ensures r.Success? ==> r.value.createdBy == body.createdBy.GetOr(item.createdBy)
  {
    ValidateKnowledgeBase(Merge(item, body))
  }

  /**
   * `updateKnowledgeBaseItem`: 404 for an absent id, then 401 unless the
   * caller created the item or is an admin, then the validated update.
   * Nothing changes unless the update succeeds.
   */
  method UpdateKnowledgeBaseItem(store: Collection<KbItem>, id: Id, body: KbInput, user: User)
    returns (r: Response<KbItem>)
    modifies store
    ensures id !in old(store.docs) ==> r == Err(NotFound) && store.docs == old(store.docs)
    ensures id in old(store.docs) && !CanMutate(user, old(store.docs)[id]) ==>
      r == Err(Unauthorized) && store.docs == old(store.docs)
    ensures id in old(store.docs) && CanMutate(user, old(store.docs)[id]) ==>
      var u := UpdatedItem(old(store.docs)[id], body);
      && (u.Failure? ==> r == Err(ServerError) && store.docs == old(store.docs))
      && (u.Success? ==> r == Ok(200, u.value) && store.docs == old(store.docs)[id := u.value])
  {
    if id !in store.docs {
      return Err(NotFound);
    }
    var item := store.docs[id];
    if item.createdBy != user.id && !IsAdmin(user) {
      return Err(Unauthorized);
    }
    var updated := ValidateKnowledgeBase(Merge(item, body));
    if updated.Failure? {
      return Err(ServerError);
    }
    store.Save(id, updated.value);
    return Ok(200, updated.value);
  }

  /**
   * `deleteKnowledgeBaseItem`: 404 for an absent id, then 401 unless the
   * caller created the item or is an admin; otherwise exactly that item goes.
   */
  method DeleteKnowledgeBaseItem(store: Collection<KbItem>, id: Id, user: User)
    returns (r: Response<()>)
    modifies store
    ensures id !in old(store.docs) ==> r == Err(NotFound) && store.docs == old(store.docs)
    ensures id in old(store.docs) && !CanMutate(user, old(store.docs)[id]) ==>
      r == Err(Unauthorized) && store.docs == old(store.docs)
    ensures id in old(store.docs) && CanMutate(user, old(store.docs)[id]) ==>
      r == Ok(200, ()) && store.docs == old(store.docs) - {id}
  {
    if id !in store.docs {
      return Err(NotFound);
    }
    var item := store.docs[id];
    if item.createdBy != user.id && !IsAdmin(user) {
      return Err(Unauthorized);
    }
    store.Remove(id);
    return Ok(200, ());
  }

  /**
   * The gate on its own: which status a change request gets before anything
   * is written, 404 taking precedence over 401.
   */
  function Gate(docs: map<Id, KbItem>, id: Id, user: User): (r: Option<nat>)
    ensures r == None <==> id in docs && CanMutate(user, docs[id])
    ensures id !in docs ==> r == Some(NotFound)
    ensures r == Some(Unauthorized) ==> id in docs && docs[id].createdBy != user.id && !IsAdmin(user)
  {
    if id !in docs then Some(NotFound)
    else if !CanMutate(user, docs[id]) then Some(Unauthorized)
    else None
  }

  /** An admin always passes the gate for an existing item; anyone else only for their own items. */
  lemma GateAdmin(docs: map<Id, KbItem>, id: Id, user: User)
    requires id in docs
    ensures IsAdmin(user) ==> Gate(docs, id, user) == None
    ensures !IsAdmin(user) ==> (Gate(docs, id, user) == None <==> docs[id].createdBy == user.id)
  {
  }

  // ---------------------------------------------------------------------
  // GET /knowledge-base/search
  // ---------------------------------------------------------------------

  datatype SearchPage = SearchPage(count: nat, data: seq<KbItem>)

  /**
   * `searchKnowledgeBase`: 400 without a search term, before the store is
   * consulted; otherwise the store's text search, best match first.  A term
   * given as an array or object is refused by the store's `$search` (500).
   */
  function SearchKnowledgeBase(q: Option<Json>, textSearch: string -> seq<KbItem>): (r: Response<SearchPage>)
    ensures !Truthy(q) ==> r == Err(BadRequest)
    ensures r.Ok? ==>
      && q.Some? && q.value.JStr? && q.value.s != []
      && r.status == 200 && r.body.data == textSearch(q.value.s) && r.body.count == |r.body.data|
    ensures Truthy(q) && q.value.JStr? ==> r.Ok?
  {
    if !Truthy(q) then Err(BadRequest)
    else if !q.value.JStr? then Err(ServerError)
    else
      var items := textSearch(q.value.s);
      Ok(200, SearchPage(|items|, items))
  }

  /** Without a term the answer does not depend on the store at all. */
  lemma SearchGuardIgnoresStore(q: Option<Json>, s1: string -> seq<KbItem>, s2: string -> seq<KbItem>)
    requires q == None || q == Some(JStr([]))
    ensures SearchKnowledgeBase(q, s1) == SearchKnowledgeBase(q, s2) == Err(BadRequest)
  {
  }
}
