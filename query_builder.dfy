/**
 * The pieces the knowledge-base list handler (`getKnowledgeBaseItems`)
 * builds its store query from: the filter with the control parameters
 * removed, comma lists turned into space lists, the `page`/`limit`
 * integers with their defaults, the skip/limit window and the `next`/`prev`
 * pagination links.
 */
module QueryBuilder {
  import opened Common
  import opened JsText
  import opened OperatorRewrite

  /** The query parameters that steer the listing and are not filter conditions. */
  const ControlParams: seq<string> := ["select", "sort", "page", "limit"]

  /** Sort order used when the request gives none: newest first. */
  const DefaultSort: string := "-createdAt"

  const DefaultPage: int := 1
  const DefaultLimit: int := 10

  // ---------------------------------------------------------------------
  // Removing control parameters
  // ---------------------------------------------------------------------

  /** The object with every member whose key is in `keys` deleted; the rest keeps its order. */
  function Without(ps: seq<Member>, keys: seq<string>): (r: seq<Member>)
    ensures |r| <= |ps|
    ensures forall m :: m in r <==> m in ps && m.key !in keys
  {
    if ps == [] then []
    else
      var rest := Without(ps[1..], keys);
      if ps[0].key in keys then rest else [ps[0]] + rest
  }

  /** Reading a key of the stripped object: a deleted key is `undefined`, any other reads as before. */
  lemma {:induction false} LookupWithout(ps: seq<Member>, keys: seq<string>, k: string)
    ensures Lookup(Without(ps, keys), k) == if k in keys then None else Lookup(ps, k)
  {
    if ps != [] {
      LookupWithout(ps[1..], keys, k);
    }
  }

  lemma {:induction false} WithoutNothing(ps: seq<Member>)
    ensures Without(ps, []) == ps
  {
    if ps != [] {
      WithoutNothing(ps[1..]);
    }
  }

  /** Deleting keys one after the other is deleting them all at once. */
  lemma {:induction false} WithoutTwice(ps: seq<Member>, keys: seq<string>, k: string)
    ensures Without(Without(ps, keys), [k]) == Without(ps, keys + [k])
  {
    if ps != [] {
      WithoutTwice(ps[1..], keys, k);
    }
  }

  /**
   * The `forEach` that deletes `select`, `sort`, `page` and `limit` from the
   * copy of the query: afterwards the filter holds none of them and every
   * other member, in its order.
   */
  method StripControlParams(query: seq<Member>) returns (filter: seq<Member>)
    ensures filter == Without(query, ControlParams)
    ensures forall k :: Lookup(filter, k) == if k in ControlParams then None else Lookup(query, k)
  {
    filter := query;
    WithoutNothing(query);
    for i := 0 to |ControlParams|
      invariant filter == Without(query, ControlParams[..i])
    {
      WithoutTwice(query, ControlParams[..i], ControlParams[i]);
      assert ControlParams[..i] + [ControlParams[i]] == ControlParams[..i + 1];
      filter := Without(filter, [ControlParams[i]]);
    }
    assert ControlParams[..|ControlParams|] == ControlParams;
    forall k {
      LookupWithout(query, ControlParams, k);
    }
  }

  // ---------------------------------------------------------------------
  // Comma lists
  // ---------------------------------------------------------------------

  /** `list.split(',').join(' ')`: the field list Mongoose's `select` and `sort` expect. */
  function SpaceSeparated(list: string): (r: string)
    ensures |r| == |list| && ',' !in r
  {
    SplitJoinReplaces(list, ',', ' ');
    Join(Split(list, ','), ' ')
  }

  /** The same fields, in the same order; only the separators change. */
  lemma SpaceSeparatedFields(list: string)
    requires ' ' !in list
    ensures Split(SpaceSeparated(list), ' ') == Split(list, ',')
  {
    SplitJoinReplaces(list, ',', ' ');
    SplitOfReplaced(list, ',', ' ');
  }

  // ---------------------------------------------------------------------
  // page and limit
  // ---------------------------------------------------------------------

  /**
   * `parseInt(v, 10) || d`: the leading decimal integer of the value's
   * string form, or `d` when there is none (NaN) or it is 0.
   */
  function IntParamOr(v: Option<Json>, d: int): (r: int)
    requires d != 0
    ensures r != 0
    ensures r == d || ParseInt(ToJsString(v)) == Some(r)
  {
    match ParseInt(ToJsString(v))
    case Some(n) => if n != 0 then n else d
    case None => d
  }

  /** A missing parameter takes the default. */
  lemma IntParamMissing(d: int)
    requires d != 0
    ensures IntParamOr(None, d) == d
  {
    UndefinedIsNaN();
  }

  /** `parseInt(undefined)` is NaN: the string `undefined` has no leading digits. */
  lemma UndefinedIsNaN()
    ensures ParseInt(ToJsString(None)) == None
  {
    var u: string := "undefined";
    assert u[0] == 'u';
    assert Unsigned(u) == u;
    assert DigitLen(u) == 0;
    assert ParseSigned(u) == None;
    assert !IsWhitespace(u[0]);
    TrimStartSkips([], u);
    assert [] + u == u;
    assert ToJsString(None) == u;
  }

  /** A parameter written as a non-zero decimal integer, possibly followed by other text, is that integer. */
  lemma IntParamReadsDecimal(n: int, rest: string, d: int)
    requires d != 0 && n != 0
    requires rest == [] || !IsDigit(rest[0])
    ensures IntParamOr(Some(JStr(IntToString(n) + rest)), d) == n
  {
    var s := IntToString(n) + rest;
    assert ParseInt(s) == Some(n) by {
      var e: string := [];
      assert e + s == s;
      TrimStartSkips(e, s);
      ParseSignedReadsDecimal(n, rest);
    }
    StringParamReads(s);
  }

  lemma StringParamReads(s: string)
    ensures ToJsString(Some(JStr(s))) == s
  {
  }

  /** A parameter written as `0` takes the default, as `||` treats 0 as false. */
  lemma IntParamZero(d: int)
    requires d != 0
    ensures IntParamOr(Some(JStr("0")), d) == d
  {
    var z: string := "0";
    assert IntToString(0) == z;
    assert ParseInt(z) == Some(0) by {
      var e: string := [];
      assert e + z == z && z + e == z;
      TrimStartSkips(e, z);
      ParseSignedReadsDecimal(0, e);
    }
    StringParamReads(z);
  }

  /** The page number of a request: `parseInt(req.query.page, 10) || 1`. */
  function PageOf(query: seq<Member>): (p: int)
    ensures p != 0
  {
    IntParamOr(Lookup(query, "page"), DefaultPage)
  }

  /** The page size of a request: `parseInt(req.query.limit, 10) || 10`. */
  function LimitOf(query: seq<Member>): (l: int)
    ensures l != 0
  {
    IntParamOr(Lookup(query, "limit"), DefaultLimit)
  }

  // ---------------------------------------------------------------------
  // Window and pagination
  // ---------------------------------------------------------------------

  function Abs(n: int): nat {
    if n < 0 then -n else n
  }

  function Min(a: int, b: int): int {
    if a <= b then a else b
  }

  /**
   * `.skip(skip).limit(limit)` applied to the matching documents in sort
   * order.  The store takes a negative limit as its absolute value (a single
   * batch of that size).
   */
  function Window<T>(items: seq<T>, skip: nat, limit: int): (r: seq<T>)
    requires limit != 0
    ensures |r| <= Abs(limit)
    ensures |r| == if skip >= |items| then 0 else Min(Abs(limit), |items| - skip)
    ensures forall i :: 0 <= i < |r| ==> r[i] == items[skip + i]
  {
    if skip >= |items| then []
    else items[skip..skip + Min(Abs(limit), |items| - skip)]
  }

  /** Two windows of the same size, one right after the other, make one window of twice the size. */
  lemma WindowsAdjoinAt<T>(items: seq<T>, skip: nat, limit: nat)
    requires 0 < limit && skip + limit <= |items|
    ensures Window(items, skip, limit) + Window(items, skip + limit, limit) == Window(items, skip, 2 * limit)
  {
    var first := Window(items, skip, limit);
    var second := Window(items, skip + limit, limit);
    var both := Window(items, skip, 2 * limit);
    assert |first + second| == |both|;
    forall i | 0 <= i < |both| ensures (first + second)[i] == both[i] {
      if i >= limit {
        assert (first + second)[i] == second[i - limit] == items[skip + limit + (i - limit)];
      }
    }
  }

  /** Consecutive pages cover consecutive, non-overlapping stretches of the result. */
  lemma WindowsAdjoin<T>(items: seq<T>, page: nat, limit: nat)
    requires 0 < limit
    requires (page + 1) * limit <= |items|
    ensures Window(items, page * limit, limit) + Window(items, (page + 1) * limit, limit)
         == Window(items, page * limit, 2 * limit)
  {
    var skip := page * limit;
    assert (page + 1) * limit == skip + limit;
    WindowsAdjoinAt(items, skip, limit);
  }

  datatype PageRef = PageRef(page: int, limit: int)

  /** The `pagination` object: `next` and `prev` are set only when there is such a page. */
  datatype Pagination = Pagination(next: Option<PageRef>, prev: Option<PageRef>)

  /**
   * The links as the handler sets them: `next` when the window ends before
   * the number of documents in the whole collection, `prev` when it starts
   * after the first document.
   */
  function Paginate(page: int, limit: int, total: nat): (p: Pagination)
    ensures p.next.Some? ==> p.next.value == PageRef(page + 1, limit)
    ensures p.prev.Some? ==> p.prev.value == PageRef(page - 1, limit)
  {
    Pagination(
      if page * limit < total then Some(PageRef(page + 1, limit)) else None,
      if (page - 1) * limit > 0 then Some(PageRef(page - 1, limit)) else None)
  }

  /**
   * For a positive page size the links mean what they say: `prev` exactly
   * on pages after the first, `next` exactly when the collection still holds
   * documents past this page.
   */
  lemma PaginateMeaning<T>(page: int, limit: int, all: seq<T>)
    requires page >= 1 && limit > 0
    ensures Paginate(page, limit, |all|).prev.Some? <==> page > 1
    ensures Paginate(page, limit, |all|).next.Some? <==> Window(all, page * limit, limit) != []
  {
    if page > 1 {
      assert (page - 1) * limit >= limit;
    } else {
      assert (page - 1) * limit == 0;
    }
    assert page * limit >= 0;
  }

  /**
   * `total` counts the whole collection, not the filtered result: whenever
   * the filter matches no more documents than this page's end while the
   * collection holds more, the page links to a `next` page that is empty.
   */
  lemma NextIgnoresFilter<T>(page: int, limit: int, matching: seq<T>, all: seq<T>)
    requires page >= 1 && limit > 0
    requires |matching| <= page * limit < |all|
    ensures Paginate(page, limit, |all|).next == Some(PageRef(page + 1, limit))
    ensures Window(matching, page * limit, limit) == []
  {
  }
}
