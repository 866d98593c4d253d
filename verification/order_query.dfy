/**
 * The query string the order list is fetched with: each filter is sent
 * only when truthy, in a fixed key order, with the page sent as `cursor`.
 */
module OrderQuery {
  import opened Wrappers
  import opened JsNumbers
  import opened SearchParams
  import Filters

  /** The hook's filter argument: every field optional. */
  datatype QueryFilters = QueryFilters(
    status: Option<string>,
    sortBy: Option<string>,
    sortOrder: Option<string>,
    page: Option<JsNumber>,
    limit: Option<JsNumber>,
    customerId: Option<string>)

  /** The filters the order page passes in; `search` is not part of the hook's argument. */
  function FromFilters(f: Filters.Filters): (q: QueryFilters)
    ensures q.page == Some(f.page) && q.limit == Some(f.limit)
    ensures q.status == f.status && q.customerId == f.customerId
    ensures q.sortBy == f.sortBy && q.sortOrder == f.sortOrder
  {
    QueryFilters(f.status, f.sortBy, f.sortOrder, Some(f.page), Some(f.limit), f.customerId)
  }

  predicate TruthyText(x: Option<string>) {
    x.Some? && x.value != ""
  }

  predicate TruthyNumber(x: Option<JsNumber>) {
    x.Some? && x.value.Truthy()
  }

  /** The keys in the order the hook appends them. */
  const KeyOrder: seq<string> := ["customerId", "status", "sortBy", "sortOrder", "cursor", "limit"]

  function Rank(name: string): int {
    if name == "customerId" then 0
    else if name == "status" then 1
    else if name == "sortBy" then 2
    else if name == "sortOrder" then 3
    else if name == "cursor" then 4
    else if name == "limit" then 5
    else -1
  }

  /** One `if (x) params.append(name, text)`. */
  function TextPair(name: string, x: Option<string>): (r: Params)
    ensures |r| <= 1
    ensures r == [] <==> !TruthyText(x)
    ensures forall i :: 0 <= i < |r| ==> r[i] == Param(name, x.value)
  {
    if TruthyText(x) then [Param(name, x.value)] else []
  }

  function NumberPair(name: string, x: Option<JsNumber>): (r: Params)
    ensures |r| <= 1
    ensures r == [] <==> !TruthyNumber(x)
    ensures forall i :: 0 <= i < |r| ==> r[i] == Param(name, IntToString(x.value.value))
  {
    if TruthyNumber(x) then [Param(name, IntToString(x.value.value))] else []
  }

  /** The parameters the query function builds. */
  function Build(f: Option<QueryFilters>): (r: Params)
    ensures f.None? ==> r == []
    ensures |r| <= 6
    ensures forall i :: 0 <= i < |r| ==> r[i].value != ""
  {
    if f.None? then []
    else
      var q := f.value;
      TextPair(KeyName(CustomerIdKey), q.customerId)
      + TextPair(KeyName(StatusKey), q.status)
      + TextPair(KeyName(SortByKey), q.sortBy)
      + TextPair(KeyName(SortOrderKey), q.sortOrder)
      + NumberPair(KeyName(CursorKey), q.page)
      + NumberPair(KeyName(LimitKey), q.limit)
  }

  /** Keys come in the fixed order, so each appears at most once, and `page` never appears. */
  lemma BuildKeyOrder(f: Option<QueryFilters>)
    ensures var r := Build(f);
            && (forall i :: 0 <= i < |r| ==> r[i].name in KeyOrder)
            && (forall i, j :: 0 <= i < j < |r| ==> Rank(r[i].name) < Rank(r[j].name))
            && !Has(r, "page") && !Has(r, "search")
  {
    if f.Some? {
      var q := f.value;
      var a := TextPair(KeyName(CustomerIdKey), q.customerId);
      var b := TextPair(KeyName(StatusKey), q.status);
      var c := TextPair(KeyName(SortByKey), q.sortBy);
      var d := TextPair(KeyName(SortOrderKey), q.sortOrder);
      var e := NumberPair(KeyName(CursorKey), q.page);
      var g := NumberPair(KeyName(LimitKey), q.limit);
      var r := a + b + c + d + e + g;
      assert Build(f) == r;
      RanksOfPieces(a, b, c, d, e, g);
    }
  }

  /** Ranks along a concatenation of the six optional pieces strictly increase. */
  lemma RanksOfPieces(a: Params, b: Params, c: Params, d: Params, e: Params, g: Params)
    requires |a| <= 1 && |b| <= 1 && |c| <= 1 && |d| <= 1 && |e| <= 1 && |g| <= 1
    requires forall i :: 0 <= i < |a| ==> a[i].name == "customerId"
    requires forall i :: 0 <= i < |b| ==> b[i].name == "status"
    requires forall i :: 0 <= i < |c| ==> c[i].name == "sortBy"
    requires forall i :: 0 <= i < |d| ==> d[i].name == "sortOrder"
    requires forall i :: 0 <= i < |e| ==> e[i].name == "cursor"
    requires forall i :: 0 <= i < |g| ==> g[i].name == "limit"
    ensures var r := a + b + c + d + e + g;
            && (forall i :: 0 <= i < |r| ==> r[i].name in KeyOrder)
            && (forall i, j :: 0 <= i < j < |r| ==> Rank(r[i].name) < Rank(r[j].name))
            && !Has(r, "page") && !Has(r, "search")
  {
    KeyRanks();
    var r := a + b + c + d + e + g;
    var ab := |a| + |b|;
    var abc := ab + |c|;
    var abcd := abc + |d|;
    var abcde := abcd + |e|;
    forall i | 0 <= i < |r|
      ensures Rank(r[i].name) == (if i < |a| then 0 else if i < ab then 1 else if i < abc then 2
                                  else if i < abcd then 3 else if i < abcde then 4 else 5)
    {
      if i < |a| { assert r[i] == a[i]; }
      else if i < ab { assert r[i] == b[i - |a|]; }
      else if i < abc { assert r[i] == c[i - ab]; }
      else if i < abcd { assert r[i] == d[i - abc]; }
      else if i < abcde { assert r[i] == e[i - abcd]; }
      else { assert r[i] == g[i - abcde]; }
    }
    forall i | 0 <= i < |r|
      ensures r[i].name in KeyOrder
    {
      RankedNamesInKeyOrder(r[i].name);
    }
  }

  /** The rank of each key, and of the two filter names that are never sent. */
  lemma KeyRanks()
    ensures Rank("customerId") == 0 && Rank("status") == 1 && Rank("sortBy") == 2
    ensures Rank("sortOrder") == 3 && Rank("cursor") == 4 && Rank("limit") == 5
    ensures Rank("page") == -1 && Rank("search") == -1
  {
  }

  /** Exactly the key names have a rank. */
  lemma RankedNamesInKeyOrder(name: string)
    ensures Rank(name) >= 0 <==> name in KeyOrder
  {
  }

  /** The values a filter contributes: its text when truthy, nothing otherwise. */
  function TextSent(x: Option<string>): seq<string> {
    if TruthyText(x) then [x.value] else []
  }

  function NumberSent(x: Option<JsNumber>): seq<string> {
    if TruthyNumber(x) then [IntToString(x.value.value)] else []
  }

  /** The six keys the hook can send. */
  datatype Key = CustomerIdKey | StatusKey | SortByKey | SortOrderKey | CursorKey | LimitKey

  function KeyName(k: Key): string {
    match k
    case CustomerIdKey => "customerId"
    case StatusKey => "status"
    case SortByKey => "sortBy"
    case SortOrderKey => "sortOrder"
    case CursorKey => "cursor"
    case LimitKey => "limit"
  }

  /** Reads a key back from its name. */
  function KeyOf(name: string): Option<Key> {
    match name
    case "customerId" => Some(CustomerIdKey)
    case "status" => Some(StatusKey)
    case "sortBy" => Some(SortByKey)
    case "sortOrder" => Some(SortOrderKey)
    case "cursor" => Some(CursorKey)
    case "limit" => Some(LimitKey)
    case _ => None
  }

  lemma KeyNamesDistinct(a: Key, b: Key)
    ensures KeyName(a) == KeyName(b) <==> a == b
  {
    assert KeyOf(KeyName(a)) == Some(a);
    assert KeyOf(KeyName(b)) == Some(b);
  }

  /** What the query should carry under each key, stated key by key. */
  function Sent(q: QueryFilters, k: Key): seq<string> {
    match k
    case CustomerIdKey => TextSent(q.customerId)
    case StatusKey => TextSent(q.status)
    case SortByKey => TextSent(q.sortBy)
    case SortOrderKey => TextSent(q.sortOrder)
    case CursorKey => NumberSent(q.page)
    case LimitKey => NumberSent(q.limit)
  }

  lemma NamedOfTextPair(name: string, x: Option<string>, n: string)
    ensures Named(TextPair(name, x), n) == if name == n then TextSent(x) else []
  {
  }

  lemma NamedOfNumberPair(name: string, x: Option<JsNumber>, n: string)
    ensures Named(NumberPair(name, x), n) == if name == n then NumberSent(x) else []
  {
  }

  /** The query is the six pieces in order, so its values under `n` are the pieces' values in order. */
  lemma BuildPieces(q: QueryFilters, n: string)
    ensures Named(Build(Some(q)), n)
            == Named(TextPair("customerId", q.customerId), n)
             + Named(TextPair("status", q.status), n)
             + Named(TextPair("sortBy", q.sortBy), n)
             + Named(TextPair("sortOrder", q.sortOrder), n)
             + Named(NumberPair("cursor", q.page), n)
             + Named(NumberPair("limit", q.limit), n)
  {
    var a := TextPair("customerId", q.customerId);
    var b := TextPair("status", q.status);
    var c := TextPair("sortBy", q.sortBy);
    var d := TextPair("sortOrder", q.sortOrder);
    var e := NumberPair("cursor", q.page);
    var g := NumberPair("limit", q.limit);
    assert Build(Some(q)) == a + b + c + d + e + g;
    NamedSix(a, b, c, d, e, g, n);
  }

  /** Under every key the built query holds exactly what the filters send for it. */
  lemma BuildSends(q: QueryFilters, k: Key)
    ensures Named(Build(Some(q)), KeyName(k)) == Sent(q, k)
  {
    match k
    case CustomerIdKey => SentUnderCustomerId(q);
    case StatusKey => SentUnderStatus(q);
    case SortByKey => SentUnderSortBy(q);
    case SortOrderKey => SentUnderSortOrder(q);
    case CursorKey => SentUnderCursor(q);
    case LimitKey => SentUnderLimit(q);
  }

  lemma SentUnderCustomerId(q: QueryFilters)
    ensures Named(Build(Some(q)), "customerId") == TextSent(q.customerId)
  {
    BuildPieces(q, "customerId");
    NamedOfTextPair("customerId", q.customerId, "customerId");
    NamedOfTextPair("status", q.status, "customerId");
    NamedOfTextPair("sortBy", q.sortBy, "customerId");
    NamedOfTextPair("sortOrder", q.sortOrder, "customerId");
    NamedOfNumberPair("cursor", q.page, "customerId");
    NamedOfNumberPair("limit", q.limit, "customerId");
    assert TextSent(q.customerId) + [] + [] + [] + [] + [] == TextSent(q.customerId);
  }

  lemma SentUnderStatus(q: QueryFilters)
    ensures Named(Build(Some(q)), "status") == TextSent(q.status)
  {
    BuildPieces(q, "status");
    NamedOfTextPair("customerId", q.customerId, "status");
    NamedOfTextPair("status", q.status, "status");
    NamedOfTextPair("sortBy", q.sortBy, "status");
    NamedOfTextPair("sortOrder", q.sortOrder, "status");
    NamedOfNumberPair("cursor", q.page, "status");
    NamedOfNumberPair("limit", q.limit, "status");
    assert [] + TextSent(q.status) + [] + [] + [] + [] == TextSent(q.status);
  }

  lemma SentUnderSortBy(q: QueryFilters)
    ensures Named(Build(Some(q)), "sortBy") == TextSent(q.sortBy)
  {
    BuildPieces(q, "sortBy");
    NamedOfTextPair("customerId", q.customerId, "sortBy");
    NamedOfTextPair("status", q.status, "sortBy");
    NamedOfTextPair("sortBy", q.sortBy, "sortBy");
    NamedOfTextPair("sortOrder", q.sortOrder, "sortBy");
    NamedOfNumberPair("cursor", q.page, "sortBy");
    NamedOfNumberPair("limit", q.limit, "sortBy");
    assert [] + [] + TextSent(q.sortBy) + [] + [] + [] == TextSent(q.sortBy);
  }

  lemma SentUnderSortOrder(q: QueryFilters)
    ensures Named(Build(Some(q)), "sortOrder") == TextSent(q.sortOrder)
  {
    BuildPieces(q, "sortOrder");
    NamedOfTextPair("customerId", q.customerId, "sortOrder");
    NamedOfTextPair("status", q.status, "sortOrder");
    NamedOfTextPair("sortBy", q.sortBy, "sortOrder");
    NamedOfTextPair("sortOrder", q.sortOrder, "sortOrder");
    NamedOfNumberPair("cursor", q.page, "sortOrder");
    NamedOfNumberPair("limit", q.limit, "sortOrder");
    assert [] + [] + [] + TextSent(q.sortOrder) + [] + [] == TextSent(q.sortOrder);
  }

  lemma SentUnderCursor(q: QueryFilters)
    ensures Named(Build(Some(q)), "cursor") == NumberSent(q.page)
  {
    BuildPieces(q, "cursor");
    NamedOfTextPair("customerId", q.customerId, "cursor");
    NamedOfTextPair("status", q.status, "cursor");
    NamedOfTextPair("sortBy", q.sortBy, "cursor");
    NamedOfTextPair("sortOrder", q.sortOrder, "cursor");
    NamedOfNumberPair("cursor", q.page, "cursor");
    NamedOfNumberPair("limit", q.limit, "cursor");
    assert [] + [] + [] + [] + NumberSent(q.page) + [] == NumberSent(q.page);
  }

  lemma SentUnderLimit(q: QueryFilters)
    ensures Named(Build(Some(q)), "limit") == NumberSent(q.limit)
  {
    BuildPieces(q, "limit");
    NamedOfTextPair("customerId", q.customerId, "limit");
    NamedOfTextPair("status", q.status, "limit");
    NamedOfTextPair("sortBy", q.sortBy, "limit");
    NamedOfTextPair("sortOrder", q.sortOrder, "limit");
    NamedOfNumberPair("cursor", q.page, "limit");
    NamedOfNumberPair("limit", q.limit, "limit");
    assert [] + [] + [] + [] + [] + NumberSent(q.limit) == NumberSent(q.limit);
  }

  /** Nothing is sent under any other name. */
  lemma BuildSendsNothingElse(q: QueryFilters, n: string)
    requires forall k :: KeyName(k) != n
    ensures Named(Build(Some(q)), n) == []
  {
    NamedSix(TextPair(KeyName(CustomerIdKey), q.customerId), TextPair(KeyName(StatusKey), q.status),
             TextPair(KeyName(SortByKey), q.sortBy), TextPair(KeyName(SortOrderKey), q.sortOrder),
             NumberPair(KeyName(CursorKey), q.page), NumberPair(KeyName(LimitKey), q.limit), n);
    assert KeyName(CustomerIdKey) != n && KeyName(StatusKey) != n && KeyName(SortByKey) != n;
    assert KeyName(SortOrderKey) != n && KeyName(CursorKey) != n && KeyName(LimitKey) != n;
    NamedOfTextPair(KeyName(CustomerIdKey), q.customerId, n);
    NamedOfTextPair(KeyName(StatusKey), q.status, n);
    NamedOfTextPair(KeyName(SortByKey), q.sortBy, n);
    NamedOfTextPair(KeyName(SortOrderKey), q.sortOrder, n);
    NamedOfNumberPair(KeyName(CursorKey), q.page, n);
    NamedOfNumberPair(KeyName(LimitKey), q.limit, n);
  }

  /** The page travels as `cursor`; a falsy page (0 or NaN) sends no cursor. */
  lemma PageSentAsCursor(q: QueryFilters)
    ensures Named(Build(Some(q)), "page") == []
    ensures Get(Build(Some(q)), "cursor")
            == if TruthyNumber(q.page) then Some(IntToString(q.page.value.value)) else None
  {
    forall k ensures KeyName(k) != "page" {
      assert KeyName(k)[0] != 'p';
    }
    BuildSendsNothingElse(q, "page");
    BuildSends(q, CursorKey);
  }

  lemma NamedSix(a: Params, b: Params, c: Params, d: Params, e: Params, g: Params, n: string)
    ensures Named(a + b + c + d + e + g, n)
            == Named(a, n) + Named(b, n) + Named(c, n) + Named(d, n) + Named(e, n) + Named(g, n)
  {
    NamedConcat(a, b, n);
    NamedConcat(a + b, c, n);
    NamedConcat(a + b + c, d, n);
    NamedConcat(a + b + c + d, e, n);
    NamedConcat(a + b + c + d + e, g, n);
  }

  /** The request path: `/orders?` followed by the query. */
  function RequestPath(f: Option<QueryFilters>): (path: string)
    ensures |path| >= 8 && path[..8] == "/orders?"
    ensures f.None? ==> path == "/orders?"
  {
    "/orders?" + Serialize(Build(f))
  }

  /**
   * Reading an empty query while logged out yields the page-1, limit-10
   * request: the defaults are always sent, as `cursor=1` and `limit=10`.
   */
  lemma DefaultRequest(auth: Filters.Auth.AuthState)
    requires auth.user.None?
    ensures Build(Some(FromFilters(Filters.Read([], auth)))) == [Param("cursor", "1"), Param("limit", "10")]
  {
    assert IntToString(1) == "1";
    assert IntToString(10) == NatToString(1) + [DigitChar(0)] == "10";
  }

  /** A text filter that is missing or non-empty is sent exactly as it is. */
  lemma TextFilterSentAsIs(q: QueryFilters, k: Key)
    requires k in {StatusKey, SortByKey, SortOrderKey}
    requires q.status.None? || q.status.value != ""
    requires q.sortBy.None? || q.sortBy.value != ""
    requires q.sortOrder.None? || q.sortOrder.value != ""
    ensures Get(Build(Some(q)), KeyName(k))
            == match k case StatusKey => q.status case SortByKey => q.sortBy case _ => q.sortOrder
  {
    BuildSends(q, k);
  }

  /** The `search` filter never reaches the API. */
  lemma SearchNeverSent(q: QueryFilters)
    ensures Named(Build(Some(q)), "search") == []
  {
    forall k ensures KeyName(k) != "search" {
      assert KeyOf(KeyName(k)) == Some(k);
    }
    BuildSendsNothingElse(q, "search");
  }

  /**
   * Filters read from the page URL reach the API: a non-empty status,
   * sortBy or sortOrder parameter is sent under its own name, unchanged.
   */
  lemma UrlFiltersReachApi(p: Params, auth: Filters.Auth.AuthState)
    ensures var r := Build(Some(FromFilters(Filters.Read(p, auth))));
            && Get(r, "status") == Filters.TextParam(p, "status")
            && Get(r, "sortBy") == Filters.TextParam(p, "sortBy")
            && Get(r, "sortOrder") == Filters.TextParam(p, "sortOrder")
  {
    var q := FromFilters(Filters.Read(p, auth));
    TextFilterSentAsIs(q, StatusKey);
    TextFilterSentAsIs(q, SortByKey);
    TextFilterSentAsIs(q, SortOrderKey);
  }
}
