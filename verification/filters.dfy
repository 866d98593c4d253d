/**
 * The order-list filters kept in the page's query string: reading them
 * with their defaults, merging a partial update into the query, and
 * resetting to the bare path.
 */
module Filters {
  import opened Wrappers
  import opened JsNumbers
  import opened SearchParams
  import Types
  import Auth

  /** The typed filters read from the query string and the session. */
  datatype Filters = Filters(
    customerId: Option<string>,
    status: Option<string>,
    sortBy: Option<string>,
    sortOrder: Option<string>,
    page: JsNumber,
    limit: JsNumber,
    search: Option<string>)

  const DefaultPage := 1
  const DefaultLimit := 10

  /** `x || undefined` for an optional string: the empty string counts as missing. */
  function NonEmpty(x: Option<string>): (r: Option<string>)
    ensures r.None? <==> x.None? || x.value == ""
    ensures r.Some? ==> r == x
  {
    if x.Some? && x.value != "" then x else None
  }

  /** A text parameter: missing or empty reads as undefined, anything else as itself. */
  function TextParam(p: Params, name: string): (r: Option<string>)
    ensures r.None? <==> Get(p, name).None? || Get(p, name).value == ""
    ensures r.Some? ==> Get(p, name) == r
  {
    NonEmpty(Get(p, name))
  }

  /** A numeric parameter: missing or empty reads as the default, anything else through parseInt. */
  function NumberParam(p: Params, name: string, default: int): (r: JsNumber)
    ensures Get(p, name).None? || Get(p, name).value == "" ==> r == Int(default)
    ensures Get(p, name).Some? && Get(p, name).value != "" ==> r == ParseInt(Get(p, name).value)
  {
    var raw := Get(p, name);
    if raw.Some? && raw.value != "" then ParseInt(raw.value) else Int(default)
  }

  /** The customer is known only once the session check is over, and only with a non-empty id. */
  function CustomerId(auth: Auth.AuthState): (r: Option<string>)
    ensures auth.isLoading ==> r == None
    ensures !auth.isLoading && auth.user.Some? && auth.user.value.id != "" ==> r == Some(auth.user.value.id)
    ensures auth.user.None? || auth.user.value.id == "" ==> r == None
  {
    if auth.isLoading then None
    else if auth.user.Some? then NonEmpty(Some(auth.user.value.id))
    else None
  }

  /** The `filters` memo. */
  function Read(p: Params, auth: Auth.AuthState): (f: Filters)
    ensures f.customerId == CustomerId(auth)
    ensures f.status == TextParam(p, "status") && f.sortBy == TextParam(p, "sortBy")
    ensures f.sortOrder == TextParam(p, "sortOrder") && f.search == TextParam(p, "search")
    ensures f.page == NumberParam(p, "page", DefaultPage)
    ensures f.limit == NumberParam(p, "limit", DefaultLimit)
  {
    Filters(
      CustomerId(auth),
      TextParam(p, "status"),
      TextParam(p, "sortBy"),
      TextParam(p, "sortOrder"),
      NumberParam(p, "page", DefaultPage),
      NumberParam(p, "limit", DefaultLimit),
      TextParam(p, "search"))
  }

  /** A value in a partial filters object. */
  datatype Value = Undefined | Null | Str(s: string) | Num(n: int)

  /** `value === undefined || value === null || value === ""`. */
  predicate Clears(v: Value) {
    v.Undefined? || v.Null? || v == Str("")
  }

  /** `String(value)`. */
  function Text(v: Value): (s: string)
    requires !Clears(v)
    ensures s != ""
  {
    match v
    case Str(s) => s
    case Num(n) => IntToString(n)
  }

  datatype Entry = Entry(key: string, value: Value)

  /** The entries of a JavaScript object: its keys are distinct. */
  predicate DistinctKeys(u: seq<Entry>) {
    forall i, j :: 0 <= i < j < |u| ==> u[i].key != u[j].key
  }

  predicate Mentions(u: seq<Entry>, key: string) {
    exists i :: 0 <= i < |u| && u[i].key == key
  }

  /** What one entry does to the query: delete a clearing value, set any other. */
  function ApplyEntry(p: Params, e: Entry): (r: Params)
    ensures Clears(e.value) ==> Named(r, e.key) == []
    ensures !Clears(e.value) ==> Named(r, e.key) == [Text(e.value)]
    ensures forall m :: m != e.key ==> Named(r, m) == Named(p, m)
  {
    if Clears(e.value) then Delete(p, e.key) else Set(p, e.key, Text(e.value))
  }

  /** The query `updateFilters` navigates to: the entries applied in order to the current query. */
  function Update(p: Params, u: seq<Entry>): (r: Params)
    ensures forall m :: !Mentions(u, m) ==> Named(r, m) == Named(p, m)
    decreases |u|
  {
    if |u| == 0 then p
    else
      var r := Update(ApplyEntry(p, u[0]), u[1..]);
      forall m ensures Mentions(u[1..], m) ==> Mentions(u, m) {
        MentionsTail(u, m);
      }
      r
  }

  lemma MentionsTail(u: seq<Entry>, m: string)
    requires |u| > 0
    ensures Mentions(u[1..], m) ==> Mentions(u, m)
  {
    if Mentions(u[1..], m) {
      var i :| 0 <= i < |u[1..]| && u[1..][i].key == m;
      assert u[i + 1].key == m;
    }
  }

  /** In the updated query, a mentioned key holds exactly the update's value, or nothing if it clears. */
  lemma {:induction false} UpdateMentioned(p: Params, u: seq<Entry>, k: nat)
    requires DistinctKeys(u) && k < |u|
    ensures Clears(u[k].value) ==> Named(Update(p, u), u[k].key) == []
    ensures !Clears(u[k].value) ==> Named(Update(p, u), u[k].key) == [Text(u[k].value)]
    decreases |u|
  {
    var q := ApplyEntry(p, u[0]);
    if k == 0 {
      forall i | 0 <= i < |u[1..]| ensures u[1..][i].key != u[0].key {
        assert u[1..][i] == u[i + 1];
      }
      assert !Mentions(u[1..], u[0].key);
    } else {
      assert DistinctKeys(u[1..]) by {
        forall i, j | 0 <= i < j < |u[1..]| ensures u[1..][i].key != u[1..][j].key {
          assert u[1..][i] == u[i + 1] && u[1..][j] == u[j + 1];
        }
      }
      assert u[1..][k - 1] == u[k];
      UpdateMentioned(q, u[1..], k - 1);
    }
  }

  /** `Named` determines a single-valued entry completely: setting it again is a no-op. */
  lemma {:induction false} UpdateStable(q: Params, u: seq<Entry>)
    requires forall k :: 0 <= k < |u| ==> ApplyEntry(q, u[k]) == q
    ensures Update(q, u) == q
    decreases |u|
  {
    if |u| > 0 {
      assert forall k :: 0 <= k < |u[1..]| ==> u[1..][k] == u[k + 1];
      UpdateStable(q, u[1..]);
    }
  }

  /** Applying the same update twice gives the same query as applying it once. */
  lemma UpdateIdempotent(p: Params, u: seq<Entry>)
    requires DistinctKeys(u)
    ensures Update(Update(p, u), u) == Update(p, u)
  {
    var q := Update(p, u);
    forall k | 0 <= k < |u| ensures ApplyEntry(q, u[k]) == q {
      UpdateMentioned(p, u, k);
      if Clears(u[k].value) {
        DeleteAbsent(q, u[k].key);
      } else {
        SetPresent(q, u[k].key, Text(u[k].value));
      }
    }
    UpdateStable(q, u);
  }

  /** Where the router is sent: a path and its query. */
  datatype Location = Location(path: string, query: Params)

  /** `updateFilters`: stay on the current path, with the update merged into the current query. */
  function UpdateFilters(pathname: string, current: Params, u: seq<Entry>): (l: Location)
    ensures l.path == pathname
    ensures forall m :: !Mentions(u, m) ==> Named(l.query, m) == Named(current, m)
  {
    Location(pathname, Update(current, u))
  }

  /** `resetFilters`: the bare path, with no query at all. */
  function ResetFilters(pathname: string): (l: Location)
    ensures l.query == [] && Serialize(l.query) == ""
    ensures l.path == pathname
  {
    Location(pathname, [])
  }

  /** After a reset every filter reads as its default. */
  lemma ResetReadsDefaults(pathname: string, auth: Auth.AuthState)
    ensures var f := Read(ResetFilters(pathname).query, auth);
            && f.status == None && f.sortBy == None && f.sortOrder == None && f.search == None
            && f.page == Int(DefaultPage) && f.limit == Int(DefaultLimit)
  {
  }

  /** A text filter written by an update reads back as written; a cleared one reads as undefined. */
  lemma UpdatedTextReadsBack(p: Params, u: seq<Entry>, k: nat, auth: Auth.AuthState)
    requires DistinctKeys(u) && k < |u|
    requires u[k].key in {"status", "sortBy", "sortOrder", "search"}
    requires u[k].value.Undefined? || u[k].value.Null? || u[k].value.Str?
    ensures TextParam(Update(p, u), u[k].key) == if Clears(u[k].value) then None else Some(u[k].value.s)
  {
    UpdateMentioned(p, u, k);
  }

  /** A page or limit written as a number reads back as that number, through String and parseInt. */
  lemma UpdatedNumberReadsBack(p: Params, u: seq<Entry>, k: nat, default: int)
    requires DistinctKeys(u) && k < |u| && u[k].value.Num?
    ensures NumberParam(Update(p, u), u[k].key, default) == Int(u[k].value.n)
  {
    UpdateMentioned(p, u, k);
    ParseIntOfIntToString(u[k].value.n);
  }

  /** A hexadecimal page parameter is read as hexadecimal: `?page=0x10` is page 16, `?page=0x` is NaN. */
  lemma HexPageParam(auth: Auth.AuthState)
    ensures Read([Param("page", "0x10")], auth).page == Int(16)
    ensures Read([Param("page", "0x")], auth).page == NaN
  {
    ParseIntHexPrefix();
    ParseIntBareHexPrefix();
    var hex, bare := [Param("page", "0x10")], [Param("page", "0x")];
    assert Get(hex, "page") == Some("0x10");
    assert Get(bare, "page") == Some("0x");
    assert NumberParam(hex, "page", DefaultPage) == ParseInt("0x10");
    assert NumberParam(bare, "page", DefaultPage) == ParseInt("0x");
  }

  /** A parameter an update does not mention reads exactly as before it. */
  lemma UnmentionedParamUnchanged(p: Params, u: seq<Entry>, name: string, default: int)
    requires !Mentions(u, name)
    ensures TextParam(Update(p, u), name) == TextParam(p, name)
    ensures NumberParam(Update(p, u), name, default) == NumberParam(p, name, default)
  {
    GetDeterminedByNamed(Update(p, u), p, name);
  }

  /** A logged-in user's id becomes the customer filter once the session check has settled. */
  lemma LoggedInCustomer(s: Auth.AuthState, data: Auth.Payload, p: Params)
    requires data.Truthy? && data.user.Some? && data.user.value.id != ""
    ensures Read(p, Auth.Login(s, Auth.Succeeded(data)).state).customerId == Some(data.user.value.id)
  {
  }

  /** After logout there is no customer filter, whatever the loading flag. */
  lemma LoggedOutCustomer(s: Auth.AuthState, o: Auth.CallOutcome, p: Params)
    ensures Read(p, Auth.Logout(s, o).state).customerId == None
  {
  }
}
