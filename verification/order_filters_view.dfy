/**
 * The three dropdowns above the order list: what each one displays and
 * the filter update each choice issues.
 */
module OrderFiltersView {
  import opened Wrappers
  import opened SearchParams
  import opened Filters

  /** The status dropdown shows the status filter, or "" (All Status) when there is none. */
  function StatusMenuValue(status: Option<string>): (v: string)
    ensures status.Some? ==> v == status.value
    ensures status.None? ==> v == ""
  {
    status.GetOr("")
  }

  /** The price dropdown shows the sort order, whichever field it sorts by. */
  function PriceMenuValue(sortOrder: Option<string>): (v: string)
    ensures sortOrder.Some? ==> v == sortOrder.value
    ensures sortOrder.None? ==> v == ""
  {
    sortOrder.GetOr("")
  }

  /** The date dropdown shows the sort order too. */
  function DateMenuValue(sortOrder: Option<string>): (v: string)
    ensures sortOrder.Some? ==> v == sortOrder.value
    ensures sortOrder.None? ==> v == ""
  {
    sortOrder.GetOr("")
  }

  /** Both sort menus always show the same value. */
  lemma SortMenusAgree(sortOrder: Option<string>)
    ensures PriceMenuValue(sortOrder) == DateMenuValue(sortOrder)
    ensures sortOrder.Some? ==> PriceMenuValue(sortOrder) == sortOrder.value
  {
  }

  /** A status choice: "" (All Status) clears the filter, anything else sets it. */
  function OnStatusChange(value: string): (u: seq<Entry>)
    ensures DistinctKeys(u) && |u| == 1 && u[0].key == "status"
    ensures value == "" ==> Clears(u[0].value)
    ensures value != "" ==> u[0].value == Str(value)
  {
    [Entry("status", if value == "" then Undefined else Str(value))]
  }

  /** A sort choice: a direction sorts the given field that way; "" (Default) clears both. */
  function OnSortChange(field: string, value: string): (u: seq<Entry>)
    ensures DistinctKeys(u) && |u| == 2 && u[0].key == "sortBy" && u[1].key == "sortOrder"
    ensures value != "" ==> u[0].value == Str(field) && u[1].value == Str(value)
    ensures value == "" ==> Clears(u[0].value) && Clears(u[1].value)
  {
    if value != "" then [Entry("sortBy", Str(field)), Entry("sortOrder", Str(value))]
    else [Entry("sortBy", Undefined), Entry("sortOrder", Undefined)]
  }

  /** The price menu sorts by the order total. */
  function OnPriceSortChange(value: string): (u: seq<Entry>)
    ensures DistinctKeys(u) && |u| == 2 && u[0].key == "sortBy" && u[1].key == "sortOrder"
    ensures value != "" ==> u[0].value == Str("total") && u[1].value == Str(value)
    ensures value == "" ==> Clears(u[0].value) && Clears(u[1].value)
  {
    OnSortChange("total", value)
  }

  /** The date menu sorts by creation time. */
  function OnDateSortChange(value: string): (u: seq<Entry>)
    ensures DistinctKeys(u) && |u| == 2 && u[0].key == "sortBy" && u[1].key == "sortOrder"
    ensures value != "" ==> u[0].value == Str("createdAt") && u[1].value == Str(value)
    ensures value == "" ==> Clears(u[0].value) && Clears(u[1].value)
  {
    OnSortChange("createdAt", value)
  }

  /** After a status choice the status filter reads back the choice, and sorting is untouched. */
  lemma StatusChoiceReadsBack(p: Params, value: string, auth: Auth.AuthState)
    ensures var f := Read(Update(p, OnStatusChange(value)), auth);
            && f.status == (if value == "" then None else Some(value))
            && f.sortBy == Read(p, auth).sortBy && f.sortOrder == Read(p, auth).sortOrder
            && f.page == Read(p, auth).page
  {
    var u := OnStatusChange(value);
    UpdatedTextReadsBack(p, u, 0, auth);
    UnmentionedParamUnchanged(p, u, "sortBy", 0);
    UnmentionedParamUnchanged(p, u, "sortOrder", 0);
    UnmentionedParamUnchanged(p, u, "page", DefaultPage);
  }

  /** After a sort choice both sort filters read back it; Default leaves both undefined. */
  lemma SortChoiceReadsBack(p: Params, field: string, value: string, auth: Auth.AuthState)
    requires field != ""
    ensures var f := Read(Update(p, OnSortChange(field, value)), auth);
            && f.sortBy == (if value == "" then None else Some(field))
            && f.sortOrder == (if value == "" then None else Some(value))
            && f.status == Read(p, auth).status && f.page == Read(p, auth).page
  {
    var u := OnSortChange(field, value);
    UpdatedTextReadsBack(p, u, 0, auth);
    UpdatedTextReadsBack(p, u, 1, auth);
    UnmentionedParamUnchanged(p, u, "status", 0);
    UnmentionedParamUnchanged(p, u, "page", DefaultPage);
  }

  /**
   * Choosing a date order makes the price menu show that order as well:
   * the two menus share the one `sortOrder` parameter.
   */
  lemma DateChoiceShowsInPriceMenu(p: Params, value: string, auth: Auth.AuthState)
    ensures PriceMenuValue(Read(Update(p, OnDateSortChange(value)), auth).sortOrder) == value
  {
    SortChoiceReadsBack(p, "createdAt", value, auth);
  }

  /** `toUpperCase` on one character; only the ASCII letters are mapped. */
  function UpperChar(c: char): (u: char)
    ensures 'a' <= c <= 'z' ==> 'A' <= u <= 'Z' && u as int == c as int - 32
    ensures !('a' <= c <= 'z') ==> u == c
  {
    if 'a' <= c <= 'z' then (c as int - 32) as char else c
  }

  /** A status option's label: first character upper-cased, the rest as is. */
  function StatusLabel(option: string): (shown: string)
    ensures |shown| == |option|
    ensures |option| > 0 ==> shown[0] == UpperChar(option[0]) && shown[1..] == option[1..]
  {
    if option == "" then "" else [UpperChar(option[0])] + option[1..]
  }

  /** Labelling a label changes nothing, and distinct lower-case options keep distinct labels. */
  lemma StatusLabelProperties(a: string, b: string)
    ensures StatusLabel(StatusLabel(a)) == StatusLabel(a)
    ensures a != b && |a| > 0 && |b| > 0 && 'a' <= a[0] <= 'z' && 'a' <= b[0] <= 'z'
            ==> StatusLabel(a) != StatusLabel(b)
  {
    if a != b && |a| > 0 && |b| > 0 && 'a' <= a[0] <= 'z' && 'a' <= b[0] <= 'z' {
      if a[0] == b[0] {
        assert a[1..] != b[1..] by {
          assert a == [a[0]] + a[1..] && b == [b[0]] + b[1..];
        }
        assert StatusLabel(a)[1..] != StatusLabel(b)[1..];
      } else {
        assert StatusLabel(a)[0] != StatusLabel(b)[0];
      }
    }
  }
}
