/**
 * The decisions inside the create-order dialog: the shipping-fee input
 * filter, how the product panel is chosen and what each product row is
 * given, and when Create is enabled. The selection itself is kept by the
 * order page; its toggle and quantity handlers are modelled in `ProductRowView`.
 */
module CreateOrderDialog {
  import opened Types

  /** The characters the fee input keeps: `\d` (ASCII digits, no `u` flag) and `.`. */
  predicate FeeChar(c: char) {
    '0' <= c <= '9' || c == '.'
  }

  /** `a` can be obtained from `b` by deleting characters. */
  predicate IsSubsequence(a: string, b: string)
    decreases |b|
  {
    |a| == 0 || (|b| > 0 && ((a[0] == b[0] && IsSubsequence(a[1..], b[1..])) || IsSubsequence(a, b[1..])))
  }

  /** `value.replace(/[^\d.]/g, "")`. */
  function SanitizeFee(s: string): (r: string)
    ensures forall i :: 0 <= i < |r| ==> FeeChar(r[i])
    ensures IsSubsequence(r, s)
    decreases |s|
  {
    if |s| == 0 then ""
    else
      var rest := SanitizeFee(s[1..]);
      if FeeChar(s[0]) then
        assert ([s[0]] + rest)[1..] == rest;
        [s[0]] + rest
      else rest
  }

  /** Each kept character is kept as often as it occurs; every other character is gone. */
  lemma {:induction false} SanitizeFeeCounts(s: string)
    ensures forall c :: multiset(SanitizeFee(s))[c] == if FeeChar(c) then multiset(s)[c] else 0
    decreases |s|
  {
    if |s| > 0 {
      SanitizeFeeCounts(s[1..]);
      assert s == [s[0]] + s[1..];
      assert multiset(s) == multiset{s[0]} + multiset(s[1..]);
    }
  }

  /** The filter leaves a string unchanged exactly when every character is already a digit or `.`. */
  lemma {:induction false} SanitizeFeeFixedPoint(s: string)
    ensures SanitizeFee(s) == s <==> forall i :: 0 <= i < |s| ==> FeeChar(s[i])
    decreases |s|
  {
    if |s| > 0 {
      SanitizeFeeFixedPoint(s[1..]);
      var rest := SanitizeFee(s[1..]);
      assert s == [s[0]] + s[1..];
      assert (forall i :: 0 <= i < |s| ==> FeeChar(s[i]))
             <==> FeeChar(s[0]) && (forall i :: 0 <= i < |s[1..]| ==> FeeChar(s[1..][i])) by {
        forall i | 0 < i < |s| ensures s[i] == s[1..][i - 1] { }
      }
      if !FeeChar(s[0]) {
        SubsequenceLength(rest, s[1..]);
        assert |SanitizeFee(s)| < |s|;
      }
    }
  }

  lemma {:induction false} SubsequenceLength(a: string, b: string)
    requires IsSubsequence(a, b)
    ensures |a| <= |b|
    decreases |b|
  {
    if |a| > 0 {
      if a[0] == b[0] && IsSubsequence(a[1..], b[1..]) {
        SubsequenceLength(a[1..], b[1..]);
      } else {
        SubsequenceLength(a, b[1..]);
      }
    }
  }

  /** Filtering twice is filtering once. */
  lemma SanitizeFeeIdempotent(s: string)
    ensures SanitizeFee(SanitizeFee(s)) == SanitizeFee(s)
  {
    SanitizeFeeFixedPoint(SanitizeFee(s));
  }

  /** A product's selection entry: the order page stores `{quantity}` under the product id. */
  type Selection = map<string, int>

  /** What the dialog hands to one product row. */
  datatype RowProps = RowProps(productId: string, isChecked: bool, quantity: int)

  /** `Boolean(selectedProducts[id])` and `selectedProducts[id]?.quantity ?? 1`. */
  function RowFor(sel: Selection, p: Product): (r: RowProps)
    ensures r.productId == p.id
    ensures r.isChecked <==> p.id in sel
    ensures p.id in sel ==> r.quantity == sel[p.id]
    ensures p.id !in sel ==> r.quantity == 1
  {
    RowProps(p.id, p.id in sel, if p.id in sel then sel[p.id] else 1)
  }

  /** What the products area shows. */
  datatype Panel = Spinner | LoadError | NoProducts | ProductList(rows: seq<RowProps>)

  /** Loading wins over an error, an error over the empty message, and the list comes last. */
  function ProductPanel(isLoading: bool, hasError: bool, products: seq<Product>, sel: Selection): (r: Panel)
    ensures r.Spinner? <==> isLoading
    ensures r.LoadError? <==> !isLoading && hasError
    ensures r.NoProducts? <==> !isLoading && !hasError && |products| == 0
    ensures r.ProductList? ==> |r.rows| == |products|
    ensures r.ProductList? ==> forall i :: 0 <= i < |products| ==> r.rows[i] == RowFor(sel, products[i])
  {
    if isLoading then Spinner
    else if hasError then LoadError
    else if |products| == 0 then NoProducts
    else ProductList(seq(|products|, i requires 0 <= i < |products| => RowFor(sel, products[i])))
  }

  /** `hasSelectedProducts` as the order page computes it. */
  function HasSelectedProducts(sel: Selection): (has: bool)
    ensures has <==> exists id :: id in sel
  {
    if |sel.Keys| > 0 then
      var id :| id in sel.Keys;
      true
    else
      assert sel.Keys == {};
      false
  }

  /** The Create button is disabled exactly when nothing is selected. */
  function CreateDisabled(hasSelectedProducts: bool): (disabled: bool)
    ensures disabled <==> !hasSelectedProducts
  {
    !hasSelectedProducts
  }

  /**
   * When every selected id belongs to a listed product, Create is enabled
   * exactly when some row of the list is checked.
   */
  lemma CreateEnabledIffRowChecked(products: seq<Product>, sel: Selection)
    requires |products| > 0
    requires forall id :: id in sel ==> exists i :: 0 <= i < |products| && products[i].id == id
    ensures var panel := ProductPanel(false, false, products, sel);
            !CreateDisabled(HasSelectedProducts(sel))
            <==> exists i :: 0 <= i < |panel.rows| && panel.rows[i].isChecked
  {
    var panel := ProductPanel(false, false, products, sel);
    if HasSelectedProducts(sel) {
      var id :| id in sel.Keys;
      var i :| 0 <= i < |products| && products[i].id == id;
      assert panel.rows[i].isChecked;
    }
    if exists i :: 0 <= i < |panel.rows| && panel.rows[i].isChecked {
      var i :| 0 <= i < |panel.rows| && panel.rows[i].isChecked;
      assert products[i].id in sel.Keys;
    }
  }
}
