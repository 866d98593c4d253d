/** One row of the order list: the status chip's colour and the items summary. */
module OrderRowView {
  import opened Types
  import opened JsNumbers

  datatype ChipColor = Success | Error | Info | Warning

  /** `STATUS_COLORS`, keyed by the status text. */
  const StatusColors: map<string, ChipColor> := map[
    "delivered" := Success,
    "cancelled" := Error,
    "shipped" := Info,
    "pending" := Warning,
    "processing" := Warning]

  /** The chip colour for an order status. */
  function ColorOf(status: OrderStatus): (c: ChipColor)
    ensures status == Delivered ==> c == Success
    ensures status == Cancelled ==> c == Error
    ensures status == Shipped ==> c == Info
    ensures status == Pending || status == Processing ==> c == Warning
  {
    StatusColors[StatusName(status)]
  }

  /** The table is total over the status type and holds nothing else. */
  lemma StatusColorsTotal()
    ensures forall s: OrderStatus :: StatusName(s) in StatusColors && StatusColors[StatusName(s)] == ColorOf(s)
    ensures forall k :: k in StatusColors ==> exists s: OrderStatus :: StatusName(s) == k
  {
    forall k | k in StatusColors ensures exists s: OrderStatus :: StatusName(s) == k {
      if k == "delivered" { assert StatusName(Delivered) == k; }
      else if k == "cancelled" { assert StatusName(Cancelled) == k; }
      else if k == "shipped" { assert StatusName(Shipped) == k; }
      else if k == "pending" { assert StatusName(Pending) == k; }
      else { assert StatusName(Processing) == k; }
    }
  }

  /** The order's `items` field as received: an array, or some other value. */
  datatype ItemsField = ItemArray(items: seq<OrderItem>) | NotAnArray

  /** `Array.isArray(order.items) ? order.items : []`. */
  function ItemsSummary(f: ItemsField): (items: seq<OrderItem>)
    ensures f.NotAnArray? ==> items == []
    ensures f.ItemArray? ==> items == f.items
  {
    if f.ItemArray? then f.items else []
  }

  /** The summary block renders only when there is at least one item. */
  predicate ShowsSummary(f: ItemsField) {
    |ItemsSummary(f)| > 0
  }

  lemma ShowsSummaryIff(f: ItemsField)
    ensures ShowsSummary(f) <==> f.ItemArray? && |f.items| > 0
  {
  }

  /** An item's React key: its id, or `productId-quantity` when the id is empty. */
  function ItemKey(item: OrderItem): (key: string)
    ensures item.id != "" ==> key == item.id
    ensures item.id == "" ==> key == item.productId + "-" + IntToString(item.quantity)
  {
    if item.id != "" then item.id else item.productId + "-" + IntToString(item.quantity)
  }

  /** How many digits end the string. */
  function TrailingDigits(s: string): (n: nat)
    ensures n <= |s|
    decreases |s|
  {
    if |s| == 0 || !IsDigit(s[|s| - 1]) then 0 else 1 + TrailingDigits(s[..|s| - 1])
  }

  lemma {:induction false} TrailingDigitsAfterDash(prefix: string, digits: string)
    requires AllDigits(digits)
    ensures TrailingDigits(prefix + "-" + digits) == |digits|
    decreases |digits|
  {
    var s := prefix + "-" + digits;
    if |digits| == 0 {
      assert s[|s| - 1] == '-';
    } else {
      var shorter := digits[..|digits| - 1];
      assert s[..|s| - 1] == prefix + "-" + shorter;
      assert s[|s| - 1] == digits[|digits| - 1];
      TrailingDigitsAfterDash(prefix, shorter);
    }
  }

  /**
   * Fallback keys of items without an id tell items apart whenever their
   * product ids or (non-negative) quantities differ: the last `-` of the
   * key separates the two.
   */
  lemma FallbackKeyInjective(a: OrderItem, b: OrderItem)
    requires a.id == "" && b.id == "" && a.quantity >= 0 && b.quantity >= 0
    requires ItemKey(a) == ItemKey(b)
    ensures a.productId == b.productId && a.quantity == b.quantity
  {
    var da := IntToString(a.quantity);
    var db := IntToString(b.quantity);
    var key := ItemKey(a);
    TrailingDigitsAfterDash(a.productId, da);
    TrailingDigitsAfterDash(b.productId, db);
    assert |da| == |db|;
    assert da == key[|key| - |da|..];
    assert db == key[|key| - |db|..];
    assert a.productId == key[..|key| - |da| - 1];
    assert b.productId == key[..|key| - |db| - 1];
    IntToStringInjective(a.quantity, b.quantity);
  }
}
