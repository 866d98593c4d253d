/**
 * One product row of the picker: the callbacks its controls fire and when
 * the quantity steppers are enabled; and the order page's handlers that
 * receive those callbacks and keep the selection.
 */
module ProductRowView {
  import opened CreateOrderDialog

  /** The two callbacks a row can fire. */
  datatype Callback = ToggleProduct(productId: string, checked: bool) | QuantityChange(productId: string, delta: int)

  /** The checkbox forwards this row's product id and the new checked state. */
  function OnToggle(productId: string, eventChecked: bool): (c: Callback)
    ensures c.ToggleProduct? && c.productId == productId && c.checked == eventChecked
  {
    ToggleProduct(productId, eventChecked)
  }

  function OnDecrease(productId: string): (c: Callback)
    ensures c.QuantityChange? && c.productId == productId && c.delta == -1
  {
    QuantityChange(productId, -1)
  }

  function OnIncrease(productId: string): (c: Callback)
    ensures c.QuantityChange? && c.productId == productId && c.delta == 1
  {
    QuantityChange(productId, 1)
  }

  /** `disabled={!isChecked || quantity <= 1}`, negated. */
  function DecreaseEnabled(isChecked: bool, quantity: int): (enabled: bool)
    ensures enabled <==> isChecked && quantity >= 2
  {
    !(!isChecked || quantity <= 1)
  }

  /** `disabled={!isChecked}`, negated. */
  function IncreaseEnabled(isChecked: bool): (enabled: bool)
    ensures enabled <==> isChecked
  {
    !(!isChecked)
  }

  // ------------------------------------------------ the order page's handlers

  /** Checking keeps an existing quantity or starts at 1; unchecking removes the entry. */
  function Toggle(sel: Selection, productId: string, checked: bool): (r: Selection)
    ensures checked ==> productId in r && r[productId] == (if productId in sel then sel[productId] else 1)
    ensures !checked ==> productId !in r
    ensures forall id :: id != productId ==> (id in r <==> id in sel) && (id in r ==> r[id] == sel[id])
  {
    if checked then sel[productId := if productId in sel then sel[productId] else 1]
    else sel - {productId}
  }

  /** A quantity step on a selected product, floored at 1; unselected products are ignored. */
  function ChangeQuantity(sel: Selection, productId: string, delta: int): (r: Selection)
    ensures productId !in sel ==> r == sel
    ensures productId in sel ==> r == sel[productId := if sel[productId] + delta < 1 then 1 else sel[productId] + delta]
  {
    if productId !in sel then sel
    else
      var next := sel[productId] + delta;
      sel[productId := if next < 1 then 1 else next]
  }

  function Handle(sel: Selection, c: Callback): Selection {
    match c
    case ToggleProduct(id, checked) => Toggle(sel, id, checked)
    case QuantityChange(id, delta) => ChangeQuantity(sel, id, delta)
  }

  predicate QuantitiesPositive(sel: Selection) {
    forall id :: id in sel ==> sel[id] >= 1
  }

  /** Every handler keeps every selected quantity at 1 or more. */
  lemma HandlePreservesPositive(sel: Selection, c: Callback)
    requires QuantitiesPositive(sel)
    ensures QuantitiesPositive(Handle(sel, c))
  {
  }

  function HandleAll(sel: Selection, cs: seq<Callback>): Selection
    decreases |cs|
  {
    if |cs| == 0 then sel else HandleAll(Handle(sel, cs[0]), cs[1..])
  }

  /** From an empty selection, any sequence of clicks leaves only quantities of 1 or more. */
  lemma {:induction false} HandleAllPositive(sel: Selection, cs: seq<Callback>)
    requires QuantitiesPositive(sel)
    ensures QuantitiesPositive(HandleAll(sel, cs))
    decreases |cs|
  {
    if |cs| > 0 {
      HandlePreservesPositive(sel, cs[0]);
      HandleAllPositive(Handle(sel, cs[0]), cs[1..]);
    }
  }

  /**
   * A click on an enabled stepper of a row is never clamped: it changes the
   * row's quantity by exactly one, and the row stays checked.
   */
  lemma EnabledStepIsExact(sel: Selection, p: Types.Product)
    requires QuantitiesPositive(sel)
    ensures var row := RowFor(sel, p);
            && (DecreaseEnabled(row.isChecked, row.quantity) ==>
                  Handle(sel, OnDecrease(p.id)) == sel[p.id := row.quantity - 1])
            && (IncreaseEnabled(row.isChecked) ==>
                  Handle(sel, OnIncrease(p.id)) == sel[p.id := row.quantity + 1])
  {
  }

  /** With positive quantities, the decrease stepper of a checked row is disabled exactly at 1. */
  lemma DecreaseDisabledOnlyAtOne(sel: Selection, p: Types.Product)
    requires QuantitiesPositive(sel) && p.id in sel
    ensures !DecreaseEnabled(RowFor(sel, p).isChecked, RowFor(sel, p).quantity) <==> sel[p.id] == 1
  {
  }

  /** Toggling a row on shows it checked; toggling it off shows it unchecked with quantity 1. */
  lemma ToggleShows(sel: Selection, p: Types.Product, checked: bool)
    ensures RowFor(Handle(sel, OnToggle(p.id, checked)), p).isChecked == checked
    ensures !checked ==> RowFor(Handle(sel, OnToggle(p.id, checked)), p).quantity == 1
  {
  }
}
