/** Java's 32-bit `int` arithmetic at the two places where the core adds
    quantities: `addProduct` and the cumulative selection check. The rest of
    the model adds quantities exactly; the members here show what the code
    as written does once a sum passes Integer.MAX_VALUE. */
module JavaInt {
  import opened Errors

  const IntMin: int := -0x8000_0000
  const IntMax: int := 0x7fff_ffff

  predicate IsInt(x: int) { IntMin <= x <= IntMax }

  /** The value of a Java `int` expression whose exact value is `x`: `x`
      wrapped into the 32-bit range modulo 2^32. */
  function Wrap(x: int): (r: int)
    ensures IsInt(r)
    ensures IsInt(x) ==> r == x
    ensures IntMax < x <= 2 * IntMax + 1 ==> r == x - 0x1_0000_0000
  {
    (x - IntMin) % 0x1_0000_0000 + IntMin
  }

  /** The quantity `addProduct` stores for a product already present:
      `productList.get(product) + amount`, evaluated in `int`. */
  function AddedQuantityAsWritten(stored: int, amount: int): int
    requires IsInt(stored) && IsInt(amount)
  {
    Wrap(stored + amount)
  }

  /** Adding to a large enough quantity stores a negative one instead of the sum. */
  lemma AddProductOverflows(stored: int, amount: int)
    requires IsInt(stored) && IsInt(amount) && stored >= 0 && amount >= 0
    requires stored + amount > IntMax
    ensures AddedQuantityAsWritten(stored, amount) < 0
    ensures AddedQuantityAsWritten(stored, amount) != stored + amount
  {
    assert stored + amount <= 2 * IntMax;
  }

  /** What `fillAssortmentWithSelectedProduct` does as written once it has
      found the product: None when it throws, otherwise the quantity it puts
      into "selected" (`getOrDefault(product, 0) + amount` in `int`). */
  function SelectedQuantityAsWritten(stock: int, selectedBefore: int, amount: int): Option<int>
    requires IsInt(stock) && IsInt(selectedBefore) && IsInt(amount)
  {
    if stock < amount then None
    else
      var current := Wrap(selectedBefore + amount);
      if stock < current then None else Some(current)
  }

  /** When the cumulative selection passes Integer.MAX_VALUE, the request
      that exceeds the stock is accepted and a negative quantity is stored. */
  lemma SelectionOverflowAccepted(stock: int, selectedBefore: int, amount: int)
    requires IsInt(stock) && IsInt(selectedBefore) && IsInt(amount)
    requires 1 <= amount <= stock && selectedBefore >= 0
    requires selectedBefore + amount > IntMax
    ensures selectedBefore + amount > stock
    ensures SelectedQuantityAsWritten(stock, selectedBefore, amount).Some?
    ensures SelectedQuantityAsWritten(stock, selectedBefore, amount).value < 0
  {
    assert selectedBefore + amount <= 2 * IntMax;
  }

  /** The smallest instances: Integer.MAX_VALUE plus one. */
  lemma OverflowExamples()
    ensures AddedQuantityAsWritten(IntMax, 1) == IntMin
    ensures SelectedQuantityAsWritten(IntMax, IntMax, 1) == Some(IntMin)
  {
    AddProductOverflows(IntMax, 1);
    SelectionOverflowAccepted(IntMax, IntMax, 1);
  }
}
