/** The order service: totals, order numbers and receipts. */
module Orders {
  import opened Errors
  import opened Decimal
  import opened Strings
  import opened Seqs
  import opened Products
  import opened Assortments

  // ---------------------------------------------------------------- totals

  /** The cost of one entry: price times quantity, in cents. */
  function LineTotal(amounts: map<Product, nat>, p: Product): int
  {
    p.price * Amount(amounts, p)
  }

  /** The sum of the entries' costs, taken in the given order. */
  function Total(order: seq<Product>, amounts: map<Product, nat>): int
  {
    if order == [] then 0 else LineTotal(amounts, order[0]) + Total(order[1..], amounts)
  }

  lemma {:induction false} TotalAppend(a: seq<Product>, b: seq<Product>, amounts: map<Product, nat>)
    ensures Total(a + b, amounts) == Total(a, amounts) + Total(b, amounts)
  {
    if a == [] {
      assert a + b == b;
    } else {
      assert (a + b)[0] == a[0];
      assert (a + b)[1..] == a[1..] + b;
      TotalAppend(a[1..], b, amounts);
    }
  }

  /** One more loop iteration adds one more entry's cost. */
  lemma TotalStep(order: seq<Product>, amounts: map<Product, nat>, i: nat)
    requires i < |order|
    ensures Total(order[..i + 1], amounts) == Total(order[..i], amounts) + LineTotal(amounts, order[i])
  {
    assert order[..i + 1] == order[..i] + [order[i]];
    TotalAppend(order[..i], [order[i]], amounts);
  }

  /** Taking one entry out of the order takes its cost out of the total. */
  lemma TotalRemoveAt(b: seq<Product>, amounts: map<Product, nat>, k: nat)
    requires k < |b|
    ensures Total(b, amounts) == LineTotal(amounts, b[k]) + Total(b[..k] + b[k + 1..], amounts)
  {
    assert b == b[..k] + [b[k]] + b[k + 1..];
    TotalAppend(b[..k] + [b[k]], b[k + 1..], amounts);
    TotalAppend(b[..k], [b[k]], amounts);
    TotalAppend(b[..k], b[k + 1..], amounts);
  }

  /** Matching the head of `a` with an occurrence in `b` leaves equal rests. */
  lemma MultisetRemoveAt(a: seq<Product>, b: seq<Product>, k: nat)
    requires a != [] && multiset(a) == multiset(b)
    requires k < |b| && b[k] == a[0]
    ensures multiset(a[1..]) == multiset(b[..k] + b[k + 1..])
  {
    var x, rest := a[0], b[..k] + b[k + 1..];
    assert b == b[..k] + [x] + b[k + 1..];
    assert a == [x] + a[1..];
    assert multiset(b) == multiset(b[..k]) + multiset{x} + multiset(b[k + 1..]);
    assert multiset(rest) == multiset(b[..k]) + multiset(b[k + 1..]);
    assert multiset(a) == multiset{x} + multiset(a[1..]);
    forall y ensures multiset(a[1..])[y] == multiset(rest)[y] {
      assert multiset(a)[y] == multiset{x}[y] + multiset(a[1..])[y];
    }
  }

  /** The total does not depend on the map's iteration order: any two orders
      listing the same entries give the same sum. */
  lemma {:induction false} TotalOrderIndependent(a: seq<Product>, b: seq<Product>, amounts: map<Product, nat>)
    requires multiset(a) == multiset(b)
    ensures Total(a, amounts) == Total(b, amounts)
    decreases |a|
  {
    if a == [] {
      assert |multiset(b)| == 0;
    } else {
      assert a[0] in multiset(b);
      var k :| 0 <= k < |b| && b[k] == a[0];
      MultisetRemoveAt(a, b, k);
      TotalOrderIndependent(a[1..], b[..k] + b[k + 1..], amounts);
      TotalRemoveAt(b, amounts, k);
    }
  }

  /** `getOrderPrice`: the sum of price times quantity over the entries,
      formatted with two decimals and a comma; a null assortment throws
      NullPointerException. */
  method GetOrderPrice(selected: Assortment?) returns (r: Result<string>)
    requires selected != null ==> selected.Valid()
    ensures selected == null ==> r == Err(NullPointer)
    ensures selected != null ==> r == Ok(TwoDecimals(Total(selected.order, selected.amounts)))
  {
    if selected == null {
      return Err(NullPointer);
    }
    var products := selected.order;
    var totalPrice := 0;
    for i := 0 to |products|
      invariant totalPrice == Total(products[..i], selected.amounts)
    {
      TotalStep(products, selected.amounts, i);
      totalPrice := totalPrice + products[i].price * selected.amounts[products[i]];
    }
    assert products[..|products|] == products;
    return Ok(TwoDecimals(totalPrice));
  }

  // ---------------------------------------------------------- order number

  /** `getOrderNumber` for the moment (year, month, day, hour, minute,
      second): the pattern yyyyMMddHHmmss, each field zero-padded. */
  function OrderNumber(year: nat, month: nat, day: nat, hour: nat, minute: nat, second: nat): string
    requires 1 <= year <= 9999 && 1 <= month <= 12 && 1 <= day <= 31
    requires hour < 24 && minute < 60 && second < 60
  {
    assert Pow10(2) == 100 && Pow10(4) == 10000;
    FixedDigits(year, 4) + FixedDigits(month, 2) + FixedDigits(day, 2)
      + FixedDigits(hour, 2) + FixedDigits(minute, 2) + FixedDigits(second, 2)
  }

  /** The order number is 14 digits from which every field reads back. */
  lemma OrderNumberFields(year: nat, month: nat, day: nat, hour: nat, minute: nat, second: nat)
    requires 1 <= year <= 9999 && 1 <= month <= 12 && 1 <= day <= 31
    requires hour < 24 && minute < 60 && second < 60
    ensures var r := OrderNumber(year, month, day, hour, minute, second);
      && |r| == 14 && AllDigits(r)
      && ParseNat(r[..4]) == year && ParseNat(r[4..6]) == month && ParseNat(r[6..8]) == day
      && ParseNat(r[8..10]) == hour && ParseNat(r[10..12]) == minute && ParseNat(r[12..]) == second
  {
    assert Pow10(2) == 100 && Pow10(4) == 10000;
    var y, mo, d := FixedDigits(year, 4), FixedDigits(month, 2), FixedDigits(day, 2);
    var h, mi, s := FixedDigits(hour, 2), FixedDigits(minute, 2), FixedDigits(second, 2);
    var r := y + mo + d + h + mi + s;
    assert r == OrderNumber(year, month, day, hour, minute, second);
    assert r[..4] == y;
    assert r[4..6] == mo;
    assert r[6..8] == d;
    assert r[8..10] == h;
    assert r[10..12] == mi;
    assert r[12..] == s;
  }

  // -------------------------------------------------------------- receipts

  const BlankOrderNumber := IllegalArgument("Order number cannot be null or empty")
  const EmptySelection := IllegalArgument("Selected assortment is empty")
  const NoDigits := IllegalArgument("Order number contains no digits")

  /** `validateOrderNumber`: null, or nothing but spaces, is refused. */
  function ValidateOrderNumber(orderNumber: Option<string>): (r: Outcome)
    ensures r == Pass <==>
      orderNumber.Some? && exists i :: 0 <= i < |orderNumber.value| && !IsSpace(orderNumber.value[i])
    ensures r != Pass ==> r == Fail(BlankOrderNumber)
  {
    match orderNumber
    case None => Fail(BlankOrderNumber)
    case Some(s) =>
      TrimEmptyIff(s);
      if Trim(s) == [] then Fail(BlankOrderNumber) else Pass
  }

  const Separator := "\n----------------------\n"
  const TotalLabel := "Всього: "

  /** The three lines written for one entry: name, "qty x price", dashes. */
  function ReceiptLine(amounts: map<Product, nat>, p: Product): string
  {
    p.name + "\n" + NatText(Amount(amounts, p)) + " x " + DoubleText(p.price) + Separator
  }

  function ReceiptLines(amounts: map<Product, nat>): Product -> string
  {
    (p: Product) => ReceiptLine(amounts, p)
  }

  /** The last line: the label and the formatted total. */
  function TotalLine(order: seq<Product>, amounts: map<Product, nat>): string
  {
    TotalLabel + TwoDecimals(Total(order, amounts)) + "\n"
  }

  /** What `writeOrderDetails` writes: the order number and a blank line,
      the lines of every entry in iteration order, then the total. */
  function ReceiptText(orderNumber: string, order: seq<Product>, amounts: map<Product, nat>): string
  {
    orderNumber + "\n" + "\n" + Concat(order, ReceiptLines(amounts)) + TotalLine(order, amounts)
  }

  /** The receipt opens with the order number and a blank line and closes
      with the total line. */
  lemma ReceiptFrame(orderNumber: string, order: seq<Product>, amounts: map<Product, nat>)
    ensures var r, t := ReceiptText(orderNumber, order, amounts), TotalLine(order, amounts);
      && |r| >= |orderNumber| + 2 + |t|
      && r[..|orderNumber| + 2] == orderNumber + "\n\n"
      && r[|r| - |t|..] == t
  {
    var head := orderNumber + "\n" + "\n";
    var body := Concat(order, ReceiptLines(amounts));
    var t := TotalLine(order, amounts);
    var r := head + body + t;
    assert r == ReceiptText(orderNumber, order, amounts);
    assert r[..|head|] == head;
    assert r[|r| - |t|..] == t;
  }

  /** The lines of every entry appear in the receipt, after the header and
      the lines of the entries before it. */
  lemma ReceiptHasLine(orderNumber: string, order: seq<Product>, amounts: map<Product, nat>, i: nat)
    requires i < |order|
    ensures var r, line := ReceiptText(orderNumber, order, amounts), ReceiptLine(amounts, order[i]);
      var k := |orderNumber| + 2 + |Concat(order[..i], ReceiptLines(amounts))|;
      && k + |line| <= |r|
      && r[k..k + |line|] == line
  {
    var head, f := orderNumber + "\n" + "\n", ReceiptLines(amounts);
    ConcatEmbedded(head, order, TotalLine(order, amounts), f, i);
    assert |head| == |orderNumber| + 2;
    assert f(order[i]) == ReceiptLine(amounts, order[i]);
    assert ReceiptText(orderNumber, order, amounts) == head + Concat(order, f) + TotalLine(order, amounts);
  }

  /** The file a receipt goes to and what it holds. */
  datatype ReceiptFile = ReceiptFile(path: string, content: string)

  /** `createOrderCheck`: validates the order number, then the assortment
      (a null one throws when its emptiness is asked), then that the order
      number has digits; the receipt goes to checks/<digits>.txt. */
  function CreateOrderCheck(selected: Assortment?, orderNumber: Option<string>): (r: Result<ReceiptFile>)
    reads selected
    requires selected != null ==> selected.Valid()
    ensures ValidateOrderNumber(orderNumber) != Pass ==> r == Err(BlankOrderNumber)
    ensures ValidateOrderNumber(orderNumber) == Pass && selected == null ==> r == Err(NullPointer)
    ensures ValidateOrderNumber(orderNumber) == Pass && selected != null && selected.order == [] ==>
      r == Err(EmptySelection)
    ensures ValidateOrderNumber(orderNumber) == Pass && selected != null && selected.order != []
      && (forall i :: 0 <= i < |orderNumber.value| ==> !IsDigit(orderNumber.value[i]))
      ==> r == Err(NoDigits)
    ensures r.Ok? <==>
      && orderNumber.Some?
      && (exists i :: 0 <= i < |orderNumber.value| && !IsSpace(orderNumber.value[i]))
      && selected != null && selected.order != []
      && (exists i :: 0 <= i < |orderNumber.value| && IsDigit(orderNumber.value[i]))
    ensures r.Ok? ==>
      var stem := DigitsOnly(orderNumber.value);
      && |stem| >= 1 && AllDigits(stem)
      && r.value.path == "checks/" + stem + ".txt"
      && r.value.content == ReceiptText(orderNumber.value, selected.order, selected.amounts)
  {
    if ValidateOrderNumber(orderNumber) != Pass then Err(BlankOrderNumber)
    else if selected == null then Err(NullPointer)
    else if selected.IsEmpty() then Err(EmptySelection)
    else
      var numberOnly := DigitsOnly(orderNumber.value);
      if numberOnly == [] then Err(NoDigits)
      else Ok(ReceiptFile("checks/" + numberOnly + ".txt", ReceiptText(orderNumber.value, selected.order, selected.amounts)))
  }

  // -------------------------------------------------------------- examples

  /** An empty assortment costs "0,00". */
  lemma EmptyOrderPrice(amounts: map<Product, nat>)
    ensures TwoDecimals(Total([], amounts)) == "0,00"
  {
    assert NatText(0) == "0";
    assert FixedDigits(0, 2) == "00";
  }

  /** Three T-shirts at 15.99 and two pairs of jeans at 45.00 come to 137.97,
      in either iteration order. */
  lemma ExampleTotal()
    ensures var t, j := Product(1, "T-shirt", 1599), Product(2, "Jeans", 4500);
      var amounts := map[t := 3, j := 2];
      Total([t, j], amounts) == 13797 && Total([j, t], amounts) == 13797
  {
    var t, j := Product(1, "T-shirt", 1599), Product(2, "Jeans", 4500);
    var amounts := map[t := 3, j := 2];
    assert [t, j][1..] == [j];
    assert [j][1..] == [];
    assert LineTotal(amounts, t) == 4797;
    assert LineTotal(amounts, j) == 9000;
    assert Total([j], amounts) == 9000 + Total([], amounts);
    TotalOrderIndependent([t, j], [j, t], amounts);
  }

  /** ... which prints as "137,97". */
  lemma ExampleOrderPrice()
    ensures TwoDecimals(13797) == "137,97"
  {
    assert NatText(1) == "1";
    assert NatText(13) == NatText(1) + "3";
    assert NatText(137) == NatText(13) + "7";
    assert Pow10(2) == 100;
    assert FixedDigits(9, 1) == FixedDigits(0, 0) + "9";
    assert FixedDigits(97, 2) == FixedDigits(9, 1) + "7";
    assert TwoDecimals(13797) == NatText(137) + "," + FixedDigits(97, 2);
  }

  /** The receipt for order number 20241127 goes to checks/20241127.txt. */
  lemma ExampleOrderStem()
    ensures DigitsOnly("20241127") == "20241127"
  {
    DigitsOnlyOfDigits("20241127");
  }
}
