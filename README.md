# Retail order core in Dafny

A model of the order core of a small retail application. Products with an
id, a name and a price are kept in two quantity ledgers (assortments): the
stock that is *available* and the items *selected* for purchase. A selection
service moves a chosen quantity of a product, named by the user, into the
selected ledger after checking it against stock. An order service computes
the order total, builds a timestamp order number, validates an order and
produces the text of the receipt together with the file it is written to.

Modules, one per source component:

- `Products` (`product.dfy`): the product record, its two constructors,
  `equals` and `toString`.
- `Assortments` (`assortment.dfy`): the class `Assortment` with the ledger
  as two fields, the iteration order `order` and the quantities `amounts`,
  and its methods `AddProduct`, `IsEmpty`, `RemoveProductByProductID`,
  `GetAssortment` and `ToString`.
- `SelectProduct` (`select_product.dfy`): `FillAssortmentWithSelectedProduct`.
- `Orders` (`order.dfy`): totals, `GetOrderPrice`, `OrderNumber`,
  `ValidateOrderNumber`, the receipt text and `CreateOrderCheck`.
- `Decimal`, `Strings`, `Seqs`, `Errors`: Java's number renderings
  (`Integer.toString`, `Double.toString`, `String.format("%.2f")`),
  `String.trim`, the digit filter, first-match search and string building,
  and the `Result`/`Outcome` values that stand for exceptions.
- `JavaInt` (`java_int.dfy`): 32-bit `int` addition, for the findings below.

Conventions: prices are integer cents; a Java `null` is `None` or a null
`Assortment?` reference; a thrown exception is an `Err`/`Fail` carrying
`IllegalArgument(message)` or `NullPointer`; a HashMap is its keys in
iteration order plus a map from key to quantity.

## Model

| member | source | states |
|---|---|---|
| `Products.NewProduct` | src/model/Product.java:34-41 | a negative id throws NullPointerException; then a null or empty name throws IllegalArgumentException; otherwise the product holds exactly the given id, name and price (so the getters return them) and any price is accepted |
| `Products.CopyProduct` | src/model/Product.java:17-23 | a null argument throws NullPointerException; otherwise the copy equals the original |
| `Products.Equals` | src/model/Product.java:116-122 | false for null; otherwise true exactly when id, price and name all match, which is equality of the records |
| `Products.ProductTextLayout` | src/model/Product.java:103-106 | the text is "productID: ", the id, "\nname: ", the name, "\nprice: ", the price and "\n", each field at its position; with `Decimal.IntTextValue` the id reads back |
| `Decimal.IntTextValue` | src/model/Product.java:104 | an int prints as its digits, after a '-' when negative, and those digits denote its magnitude |
| `Assortments.Assortment.constructor` | src/model/Assortment.java:12-14 | a new ledger is well-formed and has no entries |
| `Assortments.Assortment.AddProduct` | src/model/Assortment.java:27-37 | null product or negative amount is refused with the source's message and the ledger is unchanged; otherwise the product's quantity becomes its old quantity (0 if absent) plus the amount, a new product joins the iteration order, every other entry is unchanged and the ledger is no longer empty (even for amount 0) |
| `Assortments.AddTwice` | src/model/Assortment.java:31-36 | two additions of one product accumulate: its quantity grows by their sum |
| `Assortments.Assortment.IsEmpty` | src/model/Assortment.java:44-46 | true exactly when the ledger has no entries, whatever the quantities |
| `Assortments.Assortment.GetAssortment` | src/model/Assortment.java:73-75 | the ledger's own iteration order and quantities, as values: every key listed once in iteration order, every listed product has a non-negative quantity |
| `Assortments.Assortment.RemoveProductByProductID` | src/model/Assortment.java:82-91 | reports whether some entry has the id; exactly the first such entry in iteration order is removed and all others stay; with none the ledger is unchanged; never fails |
| `Assortments.RemoveAtWellFormed` | src/model/Assortment.java:85 | deleting one key leaves every key listed once with its quantity |
| `Assortments.Assortment.ToString` | src/model/Assortment.java:55-64 | the loop builds the header and then one block per entry, in iteration order |
| `Assortments.AssortmentTextStep` | src/model/Assortment.java:58-62 | each iteration appends the product text, "amount: ", the quantity and the 11-dash separator |
| `SelectProduct.FillAssortmentWithSelectedProduct` | src/controller/SelectProductController.java:49-78 | missing name or ledger, then amount < 1, fail first; the first available product with the name is used; stock below the amount, then stock below old selected (default 0) plus amount, fail with the stock in the message; otherwise the selected quantity is overwritten with that sum; any failure leaves "selected" unchanged, no other selected entry changes, "available" never changes, and "selected within stock" is preserved |
| `Seqs.FirstIndexWhere` | src/controller/SelectProductController.java:60-76 | the early-return scan finds the first matching index, or none when nothing matches |
| `Orders.TotalAppend` | src/controller/OrderController.java:29-31 | the sum over two runs of entries is the sum of their sums |
| `Orders.TotalOrderIndependent` | src/controller/OrderController.java:25-31 | the total does not depend on the iteration order: two orders listing the same entries give the same sum |
| `Orders.TotalRemoveAt` | src/controller/OrderController.java:29-31 | leaving one entry out of the loop takes exactly its price times quantity out of the total |
| `Orders.GetOrderPrice` | src/controller/OrderController.java:24-35 | a null assortment throws NullPointerException; otherwise the loop's result is the total formatted with two decimals and a comma |
| `Decimal.TwoDecimals` | src/controller/OrderController.java:32 | the formatted amount has at least four characters and a leading '-' exactly when negative |
| `Decimal.TwoDecimalsValue` | src/controller/OrderController.java:32 | a total prints as its whole part without leading zeros, a comma and exactly two digits, and reads back as the same number of cents |
| `Orders.EmptyOrderPrice` | src/controller/OrderController.java:27-32 | an empty assortment costs "0,00" |
| `Orders.ExampleTotal` | src/controller/OrderController.java:27-31 | 3 x 15.99 plus 2 x 45.00 is 137.97 in either iteration order |
| `Orders.ExampleOrderPrice` | src/controller/OrderController.java:32 | 137.97 prints as "137,97" |
| `Orders.ExampleOrderStem` | src/controller/OrderController.java:67-70 | the order number "20241127" is its own digit stem, so its receipt goes to checks/20241127.txt |
| `Orders.OrderNumberFields` | src/controller/OrderController.java:45-50 | the order number has 14 digits: year (4), month, day, hour, minute and second (2 each), each readable back |
| `Decimal.FixedDigits` | src/controller/OrderController.java:47 | a field is printed with exactly its width in digits and denotes its value |
| `Decimal.NatText` | src/controller/SelectProductController.java:66 | an int prints as its digits with no leading zero, denoting the number |
| `Orders.ValidateOrderNumber` | src/controller/OrderController.java:86-90 | a null order number, or one that is only characters up to U+0020, is refused; any other passes |
| `Strings.TrimEmptyIff` | src/controller/OrderController.java:87 | `trim()` leaves nothing exactly when every character is a space |
| `Strings.DigitsOnly` | src/controller/OrderController.java:67 | the stem is all digits and empty exactly when the order number has no digit |
| `Strings.DigitsOnlyAppend` | src/controller/OrderController.java:67 | the digit filter distributes over concatenation, so it keeps the digits in their order |
| `Strings.DigitsOnlyOfDigits` | src/controller/OrderController.java:67 | the digit filter leaves digits as they are |
| `Orders.CreateOrderCheck` | src/controller/OrderController.java:62-76 | in order: a blank order number, a null assortment (NullPointerException from the emptiness test), an empty assortment and an order number without digits are refused; otherwise the receipt goes to "checks/" + the digit stem + ".txt" and holds the receipt text |
| `Orders.ReceiptFrame` | src/controller/OrderController.java:103-113 | the receipt starts with the order number, "\n" and a blank line and ends with "Всього: ", the formatted total and "\n" |
| `Orders.ReceiptHasLine` | src/controller/OrderController.java:106-110 | every entry's name, "qty x price" line and 22-dash separator appear, after the lines of the entries before it |
| `Decimal.DoubleTextPlain` | src/controller/OrderController.java:109 | a price below 10^7 prints as its whole part, '.', and the shortest fraction ("45.0", "15.99") |
| `Decimal.FractionText` | src/model/Product.java:104-106 | the printed fraction has one digit when the second would be a trailing zero, and denotes the cents |
| `JavaInt.AddProductOverflows` | src/model/Assortment.java:32 | as written, adding past Integer.MAX_VALUE stores a negative quantity instead of the sum |
| `JavaInt.SelectionOverflowAccepted` | src/controller/SelectProductController.java:69-73 | as written, a cumulative selection past Integer.MAX_VALUE passes the stock check and stores a negative quantity |
| `JavaInt.OverflowExamples` | src/model/Assortment.java:32 | Integer.MAX_VALUE plus 1 gives Integer.MIN_VALUE in both places |

## Findings

| source | as written | input that shows it | evidently intended | confidence | as-written member | corrected member |
|---|---|---|---|---|---|---|
| src/model/Assortment.java:32 | `productList.get(product) + amount` is `int` addition and wraps | stored quantity 2147483647, `addProduct(p, 1)` stores -2147483648 | the quantity grows by the amount and is never negative | high (not executed) | `JavaInt.AddProductOverflows` | `Assortments.Assortment.AddProduct` |
| src/controller/SelectProductController.java:69-70 | `getOrDefault(product, 0) + amount` wraps before the comparison with the stock | stock 2147483647, already selected 2147483647, amount 1: accepted, selected becomes -2147483648 | the request is refused because the selection would exceed the stock | high (not executed) | `JavaInt.SelectionOverflowAccepted` | `SelectProduct.FillAssortmentWithSelectedProduct` |

The rest of the model adds quantities exactly, which is the corrected
behaviour: `AddProduct` proves the new quantity is the old one plus the
amount, and the selection proves the stored quantity never exceeds the stock.

Where the code and its tests disagree the model follows the code: the
expected total "147,97" in the price test is 137.97 for its data (as the
receipt test asserts), and a null assortment given to `createOrderCheck`
throws NullPointerException from the emptiness test (the null check after
it is unreachable), not IllegalArgumentException. The documentation of
`addProduct` promises NullPointerException for a null product in
`addProduct`; the code throws IllegalArgumentException, and so does the model.

## Left out

- Swing and table wiring: `TableController`, `GoodListController` and `fillComboBoxWithAssortment` only fill widgets or load from the database; the combo box is reduced to the chosen name.
- File I/O: the receipt is returned as a path and a text; opening, writing, closing the file and the caught IOException are not modelled, nor are the console messages (`RemoveProductByProductID` returns whether it removed something instead).
- The clock: `OrderNumber` takes the date and time fields as parameters, limited to years 1 to 9999 (the pattern prints a sign beyond); it does not check that the day exists in the month, which the clock guarantees.
- Floating point: prices are exact cents. The sum of doubles, its rounding in `%.2f`, and `Double.toString` of values that are not exact cents or above 2^53 cents are not modelled; the comma separator of the original locale is fixed.
- HashMap iteration order: it is determined by hash codes and may change on rehashing; the model keeps keys in insertion order, so "first match" in removal and selection and the order of receipt lines refer to that order. The total is proved independent of it.
- `writer.newLine()` is taken to write "\n".
- `hashCode` and the setters `setId`, `setName`, `setPrice`: not used by the core flows (mutating a key would break the map).
- Java's 32-bit `int` for ids, quantities and amounts: only the two additions above are modelled with wrap-around; elsewhere integers are unbounded.
- Direct mutation of the map returned by `getAssortment` by other callers is not modelled beyond the `put` the selection performs (`Assortments.Assortment.Put`).
