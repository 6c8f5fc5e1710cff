/** Moving a chosen quantity of a product from the "available" ledger into
    the "selected" one, checked against stock. */
module SelectProduct {
  import opened Errors
  import opened Decimal
  import opened Seqs
  import opened Products
  import opened Assortments

  /** Matches the products called `name`. */
  function HasName(name: string): Product -> bool
  {
    (p: Product) => p.name == name
  }

  const InvalidInput := IllegalArgument("Invalid input")
  const InvalidAmount := IllegalArgument("Некоректна кіл-сть")
  const NothingChosen := IllegalArgument("Ви не обрали товар")

  function InsufficientStock(stock: nat): Failure
  {
    IllegalArgument("Кількість товару у доступі: " + NatText(stock))
  }

  function SelectionExceedsStock(stock: nat): Failure
  {
    IllegalArgument("Загальна кількість товару у кошику більше доступної (" + NatText(stock) + ")")
  }

  /** Every selected product is in stock in at least the selected quantity. */
  ghost predicate WithinStock(selected: map<Product, nat>, available: map<Product, nat>)
  {
    forall p :: p in selected ==> p in available && selected[p] <= available[p]
  }

  /** `fillAssortmentWithSelectedProduct`, with the combo box reduced to the
      name it shows as chosen (None when nothing is chosen or there is no
      combo box). The first available product of that name is looked up; the
      request must fit its stock, and so must the cumulative selection, which
      then overwrites the selected quantity. "available" is only read. */
  method FillAssortmentWithSelectedProduct(
    chosen: Option<string>, amount: int, available: Assortment?, selected: Assortment?)
    returns (r: Result<Assortment>)
    requires available != null ==> available.Valid()
    requires selected != null ==> selected.Valid()
    modifies selected
    ensures selected != null ==> selected.Valid()
    ensures available != null ==>
      available.order == old(available.order) && available.amounts == old(available.amounts)
    ensures chosen.None? || available == null || selected == null ==> r == Err(InvalidInput)
    ensures chosen.Some? && available != null && selected != null && amount < 1 ==> r == Err(InvalidAmount)
    ensures r.Err? && selected != null ==>
      selected.order == old(selected.order) && selected.amounts == old(selected.amounts)
    ensures chosen.Some? && available != null && selected != null && amount >= 1 ==>
      match FirstIndexWhere(old(available.order), HasName(chosen.value))
      case None => r == Err(NothingChosen)
      case Some(i) =>
        var p := old(available.order)[i];
        var stock := old(available.amounts)[p];
        var total := Amount(old(selected.amounts), p) + amount;
        if stock < amount then r == Err(InsufficientStock(stock))
        else if stock < total then r == Err(SelectionExceedsStock(stock))
        else
          && r == Ok(selected)
          && selected.amounts == old(selected.amounts)[p := total]
          && selected.order == (if p in old(selected.amounts) then old(selected.order) else old(selected.order) + [p])
    ensures r.Ok? ==> selected != null && r.value == selected
    ensures available != null && selected != null && WithinStock(old(selected.amounts), old(available.amounts)) ==>
      WithinStock(selected.amounts, available.amounts)
  {
    if chosen.None? || available == null || selected == null {
      return Err(InvalidInput);
    }
    if amount < 1 {
      return Err(InvalidAmount);
    }
    var name := chosen.value;
    var i := 0;
    while i < |available.order|
      invariant 0 <= i <= |available.order|
      invariant forall j :: 0 <= j < i ==> !HasName(name)(available.order[j])
    {
      var product := available.order[i];
      var availableAmount := available.amounts[product];
      if product.name == name {
        FirstIndexWhereIs(available.order, HasName(name), i);
        if availableAmount < amount {
          return Err(InsufficientStock(availableAmount));
        }
        var currentSelectedAmount := Amount(selected.amounts, product) + amount;
        if availableAmount < currentSelectedAmount {
          return Err(SelectionExceedsStock(availableAmount));
        }
        selected.Put(product, currentSelectedAmount);
        return Ok(selected);
      }
      i := i + 1;
    }
    return Err(NothingChosen);
  }
}
