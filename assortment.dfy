/** The quantity ledger: a hash map from products to quantities. */
module Assortments {
  import opened Errors
  import opened Decimal
  import opened Seqs
  import opened Products

  /** No product occurs twice in an iteration order. */
  ghost predicate Distinct(order: seq<Product>)
  {
    forall i, j :: 0 <= i < j < |order| ==> order[i] != order[j]
  }

  /** A map's contents: `order` lists its keys once each, in iteration order,
      and `amounts` gives each key its quantity. */
  ghost predicate WellFormed(order: seq<Product>, amounts: map<Product, nat>)
  {
    Distinct(order) && forall p :: p in amounts <==> p in order
  }

  /** `map.getOrDefault(p, 0)`. */
  function Amount(amounts: map<Product, nat>, p: Product): nat
  {
    if p in amounts then amounts[p] else 0
  }

  /** Matches the products whose id is `id`. */
  function HasId(id: int): Product -> bool
  {
    (p: Product) => p.id == id
  }

  /** The block `toString` prints for one entry. */
  function EntryBlock(amounts: map<Product, nat>, p: Product): string
  {
    ProductText(p) + "amount: " + NatText(Amount(amounts, p)) + "\n-----------\n"
  }

  function EntryText(amounts: map<Product, nat>): Product -> string
  {
    (p: Product) => EntryBlock(amounts, p)
  }

  /** What `toString` returns for a ledger. */
  function AssortmentText(order: seq<Product>, amounts: map<Product, nat>): string
  {
    "Assortment:\n" + Concat(order, EntryText(amounts))
  }

  /** One more loop iteration of `toString` appends one more entry block. */
  lemma AssortmentTextStep(order: seq<Product>, amounts: map<Product, nat>, i: nat)
    requires i < |order|
    ensures "Assortment:\n" + Concat(order[..i + 1], EntryText(amounts))
         == "Assortment:\n" + Concat(order[..i], EntryText(amounts)) + EntryBlock(amounts, order[i])
  {
    ConcatStep(order, i, EntryText(amounts));
  }

  /** Removing one key of a well-formed ledger keeps it well-formed. */
  lemma RemoveAtWellFormed(order: seq<Product>, amounts: map<Product, nat>, i: nat)
    requires WellFormed(order, amounts) && i < |order|
    ensures WellFormed(order[..i] + order[i + 1..], amounts - {order[i]})
  {
    var rest := order[..i] + order[i + 1..];
    forall k | 0 <= k < |rest|
      ensures rest[k] == order[if k < i then k else k + 1]
    {
    }
    forall p
      ensures p in amounts - {order[i]} <==> p in rest
    {
      if p in rest {
        var k :| 0 <= k < |rest| && rest[k] == p;
      }
      if p in order && p != order[i] {
        var k :| 0 <= k < |order| && order[k] == p;
        assert k != i;
        assert rest[if k < i then k else k - 1] == p;
      }
    }
  }

  class Assortment {
    /** The keys of the map in its iteration order. */
    var order: seq<Product>
    /** The quantity of each key; never negative. */
    var amounts: map<Product, nat>

    ghost predicate Valid()
      reads this
    {
      WellFormed(order, amounts)
    }

    /** A new assortment has no entries. */
    constructor ()
      ensures Valid() && order == [] && amounts == map[]
    {
      order := [];
      amounts := map[];
    }

    /** `getAssortment()`: the live map, a well-formed ledger. */
    function GetAssortment(): (r: (seq<Product>, map<Product, nat>))
      reads this
      requires Valid()
      ensures r.0 == order && r.1 == amounts
      ensures WellFormed(r.0, r.1)
      ensures forall p :: p in r.1 <==> p in order
    {
      (order, amounts)
    }

    /** `isEmpty()`: true exactly when the map has no entries; an entry of
        quantity 0 is still an entry. */
    function IsEmpty(): (r: bool)
      reads this
      requires Valid()
      ensures r <==> order == []
      ensures r <==> forall p :: p !in amounts
    {
      assert order != [] ==> order[0] in amounts;
      |amounts| == 0
    }

    /** `put(p, q)` on the live map: overwrites the quantity of a present
        key in place; a new key joins the iteration order. */
    method Put(p: Product, q: nat)
      requires Valid()
      modifies this
      ensures Valid()
      ensures amounts == old(amounts)[p := q]
      ensures order == if p in old(amounts) then old(order) else old(order) + [p]
    {
      if p !in amounts {
        order := order + [p];
      }
      amounts := amounts[p := q];
    }

    /** `addProduct(product, amount)`: a null product or a negative amount is
        refused and nothing changes; otherwise the amount is added to the
        product's quantity (0 if it had none), and every other entry is left
        as it was. */
    method AddProduct(product: Option<Product>, amount: int) returns (outcome: Outcome)
      requires Valid()
      modifies this
      ensures Valid()
      ensures outcome.Pass? <==> product.Some? && amount >= 0
      ensures product.None? ==> outcome == Fail(IllegalArgument("Product is null"))
      ensures product.Some? && amount < 0 ==> outcome == Fail(IllegalArgument("Amount cannot be negative"))
      ensures outcome.Fail? ==> order == old(order) && amounts == old(amounts)
      ensures outcome.Pass? ==>
        var p := product.value;
        && amounts == old(amounts)[p := Amount(old(amounts), p) + amount]
        && order == (if p in old(amounts) then old(order) else old(order) + [p])
        && !IsEmpty()
    {
      if product.None? {
        return Fail(IllegalArgument("Product is null"));
      }
      if amount < 0 {
        return Fail(IllegalArgument("Amount cannot be negative"));
      }
      var p := product.value;
      if p in amounts {
        Put(p, amounts[p] + amount);
        return Pass;
      }
      Put(p, amount);
      return Pass;
    }

    /** `removeProductByProductID(id)`: the first entry, in iteration order,
        whose product has that id is removed and `true` reported; with no
        such entry nothing changes and `false` is reported. Never fails. */
    method RemoveProductByProductID(productId: int) returns (removed: bool)
      requires Valid()
      modifies this
      ensures Valid()
      ensures removed <==> exists j :: 0 <= j < |old(order)| && old(order)[j].id == productId
      ensures match FirstIndexWhere(old(order), HasId(productId))
        case None => order == old(order) && amounts == old(amounts)
        case Some(i) =>
          && order == old(order)[..i] + old(order)[i + 1..]
          && amounts == old(amounts) - {old(order)[i]}
    {
      var i := 0;
      while i < |order|
        invariant 0 <= i <= |order|
        invariant forall j :: 0 <= j < i ==> !HasId(productId)(order[j])
      {
        if order[i].id == productId {
          FirstIndexWhereIs(order, HasId(productId), i);
          RemoveAtWellFormed(order, amounts, i);
          amounts := amounts - {order[i]};
          order := order[..i] + order[i + 1..];
          return true;
        }
        i := i + 1;
      }
      return false;
    }

    /** `toString()`: a header, then one block per entry in iteration order. */
    method ToString() returns (s: string)
      ensures s == AssortmentText(order, amounts)
    {
      s := "Assortment:\n";
      var i := 0;
      while i < |order|
        invariant 0 <= i <= |order|
        invariant s == "Assortment:\n" + Concat(order[..i], EntryText(amounts))
      {
        AssortmentTextStep(order, amounts, i);
        s := s + EntryBlock(amounts, order[i]);
        i := i + 1;
      }
      assert order[..i] == order;
    }
  }

  /** Accumulation: adding `a` and then `b` of one product leaves it with
      `a + b` more than it had, and nothing else changes. */
  method AddTwice(ledger: Assortment, p: Product, a: nat, b: nat)
    requires ledger.Valid()
    modifies ledger
    ensures ledger.Valid()
    ensures ledger.amounts == old(ledger.amounts)[p := Amount(old(ledger.amounts), p) + a + b]
  {
    var first := ledger.AddProduct(Some(p), a);
    var second := ledger.AddProduct(Some(p), b);
  }
}
