/** The product record: identity, name and price (in cents). */
module Products {
  import opened Errors
  import opened Decimal

  /** A product as the constructors leave it; the getters are the fields.
      `price` is in cents; ids and prices are not bounded to Java's widths. */
  datatype Product = Product(id: int, name: string, price: int)

  /** What the validating constructor guarantees. Prices are not checked. */
  predicate Valid(p: Product)
  {
    p.id >= 0 && |p.name| > 0
  }

  /** `new Product(id, name, price)`: a negative id throws
      NullPointerException, a null or empty name IllegalArgumentException. */
  function NewProduct(id: int, name: Option<string>, price: int): (r: Result<Product>)
    ensures r.Ok? <==> id >= 0 && name.Some? && name.value != ""
    ensures id < 0 ==> r == Err(NullPointer)
    ensures id >= 0 && (name.None? || name.value == "") ==>
      r == Err(IllegalArgument("Product name cannot be null or empty"))
    ensures r.Ok? ==> Valid(r.value)
    ensures r.Ok? ==> r.value.id == id && r.value.name == name.value && r.value.price == price
  {
    if id < 0 then Err(NullPointer)
    else if name.None? || name.value == "" then Err(IllegalArgument("Product name cannot be null or empty"))
    else Ok(Product(id, name.value, price))
  }

  /** `new Product(other)`: a copy equal to `other`; null throws NullPointerException. */
  function CopyProduct(other: Option<Product>): (r: Result<Product>)
    ensures other.None? ==> r == Err(NullPointer)
    ensures other.Some? ==> r.Ok? && Equals(r.value, other)
  {
    match other
    case None => Err(NullPointer)
    case Some(p) => Ok(Product(p.id, p.name, p.price))
  }

  /** `equals(Object)`: false for null, otherwise field-by-field on id,
      price and name, which is exactly equality of the records. */
  function Equals(a: Product, o: Option<Product>): (r: bool)
    ensures r <==> o == Some(a)
  {
    match o
    case None => false
    case Some(b) => a.id == b.id && a.price == b.price && a.name == b.name
  }

  /** `toString`: the three fields on labelled lines, each ending in a newline. */
  function ProductText(p: Product): string
  {
    "productID: " + IntText(p.id) + "\nname: " + p.name + "\nprice: " + DoubleText(p.price) + "\n"
  }

  /** Where each of four concatenated pieces sits in the whole. */
  lemma FourPieces(a: string, b: string, c: string, d: string)
    ensures var r := a + b + c + d;
      && |r| == |a| + |b| + |c| + |d|
      && r[..|a|] == a
      && r[|a|..|a| + |b|] == b
      && r[|a| + |b|..|a| + |b| + |c|] == c
      && r[|a| + |b| + |c|..] == d
  {
  }

  /** Each field of a product can be read back from its text at a known position. */
  lemma ProductTextLayout(p: Product)
    ensures var r, k := ProductText(p), 11 + |IntText(p.id)|;
      && |r| == k + 7 + |p.name| + 8 + |DoubleText(p.price)| + 1
      && r[..11] == "productID: "
      && r[11..k] == IntText(p.id)
      && r[k..k + 7 + |p.name|] == "\nname: " + p.name
      && r[k + 7 + |p.name|..] == "\nprice: " + DoubleText(p.price) + "\n"
  {
    var head, id := "productID: ", IntText(p.id);
    var name := "\nname: " + p.name;
    var price := "\nprice: " + DoubleText(p.price) + "\n";
    FourPieces(head, id, name, price);
    assert |head| == 11 && |name| == 7 + |p.name| && |price| == 8 + |DoubleText(p.price)| + 1;
    assert head + id + name + price == ProductText(p);
  }
}
