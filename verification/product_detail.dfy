/** The quantity selector of the product detail page: the selected quantity
    starts at 1, and a typed value replaces it only when it parses to a whole
    number between 1 and the product's stock. */
module ProductDetail {
  import opened Wrappers
  import opened Text
  import opened ProductSlice

  const InitialQuantity: int := 1

  /** `product?.stock || 0`: the stock of the shown product, 0 when there is
      none (the `|| 0` changes nothing for an integer stock). */
  function StockOf(product: Option<Product>): (n: int)
    ensures product.None? ==> n == 0
    ensures product.Some? ==> n == product.value.stock
  {
    match product
    case None => 0
    case Some(p) => p.stock
  }

  /** `handleQuantityChange`: the quantity after the input field reports `input`. */
  function HandleQuantityChange(quantity: int, product: Option<Product>, input: string): (r: int)
    ensures ParseInt(input).None? ==> r == quantity
    ensures ParseInt(input).Some? && 0 < ParseInt(input).value <= StockOf(product) ==> r == ParseInt(input).value
    ensures ParseInt(input).Some? && !(0 < ParseInt(input).value <= StockOf(product)) ==> r == quantity
  {
    var value := ParseInt(input);
    if value.Some? && value.value > 0 && value.value <= StockOf(product) then value.value else quantity
  }

  /** A product out of stock, or no product at all, accepts no value. */
  lemma NoStockAcceptsNothing(quantity: int, product: Option<Product>, input: string)
    requires product.None? || product.value.stock <= 0
    ensures HandleQuantityChange(quantity, product, input) == quantity
  {
  }

  /** A changed quantity always lies between 1 and the stock. */
  lemma ChangedQuantityInRange(quantity: int, product: Option<Product>, input: string)
    ensures var r := HandleQuantityChange(quantity, product, input);
      r == quantity || 1 <= r <= StockOf(product)
  {
  }

  /** Typing the decimal form of an in-stock amount, with or without trailing
      non-digit text, selects exactly that amount. */
  lemma TypedAmountSelected(quantity: int, p: Product, n: nat, rest: string)
    requires 1 <= n <= p.stock
    requires rest == [] || !IsDigit(rest[0])
    ensures HandleQuantityChange(quantity, Some(p), NatToString(n) + rest) == n
  {
    ParseIntRoundTrip(n, rest);
  }

  /** A negative amount is never selected. */
  lemma NegativeAmountIgnored(quantity: int, p: Product, n: nat, rest: string)
    requires rest == [] || !IsDigit(rest[0])
    ensures HandleQuantityChange(quantity, Some(p), "-" + (NatToString(n) + rest)) == quantity
  {
    ParseIntNegativeRoundTrip(n, rest);
  }

  /** The quantity after the field reports each of `inputs` in turn. */
  function QuantityAfter(quantity: int, product: Option<Product>, inputs: seq<string>): int
    decreases |inputs|
  {
    if inputs == [] then quantity
    else QuantityAfter(HandleQuantityChange(quantity, product, inputs[0]), product, inputs[1..])
  }

  /** For a fixed product: starting from the initial quantity, whatever is
      typed, the selected quantity stays at least 1, and is 1 or within that
      product's stock. (The page does not reset the quantity when the shown
      product changes, so across products only the first half carries over.) */
  lemma {:induction false} QuantityAlwaysPositive(quantity: int, product: Option<Product>, inputs: seq<string>)
    requires quantity == InitialQuantity || 1 <= quantity <= StockOf(product)
    ensures var r := QuantityAfter(quantity, product, inputs);
      r >= 1 && (r == InitialQuantity || r <= StockOf(product))
    decreases |inputs|
  {
    if inputs != [] {
      QuantityAlwaysPositive(HandleQuantityChange(quantity, product, inputs[0]), product, inputs[1..]);
    }
  }
}
