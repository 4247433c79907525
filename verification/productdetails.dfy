/**
  The product details page (src/pages/ProductDetails.jsx): the catalog lookup
  by route id, the quantity stepper, and the add action carrying the chosen
  quantity. The route parameter is taken as an already parsed integer.
 */
module ProductDetails {
  import opened Store
  import Home
  import Cart

  /** `useState(1)`: the stepper's first value. */
  const InitialQuantity: int := 1

  function Max(a: int, b: int): int {
    if a >= b then a else b
  }

  /** The "-" button: `Math.max(1, quantity - 1)`. */
  function Decrement(q: int): (r: int)
    ensures r >= 1
    ensures q >= 2 ==> r == q - 1
    ensures q <= 1 ==> r == 1
  {
    Max(1, q - 1)
  }

  /** The "+" button: `quantity + 1`, with no upper bound. */
  function Increment(q: int): int {
    q + 1
  }

  lemma DecrementUndoesIncrement(q: int)
    requires q >= 1
    ensures Decrement(Increment(q)) == q
  {
  }

  lemma IncrementUndoesDecrement(q: int)
    requires q >= 2
    ensures Increment(Decrement(q)) == q
  {
  }

  datatype Press = Minus | Plus

  function Step(q: int, press: Press): int {
    match press
    case Minus => Decrement(q)
    case Plus => Increment(q)
  }

  /** The stepper value after a sequence of presses, first press first. */
  function Run(q: int, presses: seq<Press>): int
    decreases |presses|
  {
    if |presses| == 0 then q else Run(Step(q, presses[0]), presses[1..])
  }

  /** The stepper never goes below 1 from a value of at least 1. */
  lemma {:induction false} RunStaysPositive(q: int, presses: seq<Press>)
    requires q >= 1
    ensures Run(q, presses) >= 1
    decreases |presses|
  {
    if |presses| > 0 {
      RunStaysPositive(Step(q, presses[0]), presses[1..]);
    }
  }

  /** Each press moves the value by at most one. */
  lemma {:induction false} RunWithinPressCount(q: int, presses: seq<Press>)
    requires q >= 1
    ensures q - |presses| <= Run(q, presses) <= q + |presses|
    decreases |presses|
  {
    if |presses| > 0 {
      RunWithinPressCount(Step(q, presses[0]), presses[1..]);
    }
  }

  /** Pressing "+" n times adds exactly n. */
  lemma {:induction false} RunPlusOnly(q: int, presses: seq<Press>)
    requires forall i :: 0 <= i < |presses| ==> presses[i] == Plus
    ensures Run(q, presses) == q + |presses|
    decreases |presses|
  {
    if |presses| > 0 {
      RunPlusOnly(q + 1, presses[1..]);
    }
  }

  /** `products.find((p) => p.id === id)`: the first product with that id, if any. */
  function Find(products: seq<Product>, id: int): (found: Option<Product>)
    ensures found.None? <==> forall j :: 0 <= j < |products| ==> products[j].id != id
    ensures found.Some? ==> found.value.id == id && found.value in products
  {
    if |products| == 0 then None
    else if products[0].id == id then Some(products[0])
    else Find(products[1..], id)
  }

  /** `find` returns the first match, not just any. */
  lemma {:induction false} FindReturnsFirstMatch(products: seq<Product>, id: int, k: int)
    requires 0 <= k < |products| && products[k].id == id
    requires forall j :: 0 <= j < k ==> products[j].id != id
    ensures Find(products, id) == Some(products[k])
    decreases k
  {
    if k > 0 {
      FindReturnsFirstMatch(products[1..], id, k - 1);
    }
  }

  /** What the page renders once loading is over. */
  datatype Page = NotFound | Details(product: Product, quantity: int)

  /** Opening the page for a route id: "Product not found" on a miss, else the product with the stepper at 1. */
  function Open(products: seq<Product>, id: int): (page: Page)
    ensures page.NotFound? <==> forall j :: 0 <= j < |products| ==> products[j].id != id
    ensures page.Details? ==> page.product.id == id && page.product in products
    ensures page.Details? ==> page.quantity == InitialQuantity
  {
    match Find(products, id)
    case None => NotFound
    case Some(p) => Details(p, InitialQuantity)
  }

  /** `{ ...product, quantity }` dispatched by the "Add to Cart" button. */
  function HandleAddToCart(product: Product, quantity: int): (a: Action)
    ensures a.AddToCart? && ProductOf(a.item) == product && a.item.quantity == quantity
  {
    AddToCart(WithQuantity(product, quantity))
  }

  /**
    Whatever the stepper presses after opening a found product, the add action
    carries that product and a quantity of at least 1.
   */
  lemma AddAfterPressesIsPositive(products: seq<Product>, id: int, presses: seq<Press>)
    requires Open(products, id).Details?
    ensures var page := Open(products, id);
            var a := HandleAddToCart(page.product, Run(page.quantity, presses));
            a.item.id == id && a.item.quantity >= 1
  {
    RunStaysPositive(InitialQuantity, presses);
  }

  /**
    The cart page's "-" guard and this page's clamped "-" agree: on a line
    holding at least one unit, the cart dispatches a change exactly when the
    stepper would move, and then asks for the stepper's value.
   */
  lemma CartMinusAgreesWithStepper(line: CartLine)
    requires line.quantity >= 1
    ensures Cart.MinusPressed(line).Some? <==> Decrement(line.quantity) != line.quantity
    ensures Cart.MinusPressed(line).Some? ==> Cart.MinusPressed(line).value.quantity == Decrement(line.quantity)
  {
  }

  /** The home page's add button dispatches what this page dispatches with an untouched stepper. */
  lemma HomeAddIsUntouchedStepperAdd(product: Product)
    ensures Home.HandleAddToCart(product) == HandleAddToCart(product, InitialQuantity)
  {
  }
}
