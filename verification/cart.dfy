/**
  The cart page (src/pages/Cart.jsx): the price total folded over the cart
  lines, the rows and order summary it displays, and the actions its buttons
  dispatch. Prices are integer cents.
 */
module Cart {
  import opened Store

  /** What one line costs: unit price times quantity. */
  function LineTotal(line: CartLine): (total: int)
    ensures line.quantity == 0 ==> total == 0
    ensures line.price >= 0 && line.quantity >= 0 ==> total >= 0
    ensures line.price >= 0 && line.quantity >= 1 ==> total >= line.price
    ensures line.quantity == 1 ==> total == line.price
  {
    line.price * line.quantity
  }

  /** Reference sum of unit price times quantity over the lines. */
  function SumPrice(lines: seq<CartLine>): int {
    if |lines| == 0 then 0 else LineTotal(lines[0]) + SumPrice(lines[1..])
  }

  lemma {:induction false} SumPriceAppend(a: seq<CartLine>, b: seq<CartLine>)
    ensures SumPrice(a + b) == SumPrice(a) + SumPrice(b)
  {
    if |a| > 0 {
      assert (a + b)[1..] == a[1..] + b;
      SumPriceAppend(a[1..], b);
    } else {
      assert a + b == b;
    }
  }

  /**
    `cartItems.reduce((total, item) => total + item.price * item.quantity, 0)`:
    a left fold that starts at 0 and adds the lines from first to last.
   */
  function TotalPrice(lines: seq<CartLine>): (total: int)
    ensures total == SumPrice(lines)
  {
    if |lines| == 0 then 0
    else
      var init := lines[..|lines| - 1];
      var last := lines[|lines| - 1];
      assert lines == init + [last];
      SumPriceAppend(init, [last]);
      TotalPrice(init) + LineTotal(last)
  }

  /** The price total of two line lists put together is the sum of their totals. */
  lemma TotalPriceAppend(a: seq<CartLine>, b: seq<CartLine>)
    ensures TotalPrice(a + b) == TotalPrice(a) + TotalPrice(b)
  {
    SumPriceAppend(a, b);
  }

  /** Prices and quantities that are not negative give a total that is not negative. */
  lemma {:induction false} TotalPriceNonNegative(lines: seq<CartLine>)
    requires forall i :: 0 <= i < |lines| ==> lines[i].price >= 0 && lines[i].quantity >= 0
    ensures TotalPrice(lines) >= 0
  {
    if |lines| > 0 {
      TotalPriceNonNegative(lines[1..]);
      assert LineTotal(lines[0]) >= 0;
    }
  }

  /** `handleQuantityChange`: a request below 1 is dropped, otherwise an update is dispatched. */
  function HandleQuantityChange(productId: int, newQuantity: int): (dispatched: Option<Action>)
    ensures dispatched.None? <==> newQuantity < 1
    ensures dispatched.Some? ==> dispatched.value == UpdateQuantity(productId, newQuantity)
    ensures dispatched.Some? ==> dispatched.value.quantity >= 1
  {
    if newQuantity < 1 then None else Some(UpdateQuantity(productId, newQuantity))
  }

  /** The "-" button of a line asks for one less; on a single unit that request is dropped. */
  function MinusPressed(line: CartLine): (dispatched: Option<Action>)
    ensures dispatched.None? <==> line.quantity <= 1
    ensures dispatched.Some? ==> dispatched.value == UpdateQuantity(line.id, line.quantity - 1)
  {
    HandleQuantityChange(line.id, line.quantity - 1)
  }

  /** The "+" button of a line asks for one more. */
  function PlusPressed(line: CartLine): (dispatched: Option<Action>)
    ensures line.quantity >= 0 ==> dispatched == Some(UpdateQuantity(line.id, line.quantity + 1))
    ensures line.quantity < 0 ==> dispatched.None?
  {
    HandleQuantityChange(line.id, line.quantity + 1)
  }

  /** `handleRemoveFromCart`: the "Remove" button dispatches a removal, unconditionally. */
  function RemovePressed(line: CartLine): (dispatched: Action)
    ensures dispatched.RemoveFromCart? && dispatched.id == line.id
  {
    RemoveFromCart(line.id)
  }

  /** One displayed row of the cart table. */
  datatype Row = Row(id: int, title: string, image: string, unitPrice: int, quantity: int, lineTotal: int)

  /** The order summary: shipping is free, so the total repeats the subtotal. */
  datatype Summary = Summary(subtotal: int, total: int)

  /** What the cart page shows: the empty-cart message, or the rows and the summary. */
  datatype CartView = EmptyCart | Filled(rows: seq<Row>, summary: Summary)

  function RowOf(line: CartLine): Row {
    Row(line.id, line.title, line.image, line.price, line.quantity, LineTotal(line))
  }

  function Rows(lines: seq<CartLine>): seq<Row> {
    seq(|lines|, i requires 0 <= i < |lines| => RowOf(lines[i]))
  }

  /** Sum of the line totals as displayed. */
  function SumRowTotals(rows: seq<Row>): int {
    if |rows| == 0 then 0 else rows[0].lineTotal + SumRowTotals(rows[1..])
  }

  /** The displayed line totals add up to the price total. */
  lemma {:induction false} RowTotalsAddUp(lines: seq<CartLine>)
    ensures SumRowTotals(Rows(lines)) == TotalPrice(lines)
  {
    if |lines| > 0 {
      assert Rows(lines)[1..] == Rows(lines[1..]);
      RowTotalsAddUp(lines[1..]);
    }
  }

  /** The cart page for the given lines. */
  function View(lines: seq<CartLine>): (v: CartView)
    ensures v.EmptyCart? <==> |lines| == 0
    ensures v.Filled? ==> |v.rows| == |lines|
    ensures v.Filled? ==> forall i :: 0 <= i < |lines| ==>
      && v.rows[i].id == lines[i].id
      && v.rows[i].quantity == lines[i].quantity
      && v.rows[i].lineTotal == lines[i].price * lines[i].quantity
    ensures v.Filled? ==> v.summary.subtotal == SumRowTotals(v.rows) == SumPrice(lines)
    ensures v.Filled? ==> v.summary.total == v.summary.subtotal
  {
    if |lines| == 0 then EmptyCart
    else
      RowTotalsAddUp(lines);
      var total := TotalPrice(lines);
      Filled(Rows(lines), Summary(total, total))
  }
}
