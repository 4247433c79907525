/**
  The navigation bar (src/components/Navbar.jsx): the item count folded over
  the cart lines and the badge on the cart icon.
 */
module Navbar {
  import opened Store

  /** Reference sum of the quantities of the lines. */
  function SumQuantity(lines: seq<CartLine>): int {
    if |lines| == 0 then 0 else lines[0].quantity + SumQuantity(lines[1..])
  }

  lemma {:induction false} SumQuantityAppend(a: seq<CartLine>, b: seq<CartLine>)
    ensures SumQuantity(a + b) == SumQuantity(a) + SumQuantity(b)
  {
    if |a| > 0 {
      assert (a + b)[1..] == a[1..] + b;
      SumQuantityAppend(a[1..], b);
    } else {
      assert a + b == b;
    }
  }

  /**
    `cartItems.reduce((total, item) => total + item.quantity, 0)`: a left fold
    that starts at 0 and adds the quantities from first to last.
   */
  function TotalItems(lines: seq<CartLine>): (n: int)
    ensures n == SumQuantity(lines)
  {
    if |lines| == 0 then 0
    else
      var init := lines[..|lines| - 1];
      var last := lines[|lines| - 1];
      assert lines == init + [last];
      SumQuantityAppend(init, [last]);
      TotalItems(init) + last.quantity
  }

  /** The item count of two line lists put together is the sum of their counts. */
  lemma TotalItemsAppend(a: seq<CartLine>, b: seq<CartLine>)
    ensures TotalItems(a + b) == TotalItems(a) + TotalItems(b)
  {
    SumQuantityAppend(a, b);
  }

  /** The badge on the cart icon: hidden, or showing the item count. */
  datatype Badge = Hidden | Visible(count: int)

  /** `{totalItems > 0 && <span>{totalItems}</span>}`. */
  function CartBadge(lines: seq<CartLine>): (b: Badge)
    ensures b.Visible? <==> SumQuantity(lines) > 0
    ensures b.Visible? ==> b.count == SumQuantity(lines)
  {
    var n := TotalItems(lines);
    if n > 0 then Visible(n) else Hidden
  }

  /** When every line holds at least one unit, there are at least as many items as lines. */
  lemma {:induction false} TotalItemsAtLeastLineCount(lines: seq<CartLine>)
    requires forall i :: 0 <= i < |lines| ==> lines[i].quantity >= 1
    ensures TotalItems(lines) >= |lines|
  {
    if |lines| > 0 {
      TotalItemsAtLeastLineCount(lines[1..]);
    }
  }

  /** When every line holds at least one unit, the badge is shown exactly for a non-empty cart. */
  lemma BadgeShownIffNonEmpty(lines: seq<CartLine>)
    requires forall i :: 0 <= i < |lines| ==> lines[i].quantity >= 1
    ensures CartBadge(lines).Visible? <==> |lines| > 0
  {
    TotalItemsAtLeastLineCount(lines);
  }
}
