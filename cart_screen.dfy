/**
 The cart screen: the cart total, the order-item records built from the cart,
 and the order-placement sequence (guard, order insert, order-items insert,
 clearing the cart).

 Prices are integer cents. The screen's `toFixed(2)` formatting of a float sum
 is not modelled; the total here is the exact sum in cents.
 */
module CartScreen {
  import opened Wrappers

  type MenuItemId = int
  type OrderId = int
  type UserId = string

  /** One cart line as the screen reads it: the menu item's id, its unit price
      in cents, and the quantity. */
  datatype CartLine = CartLine(id: MenuItemId, price: int, quantity: int)

  /** The subtotal shown on each cart row. */
  function Subtotal(line: CartLine): int
  {
    line.price * line.quantity
  }

  ghost predicate NonNegative(lines: seq<CartLine>)
  {
    forall i :: 0 <= i < |lines| ==> lines[i].price >= 0 && lines[i].quantity >= 0
  }

  /** `calculateTotal`: a left fold from 0 adding price × quantity line by line,
      as `reduce` does. The total of a cart with no negative prices or
      quantities is never negative. */
  function Total(lines: seq<CartLine>): (total: int)
    ensures NonNegative(lines) ==> total >= 0
  {
    if lines == [] then 0
    else
      var init := lines[..|lines| - 1];
      assert NonNegative(lines) ==> NonNegative(init) by {
        forall i | 0 <= i < |init| ensures init[i] == lines[i] { }
      }
      Total(init) + Subtotal(lines[|lines| - 1])
  }

  /** The total is additive over concatenation of carts. */
  lemma {:induction false} TotalAppend(a: seq<CartLine>, b: seq<CartLine>)
    ensures Total(a + b) == Total(a) + Total(b)
    decreases |b|
  {
    if b == [] {
      assert a + b == a;
    } else {
      var init := b[..|b| - 1];
      assert (a + b)[..|a + b| - 1] == a + init;
      assert (a + b)[|a + b| - 1] == b[|b| - 1];
      TotalAppend(a, init);
    }
  }

  /** A right-to-left sum of integers, used as an independent reference. */
  function Sum(xs: seq<int>): int
  {
    if xs == [] then 0 else xs[0] + Sum(xs[1..])
  }

  /** The column of per-row subtotals the list shows. */
  function Subtotals(lines: seq<CartLine>): seq<int>
  {
    seq(|lines|, i requires 0 <= i < |lines| => Subtotal(lines[i]))
  }

  /** The footer total equals the sum of the subtotals shown on the rows. */
  lemma {:induction false} TotalIsSumOfSubtotals(lines: seq<CartLine>)
    ensures Total(lines) == Sum(Subtotals(lines))
  {
    if lines != [] {
      TotalIsSumOfSubtotals(lines[1..]);
      TotalAppend([lines[0]], lines[1..]);
      assert [lines[0]] + lines[1..] == lines;
      assert Total([lines[0]]) == Subtotal(lines[0]) by {
        assert [lines[0]][..0] == [];
      }
      assert Subtotals(lines)[1..] == Subtotals(lines[1..]);
    }
  }

  /** The example cart: 2 × 10.00 plus 1 × 5.50 totals 25.50. */
  lemma TotalExample()
    ensures Total([CartLine(1, 1000, 2), CartLine(2, 550, 1)]) == 2550
  {
    var lines := [CartLine(1, 1000, 2), CartLine(2, 550, 1)];
    assert lines[..1] == [CartLine(1, 1000, 2)];
    assert lines[..1][..0] == [];
  }

  /** One row of the `order_items` table. */
  datatype OrderItem = OrderItem(orderId: OrderId, menuItemId: MenuItemId, quantity: int, price: int)

  /** The `orderItems` mapping: one record per cart line, in cart order, each
      pointing to the new order and copying the line's id, quantity and price. */
  function OrderItems(orderId: OrderId, lines: seq<CartLine>): (items: seq<OrderItem>)
    ensures |items| == |lines|
    ensures forall i :: 0 <= i < |lines| ==>
      items[i] == OrderItem(orderId, lines[i].id, lines[i].quantity, lines[i].price)
  {
    if lines == [] then []
    else [OrderItem(orderId, lines[0].id, lines[0].quantity, lines[0].price)] + OrderItems(orderId, lines[1..])
  }

  /** The cart line an order-item record was copied from. */
  function LineOf(item: OrderItem): CartLine
  {
    CartLine(item.menuItemId, item.price, item.quantity)
  }

  function LinesOf(items: seq<OrderItem>): seq<CartLine>
  {
    if items == [] then [] else [LineOf(items[0])] + LinesOf(items[1..])
  }

  /** Reading the cart lines back out of the order items gives the cart:
      no line is lost, duplicated, reordered or altered. */
  lemma {:induction false} OrderItemsRoundTrip(orderId: OrderId, lines: seq<CartLine>)
    ensures LinesOf(OrderItems(orderId, lines)) == lines
  {
    if lines != [] {
      var items := OrderItems(orderId, lines);
      assert items[1..] == OrderItems(orderId, lines[1..]);
      OrderItemsRoundTrip(orderId, lines[1..]);
      assert [lines[0]] + lines[1..] == lines;
    }
  }

  /** The amount the stored order items add up to, from price and quantity. */
  function ItemsAmount(items: seq<OrderItem>): int
  {
    if items == [] then 0 else items[0].price * items[0].quantity + ItemsAmount(items[1..])
  }

  /** The stored order items add up to the total stored on the order. */
  lemma {:induction false} ItemsAmountIsTotal(orderId: OrderId, lines: seq<CartLine>)
    ensures ItemsAmount(OrderItems(orderId, lines)) == Total(lines)
  {
    if lines != [] {
      var items := OrderItems(orderId, lines);
      assert items[1..] == OrderItems(orderId, lines[1..]);
      ItemsAmountIsTotal(orderId, lines[1..]);
      TotalAppend([lines[0]], lines[1..]);
      assert [lines[0]] + lines[1..] == lines;
      assert [lines[0]][..0] == [];
    }
  }

  // ---------------------------------------------------------------------------
  // Order placement

  /** What the `orders` insert answers: the new row's id, or an error. */
  datatype OrderInsertResult = Inserted(id: OrderId) | InsertFailed

  /** The remote calls order placement issues, in the order issued. */
  datatype RemoteCall =
    | GetUser
    | InsertOrder(totalPrice: int, userId: Option<UserId>)
    | InsertOrderItems(items: seq<OrderItem>)

  /** How a submission attempt ends (each end but the last shows an alert). */
  datatype PlaceOrderStatus = EmptyCart | OrderCreationFailed | OrderItemsFailed | OrderPlaced

  /** One submission attempt: how it ended, the remote calls it issued, and
      the cart lines afterwards. */
  datatype Submission = Submission(status: PlaceOrderStatus, calls: seq<RemoteCall>, linesAfter: seq<CartLine>)

  /** `handlePlaceOrder` on a cart `lines`, with `user` the signed-in user's id
      that `getUser` answers and `orderResult`/`itemsResult` the answers of the
      two inserts. */
  function Submit(lines: seq<CartLine>, user: Option<UserId>,
                  orderResult: OrderInsertResult, itemsResult: Outcome): (s: Submission)
    // An empty cart issues no remote call and is left as it is.
    ensures lines == [] ==> s.status == EmptyCart && s.calls == [] && s.linesAfter == lines
    // The cart is cleared exactly when both inserts succeed; otherwise it is untouched.
    ensures s.status == OrderPlaced <==> lines != [] && orderResult.Inserted? && itemsResult.Ok?
    ensures s.status == OrderPlaced ==> s.linesAfter == []
    ensures s.status != OrderPlaced ==> s.linesAfter == lines
    // A failed order insert ends the attempt before any order-items insert.
    ensures lines != [] && orderResult.InsertFailed? ==>
      s.status == OrderCreationFailed && forall c | c in s.calls :: !c.InsertOrderItems?
    // A failed order-items insert leaves the cart, although the order exists.
    ensures lines != [] && orderResult.Inserted? && itemsResult.Err? ==>
      s.status == OrderItemsFailed && s.linesAfter == lines
    // The whole trace of each path that gets past the guard: a failed order
    // insert stops after it; a new order id is followed by the items insert.
    ensures lines != [] && orderResult.InsertFailed? ==>
      s.calls == [GetUser, InsertOrder(Total(lines), user)]
    ensures lines != [] && orderResult.Inserted? ==>
      s.calls == [GetUser, InsertOrder(Total(lines), user),
                  InsertOrderItems(OrderItems(orderResult.id, lines))]
  {
    if lines == [] then
      Submission(EmptyCart, [], lines)
    else
      var insertOrder := InsertOrder(Total(lines), user);
      match orderResult
      case InsertFailed =>
        Submission(OrderCreationFailed, [GetUser, insertOrder], lines)
      case Inserted(id) =>
        var calls := [GetUser, insertOrder, InsertOrderItems(OrderItems(id, lines))];
        if itemsResult.Err? then Submission(OrderItemsFailed, calls, lines)
        else Submission(OrderPlaced, calls, [])
  }

  /** What the trace of any submission attempt guarantees, whatever the
      answers: the order insert carries the cart total and the user's id, the
      order-items insert carries one record per line for the new order and
      comes right after the order insert, no call is issued twice, and
      `getUser` comes first. */
  lemma SubmitCallOrder(lines: seq<CartLine>, user: Option<UserId>,
                        orderResult: OrderInsertResult, itemsResult: Outcome)
    ensures var s := Submit(lines, user, orderResult, itemsResult);
      && (forall c | c in s.calls && c.InsertOrder? :: c.totalPrice == Total(lines) && c.userId == user)
      && (forall c | c in s.calls && c.InsertOrderItems? ::
            orderResult.Inserted? && c.items == OrderItems(orderResult.id, lines))
      && (forall j | 0 <= j < |s.calls| && s.calls[j].InsertOrderItems? ::
            j > 0 && s.calls[j - 1].InsertOrder?)
      && (forall i, j | 0 <= i < j < |s.calls| :: s.calls[i] != s.calls[j])
      && (lines != [] ==> |s.calls| >= 2 && s.calls[0] == GetUser && s.calls[1].InsertOrder?)
  {
  }

  /** The successful example: one order of 25.50 and two items priced 10.00
      and 5.50, and an empty cart. */
  lemma SubmitExample(user: Option<UserId>)
    ensures
      var lines := [CartLine(1, 1000, 2), CartLine(2, 550, 1)];
      var s := Submit(lines, user, Inserted(7), Ok);
      && s.status == OrderPlaced
      && s.linesAfter == []
      && s.calls == [GetUser, InsertOrder(2550, user),
                     InsertOrderItems([OrderItem(7, 1, 2, 1000), OrderItem(7, 2, 1, 550)])]
  {
    TotalExample();
    var lines := [CartLine(1, 1000, 2), CartLine(2, 550, 1)];
    assert OrderItems(7, lines) == [OrderItem(7, 1, 2, 1000), OrderItem(7, 2, 1, 550)];
  }

  /** The shared cart (the cart context's `cartItems`). Adding and removing
      lines belong to the context and are not part of this model. */
  class Cart {
    var lines: seq<CartLine>

    constructor ()
      ensures lines == []
    {
      lines := [];
    }

    /** `clearCart`. */
    method Clear()
      modifies this
      ensures lines == []
    {
      lines := [];
    }
  }

  /** The backend as the screen sees it: every call is appended to `calls`,
      and each one answers with the outcome it is handed. */
  class Backend {
    var calls: seq<RemoteCall>

    constructor ()
      ensures calls == []
    {
      calls := [];
    }

    /** `supabase.auth.getUser()`. */
    method GetUser(answer: Option<UserId>) returns (user: Option<UserId>)
      modifies this
      ensures user == answer && calls == old(calls) + [RemoteCall.GetUser]
    {
      calls := calls + [RemoteCall.GetUser];
      user := answer;
    }

    /** The `orders` insert with `.select().single()`. */
    method InsertOrder(totalPrice: int, userId: Option<UserId>, answer: OrderInsertResult)
      returns (result: OrderInsertResult)
      modifies this
      ensures result == answer && calls == old(calls) + [RemoteCall.InsertOrder(totalPrice, userId)]
    {
      calls := calls + [RemoteCall.InsertOrder(totalPrice, userId)];
      result := answer;
    }

    /** The bulk `order_items` insert. */
    method InsertOrderItems(items: seq<OrderItem>, answer: Outcome) returns (result: Outcome)
      modifies this
      ensures result == answer && calls == old(calls) + [RemoteCall.InsertOrderItems(items)]
    {
      calls := calls + [RemoteCall.InsertOrderItems(items)];
      result := answer;
    }
  }

  /** `handlePlaceOrder`, step by step: the empty-cart guard, the total,
      `getUser`, the order insert, the order-items insert, and `clearCart`
      only after both inserts succeeded. */
  method PlaceOrder(cart: Cart, backend: Backend, user: Option<UserId>,
                    orderResult: OrderInsertResult, itemsResult: Outcome)
    returns (status: PlaceOrderStatus)
    modifies cart, backend
    ensures var s := Submit(old(cart.lines), user, orderResult, itemsResult);
      && status == s.status
      && cart.lines == s.linesAfter
      && backend.calls == old(backend.calls) + s.calls
  {
    var cartItems := cart.lines;
    if |cartItems| == 0 {
      return EmptyCart;
    }

    var total := Total(cartItems);
    var u := backend.GetUser(user);

    var order := backend.InsertOrder(total, u, orderResult);
    if order.InsertFailed? {
      return OrderCreationFailed;
    }

    var orderItems := OrderItems(order.id, cartItems);
    var itemsError := backend.InsertOrderItems(orderItems, itemsResult);
    if itemsError.Err? {
      return OrderItemsFailed;
    }

    cart.Clear();
    status := OrderPlaced;
  }
}
