/** The worker's order and price level as heap objects.  Levels, the id index
    and the caller share one object per order, so a fill is seen by all three. */
module GoOrders {
  import opened Types
  import opened Matching

  class OrderRef {
    const id: string
    const user: string
    const symbol: string
    const side: Side
    const typ: OrderType
    const price: Option<int>
    const initial: int
    const timestamp: int
    var remaining: int
    var status: Status

    function View(): Order
      reads this
    {
      Order(id, user, symbol, side, typ, price, initial, remaining, status, timestamp)
    }

    constructor (o: Order)
      ensures View() == o
    {
      id, user, symbol, side, typ := o.id, o.user, o.symbol, o.side, o.typ;
      price, initial, timestamp := o.price, o.initial, o.timestamp;
      remaining, status := o.remaining, o.status;
    }

    /** Take a quantity off the order, or say why not and change nothing. */
    method FillUp(quantity: int) returns (error: Option<Error>)
      modifies this
      ensures match Fill(old(View()), quantity)
              case Ok(o) => error == None && View() == o
              case Err(e) => error == Some(e) && View() == old(View())
    {
      if quantity <= 0 {
        return Some(BadQuantity);
      }
      if status == Filled || status == Cancelled {
        return Some(OrderInactive);
      }
      if quantity > remaining {
        return Some(FillTooLarge);
      }
      remaining := remaining - quantity;
      status := if remaining == 0 then Filled else PartiallyFilled;
      return None;
    }

    method CancelUp() returns (error: Option<Error>)
      modifies this
      ensures match CancelOrder(old(View()))
              case Ok(o) => error == None && View() == o
              case Err(e) => error == Some(e) && View() == old(View())
    {
      if status == Filled || status == Cancelled {
        return Some(OrderInactive);
      }
      status := Cancelled;
      return None;
    }
  }

  /** Validate an input and allocate the order. */
  method MakeOrder(symbol: string, typ: OrderType, input: Input) returns (r: Result<OrderRef, Error>)
    ensures match NewOrder(symbol, typ, input)
            case Ok(o) => r.Ok? && fresh(r.value) && r.value.View() == o
            case Err(e) => r == Err(e)
  {
    var o := NewOrder(symbol, typ, input);
    if o.Err? {
      return Err(o.error);
    }
    var ref := new OrderRef(o.value);
    return Ok(ref);
  }

  function Views(s: seq<OrderRef>): (r: seq<Order>)
    reads s
    ensures |r| == |s|
    ensures forall i :: 0 <= i < |s| ==> r[i] == s[i].View()
  {
    if s == [] then [] else [s[0].View()] + Views(s[1..])
  }

  function WithoutRef(s: seq<OrderRef>, o: OrderRef): seq<OrderRef> {
    var k := PositionOf(s, o);
    if k < |s| then s[..k] + s[k + 1..] else s
  }

  class PriceLevel {
    const price: int
    ghost const side: Side
    var total: int
    var orders: seq<OrderRef>

    constructor (price: int, ghost side: Side)
      ensures this.price == price && this.side == side && total == 0 && orders == []
    {
      this.price, this.side := price, side;
      total, orders := 0, [];
    }

    method Append(o: OrderRef)
      modifies this
      ensures orders == old(orders) + [o] && total == old(total) + o.remaining
    {
      orders := orders + [o];
      total := total + o.remaining;
    }

    /** Unlink one order, found by reference; an order that is not here is ignored. */
    method Remove(o: OrderRef)
      modifies this
      ensures orders == WithoutRef(old(orders), o)
      ensures total == old(total) - (if o in old(orders) then o.remaining else 0)
    {
      var i := 0;
      while i < |orders|
        invariant 0 <= i <= |orders| && orders == old(orders) && total == old(total)
        invariant forall j :: 0 <= j < i ==> orders[j] != o
      {
        if orders[i] == o {
          assert PositionOf(orders, o) == i by {
            assert PositionOf(orders, o) <= i;
          }
          total := total - o.remaining;
          orders := orders[..i] + orders[i + 1..];
          return;
        }
        i := i + 1;
      }
    }
  }
}
