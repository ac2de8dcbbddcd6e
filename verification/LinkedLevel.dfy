/** The price level of the Node engine: a doubly linked queue with back pointers,
    a cached total and a cached count.

    One ghost sequence says what the links mean.  The level's value is the
    sequence of its orders, just as for the worker's slice level, and its
    operations are given by the same functions on values, so both levels can
    stand for the same part of a price-time queue. */
module LinkedLevel {
  import opened Types
  import opened Matching
  import opened BookSpec

  class OrderNode {
    const id: string
    const user: string
    const symbol: string
    const side: Side
    const typ: OrderType
    const price: Option<int>
    const initial: int
    const timestamp: int
    var remaining: int
    var status: Status
    var prev: OrderNode?
    var next: OrderNode?
    var level: Level?

    function View(): Order
      reads this
    {
      Order(id, user, symbol, side, typ, price, initial, remaining, status, timestamp)
    }

    constructor (o: Order)
      ensures View() == o && prev == null && next == null && level == null
    {
      id, user, symbol, side, typ := o.id, o.user, o.symbol, o.side, o.typ;
      price, initial, timestamp := o.price, o.initial, o.timestamp;
      remaining, status := o.remaining, o.status;
      prev, next, level := null, null, null;
    }

    /** Take a quantity off the order, or say why not and change nothing. */
    method FillUp(quantity: int) returns (error: Option<Error>)
      modifies `remaining, `status
      ensures match Fill(old(View()), quantity)
              case Ok(o) => error == None && View() == o
              case Err(e) => error == Some(e) && View() == old(View())
    {
      if quantity <= 0 {
        return Some(BadQuantity);
      }
      if status == Filled || status == Cancelled {
        return Some(OrderInactive);
      }
      if quantity > remaining {
        return Some(FillTooLarge);
      }
      remaining := remaining - quantity;
      status := if remaining == 0 then Filled else PartiallyFilled;
      return None;
    }

    method CancelUp() returns (error: Option<Error>)
      modifies `status
      ensures match CancelOrder(old(View()))
              case Ok(o) => error == None && View() == o
              case Err(e) => error == Some(e) && View() == old(View())
    {
      if status == Filled || status == Cancelled {
        return Some(OrderInactive);
      }
      status := Cancelled;
      return None;
    }

    method DetachLinks()
      modifies `prev, `next, `level
      ensures prev == null && next == null && level == null
    {
      prev, next, level := null, null, null;
    }
  }

  function Views(s: seq<OrderNode>): (r: seq<Order>)
    reads s
    ensures |r| == |s| && forall i :: 0 <= i < |s| ==> r[i] == s[i].View()
  {
    if s == [] then [] else [s[0].View()] + Views(s[1..])
  }

  lemma SumOne(o: Order)
    ensures Sum([o]) == o.remaining
  {
  }

  /** Neighbours point at each other. */
  ghost predicate Joined(s: seq<OrderNode>, i: nat)
    requires i < |s| - 1
    reads s
  {
    s[i].next == s[i + 1] && s[i + 1].prev == s[i]
  }

  class Level {
    const price: int
    var head: OrderNode?
    var tail: OrderNode?
    var total: int
    var count: int
    ghost var nodes: seq<OrderNode>

    /** Head, tail, forward, backward and back pointers all agree with the sequence. */
    ghost predicate Linked()
      reads `head, `tail, `nodes, nodes
    {
      && head == (if nodes == [] then null else nodes[0])
      && tail == (if nodes == [] then null else nodes[|nodes| - 1])
      && (forall i :: 0 <= i < |nodes| ==> nodes[i].level == this && nodes[i].price == Some(price))
      && (nodes != [] ==> nodes[0].prev == null && nodes[|nodes| - 1].next == null)
      && (forall i :: 0 <= i < |nodes| - 1 ==> Joined(nodes, i))
      && (forall i, j :: 0 <= i < j < |nodes| ==> nodes[i] != nodes[j])
    }

    ghost function View(): (v: seq<Order>)
      reads this, nodes
      ensures |v| == |nodes| && forall i :: 0 <= i < |nodes| ==> v[i] == nodes[i].View()
    {
      Views(nodes)
    }

    /** Linked, and the cached sums are exact. */
    ghost predicate Valid()
      reads this, nodes
    {
      Linked() && count == |nodes| && total == Sum(View())
    }

    constructor (price: int)
      ensures this.price == price && nodes == [] && Valid()
    {
      this.price := price;
      head, tail, total, count, nodes := null, null, 0, 0, [];
    }

    function Refusal(o: OrderNode): Option<Error>
      reads o
    {
      if o.price != Some(price) then Some(WrongPrice)
      else if o.level != null then Some(AlreadyOnLevel)
      else if o.remaining <= 0 then Some(BadQuantity)
      else None
    }

    /** Link an order behind the tail. */
    method LinkLast(o: OrderNode)
      requires Linked() && count == |nodes| && o.price == Some(price)
      requires o.level == null && o.prev == null && o.next == null
      modifies `head, `tail, `nodes, o, tail
      ensures Linked() && nodes == old(nodes) + [o]
      ensures o.View() == old(o.View())
      ensures forall i :: 0 <= i < |old(nodes)| ==> old(nodes)[i].View() == old(nodes[i].View())
    {
      ghost var q := nodes;
      o.level := this;
      if count == 0 {
        head, tail := o, o;
      } else {
        tail.next := o;
        o.prev := tail;
        tail := o;
      }
      nodes := nodes + [o];
      assert forall i :: 0 <= i < |nodes| ==> nodes[i] == if i < |q| then q[i] else o;
      forall i | 0 <= i < |nodes| - 1
        ensures Joined(nodes, i)
      {
        assert i < |q| - 1 ==> old(Joined(q, i));
      }
    }

    /** Take an order out of the links. */
    method Unlink(o: OrderNode, ghost k: nat)
      requires Linked() && k < |nodes| && nodes[k] == o
      modifies `head, `tail, `nodes, nodes`prev, nodes`next, o`level
      ensures Linked() && nodes == old(nodes)[..k] + old(nodes)[k + 1..]
      ensures o.level == null && o.prev == null && o.next == null
    {
      ghost var q := nodes;
      assert (k > 0 ==> Joined(nodes, k - 1)) && (k < |nodes| - 1 ==> Joined(nodes, k));
      var previous, following := o.prev, o.next;
      if previous != null {
        previous.next := following;
      } else {
        head := following;
      }
      if following != null {
        following.prev := previous;
      } else {
        tail := previous;
      }
      o.DetachLinks();
      nodes := q[..k] + q[k + 1..];
      assert forall i :: 0 <= i < |nodes| ==> nodes[i] == q[if i < k then i else i + 1];
      forall i | 0 <= i < |nodes| - 1
        ensures Joined(nodes, i)
      {
        assert i < k - 1 ==> old(Joined(q, i));
        assert i >= k ==> old(Joined(q, i + 1));
      }
    }

    /** Put an order at the end; refused exactly for another price, an order that is on a level, or nothing left. */
    method Append(o: OrderNode) returns (error: Option<Error>)
      requires Valid() && (o.level == null ==> o.prev == null && o.next == null)
      modifies this, o, tail
      ensures Valid() && error == old(Refusal(o)) && o.View() == old(o.View())
      ensures nodes == if error == None then old(nodes) + [o] else old(nodes)
      ensures View() == if error == None then old(View()) + [o.View()] else old(View())
    {
      hide Sum, Views;
      if o.price != Some(price) {
        return Some(WrongPrice);
      }
      if o.level != null {
        return Some(AlreadyOnLevel);
      }
      if o.remaining <= 0 {
        return Some(BadQuantity);
      }
      ghost var v := View();
      SumAppend(v, [o.View()]);
      SumOne(o.View());
      LinkLast(o);
      total := total + o.remaining;
      count := count + 1;
      error := None;
      assert View() == v + [o.View()];
    }

    /** Unlink an order from anywhere in the queue; refused exactly if it is not on this level. */
    method Remove(o: OrderNode) returns (error: Option<Error>)
      requires Valid() && (o.level == this ==> o in nodes)
      modifies this, nodes`prev, nodes`next, o`level
      ensures Valid()
      ensures error == if old(o.level) == this then None else Some(NotOnLevel)
      ensures error != None ==> nodes == old(nodes) && View() == old(View())
      ensures error == None ==>
                var k := PositionOf(old(nodes), o);
                && k < |old(nodes)| && o.level == null && o.prev == null && o.next == null
                && nodes == old(nodes)[..k] + old(nodes)[k + 1..]
                && View() == old(View())[..k] + old(View())[k + 1..]
    {
      hide Sum, Views, PositionOf;
      if o.level != this {
        return Some(NotOnLevel);
      }
      ghost var v, k := View(), PositionOf(nodes, o);
      SumAround(v, k);
      Unlink(o, k);
      total := total - o.remaining;
      count := count - 1;
      error := None;
      assert View() == v[..k] + v[k + 1..];
    }

    /** Take a filled quantity off the cached total; refused exactly if it is not positive or too large. */
    method DecreaseTotal(quantity: int) returns (error: Option<Error>)
      modifies `total
      ensures error == if quantity <= 0 then Some(BadQuantity)
                       else if quantity > old(total) then Some(LevelUnderflow) else None
      ensures total == old(total) - if error == None then quantity else 0
    {
      if quantity <= 0 {
        return Some(BadQuantity);
      }
      if quantity > total {
        return Some(LevelUnderflow);
      }
      total := total - quantity;
      return None;
    }

    /** Walking the forward links yields the orders of the level, first come first. */
    method ToArray() returns (orders: seq<Order>)
      requires Valid()
      ensures orders == View()
    {
      orders := [];
      var node := head;
      ghost var k := 0;
      while node != null
        invariant k <= |nodes| && orders == View()[..k]
        invariant node == if k < |nodes| then nodes[k] else null
        decreases |nodes| - k
      {
        assert k < |nodes| - 1 ==> Joined(nodes, k);
        orders := orders + [node.View()];
        node := node.next;
        k := k + 1;
      }
    }

    /** Fill the head: the links stay, and no other order changes. */
    method FillFirst(quantity: int)
      requires Linked() && nodes != [] && Fill(nodes[0].View(), quantity).Ok?
      modifies head
      ensures Linked()
      ensures View() == [FilledBy(old(View())[0], quantity)] + old(View())[1..]
    {
      hide Views;
      ghost var v, q := View(), nodes;
      var error := head.FillUp(quantity);
      assert error == None;
      forall i | 0 <= i < |q| - 1
        ensures Joined(nodes, i)
      {
        assert old(Joined(q, i));
      }
      assert View() == [FilledBy(v[0], quantity)] + v[1..];
    }

    /** Fill the head and take the quantity off the cached total.  Neither is refused. */
    method FillHead(quantity: int)
      requires Valid() && nodes != [] && Fill(nodes[0].View(), quantity).Ok? && LiveQueue(View())
      modifies `total, head
      ensures Valid()
      ensures View() == [FilledBy(old(View())[0], quantity)] + old(View())[1..]
    {
      hide Views, Sum, Incoming, Linked;
      HeadIsFirst();
      ghost var v := View();
      SumAtLeast(v);
      SumHead(v);
      FillFirst(quantity);
      ghost var v' := View();
      SumHead(v');
      assert v'[1..] == v[1..];
      var error := DecreaseTotal(quantity);
      assert error == None;
      assert View() == v';
    }

    /** Unlink the head, which is not refused. */
    method PopHead(o: OrderNode)
      requires Valid() && nodes != [] && o == nodes[0]
      modifies this, nodes`prev, nodes`next, o`level
      ensures Valid() && nodes == old(nodes)[1..] && View() == old(View())[1..] && o.View() == old(o.View())
    {
      hide Views, Sum, Joined, PositionOf;
      var error := Remove(o);
      assert error == None;
    }

    /** Trade with the head: both are filled, and neither fill is refused. */
    method HitHead(incoming: OrderNode) returns (trade: Trade)
      requires Valid() && nodes != [] && LiveQueue(View())
      requires incoming !in nodes && Incoming(incoming.View()) && incoming.remaining > 0
      modifies `total, head, incoming`remaining, incoming`status
      ensures Valid()
      ensures var n := Min(old(incoming.remaining), old(nodes[0].remaining));
              && trade == TradeOf(old(incoming.View()), old(View())[0], n)
              && incoming.View() == FilledBy(old(incoming.View()), n)
              && View() == [FilledBy(old(View())[0], n)] + old(View())[1..]
    {
      hide Views, Sum, LiveQueue, Incoming, Joined, Fill, FilledBy, AfterHit;
      ghost var v, inc := View(), incoming.View();
      var resting := head;
      var quantity := if incoming.remaining <= resting.remaining then incoming.remaining else resting.remaining;
      CrossOnce(inc, v);
      FillBoth(incoming, quantity);
      trade := if incoming.side == Buy
      then Trade(incoming.symbol, price, quantity, incoming.id, resting.id, Buy, incoming.timestamp)
      else Trade(incoming.symbol, price, quantity, resting.id, incoming.id, Sell, incoming.timestamp);
    }

    /** One turn of the matching loop at this level: trade with its head, and unlink the head if
        it is filled.  None of the five checks on the way refuses. */
    method Cross(incoming: OrderNode) returns (trade: Trade)
      requires Valid() && nodes != [] && LiveQueue(View())
      requires incoming !in nodes && Incoming(incoming.View()) && incoming.remaining > 0
      modifies this, nodes, incoming`remaining, incoming`status
      ensures Valid() && LiveQueue(View())
      ensures var n := Min(old(incoming.remaining), old(nodes[0].remaining));
              && trade == TradeOf(old(incoming.View()), old(View())[0], n)
              && incoming.View() == FilledBy(old(incoming.View()), n)
              && View() == AfterHit(old(View()), n)
      ensures Incoming(incoming.View())
      ensures nodes == if old(nodes[0].remaining) <= old(incoming.remaining) then old(nodes)[1..] else old(nodes)
      ensures old(nodes[0]).View() == FilledBy(old(nodes[0].View()), Min(old(incoming.remaining), old(nodes[0].remaining)))
    {
      hide Views, Sum, LiveQueue, Incoming, Linked, Fill, FilledBy, AfterHit, TradeOf;
      ghost var v, inc, n := View(), incoming.View(), Min(incoming.remaining, nodes[0].remaining);
      var resting := head;
      HeadIsFirst();
      CrossOnce(inc, v);
      HitIs(v, n);
      trade := HitHead(incoming);
      assert resting.View() == View()[0];
      DropFilled(resting);
    }

    lemma HeadIsFirst()
      requires Valid() && nodes != []
      ensures head == nodes[0] && nodes[0].View() == View()[0]
    {
    }

    /** Unlink the head if it is filled. */
    method DropFilled(o: OrderNode)
      requires Valid() && nodes != [] && o == nodes[0]
      modifies this, nodes`prev, nodes`next, o`level
      ensures Valid() && o.View() == old(o.View())
      ensures nodes == if old(o.status) == Filled then old(nodes)[1..] else old(nodes)
      ensures View() == if old(o.status) == Filled then old(View())[1..] else old(View())
    {
      hide Views, Sum, Joined;
      if o.status == Filled {
        PopHead(o);
      }
    }

    /** Fill an incoming order and the head.  Neither fill is refused. */
    method FillBoth(incoming: OrderNode, quantity: int)
      requires Valid() && nodes != [] && LiveQueue(View()) && incoming !in nodes
      requires Fill(nodes[0].View(), quantity).Ok? && Fill(incoming.View(), quantity).Ok?
      modifies `total, head, incoming`remaining, incoming`status
      ensures Valid()
      ensures incoming.View() == FilledBy(old(incoming.View()), quantity)
      ensures View() == [FilledBy(old(View())[0], quantity)] + old(View())[1..]
    {
      hide Views, Sum, LiveQueue;
      FillIs(incoming.View(), quantity);
      Others(incoming);
      var error := incoming.FillUp(quantity);
      assert error == None;
      FillHead(quantity);
    }

    lemma Others(o: OrderNode)
      requires Linked() && o !in nodes
      ensures forall i :: 0 <= i < |nodes| ==> nodes[i] != o
    {
    }

    /** Cancel a resting order: it leaves the links first, and then no cancel can fail. */
    method CancelHere(o: OrderNode)
      requires Valid() && LiveQueue(View()) && o in nodes
      requires forall i, j :: 0 <= i < j < |nodes| ==> nodes[i].id != nodes[j].id
      modifies this, nodes
      ensures Valid() && LiveQueue(View())
      ensures View() == Without(old(View()), o.id) && o.View() == old(o.View()).(status := Cancelled)
      ensures forall i :: 0 <= i < |nodes| ==> nodes[i] in old(nodes) && nodes[i] != o
    {
      hide Views, Sum, Linked, PositionOf, IndexOf;
      ghost var v, q, k := View(), nodes, PositionOf(nodes, o);
      MemberHere(o);
      SameIndex(q, v, o);
      RemovalStaysLive(v, k);
      var error := Remove(o);
      assert error == None;
      Unaffected(o);
      ghost var v' := View();
      error := o.CancelUp();
      assert View() == v';
    }

    lemma MemberHere(o: OrderNode)
      requires Valid() && o in nodes && LiveQueue(View())
      ensures o.level == this && CancelOrder(o.View()).Ok?
      ensures forall i, j :: 0 <= i < j < |nodes| ==> nodes[i] != nodes[j]
    {
      hide Views, Sum;
      var i :| 0 <= i < |nodes| && nodes[i] == o;
      assert Live(View()[i]);
    }

    lemma Unaffected(o: OrderNode)
      requires Linked() && o.level == null
      ensures o !in nodes
    {
    }
  }

  lemma HitIs(v: seq<Order>, n: int)
    requires v != []
    ensures AfterHit(v, n) == if n == v[0].remaining then v[1..] else [FilledBy(v[0], n)] + v[1..]
    ensures ([FilledBy(v[0], n)] + v[1..])[1..] == v[1..]
  {
  }

  lemma FillIs(o: Order, quantity: int)
    ensures Fill(o, quantity).Ok? ==> Fill(o, quantity).value == FilledBy(o, quantity)
  {
  }

  lemma SumHead(v: seq<Order>)
    requires v != []
    ensures Sum(v) == v[0].remaining + Sum(v[1..])
  {
  }

  lemma {:induction false} SumAtLeast(v: seq<Order>)
    requires v != [] && LiveQueue(v)
    ensures Sum(v) >= v[0].remaining
  {
    if |v| > 1 {
      assert Live(v[1]);
      SumAtLeast(v[1..]);
    }
  }

  /** Found by reference or found by id: the same place. */
  lemma SameIndex(s: seq<OrderNode>, v: seq<Order>, o: OrderNode)
    requires |v| == |s| && (forall i :: 0 <= i < |s| ==> v[i].id == s[i].id) && o in s
    requires forall i, j :: 0 <= i < j < |s| ==> s[i].id != s[j].id
    ensures IndexOf(v, o.id) == PositionOf(s, o) < |s|
  {
    hide IndexOf, PositionOf;
    var k, i := PositionOf(s, o), IndexOf(v, o.id);
    var j :| 0 <= j < |s| && s[j] == o;
    assert k <= j && v[k].id == o.id;
    assert i <= k && s[i].id == o.id;
  }

  lemma RemovalStaysLive(v: seq<Order>, k: nat)
    requires k < |v| && LiveQueue(v)
    ensures LiveQueue(v[..k] + v[k + 1..])
  {
    hide Live;
  }

  lemma StepAtPrice(inc: Order, v: seq<Order>, ignorePrice: bool, price: int)
    requires Incoming(inc) && inc.remaining > 0 && LiveQueue(v) && v != [] && Px(v[0]) == price
    requires !ignorePrice ==> inc.price.Some?
    requires Accepts(inc, ignorePrice, price)
    ensures var n := Min(inc.remaining, v[0].remaining);
            var inc', v' := FilledBy(inc, n), AfterHit(v, n);
            && n > 0 && Incoming(inc') && LiveQueue(v') && Accepts(inc', ignorePrice, price)
            && Match(inc, v, ignorePrice) == Prepend([TradeOf(inc, v[0], n)], Match(inc', v', ignorePrice))
  {
    hide Match;
    MatchStep(inc, v, ignorePrice);
  }

  /** Both fills of a turn are allowed, and live orders stay in the queue. */
  lemma CrossOnce(inc: Order, v: seq<Order>)
    requires Incoming(inc) && inc.remaining > 0 && v != [] && LiveQueue(v)
    ensures var n := Min(inc.remaining, v[0].remaining);
            && Fill(inc, n) == Ok(FilledBy(inc, n)) && Fill(v[0], n) == Ok(FilledBy(v[0], n))
            && Incoming(FilledBy(inc, n)) && LiveQueue(AfterHit(v, n))
            && (FilledBy(v[0], n).status == Filled <==> v[0].remaining <= inc.remaining)
  {
    assert Live(v[0]);
  }
}
