/** How levels, queue and index of one side hang together on the heap.

    The queue is ghost: price levels hold the actual slices.  A level at price
    `p` is exactly the orders of the queue with that price, in queue order. */
module GoLevels {
  import opened Types
  import opened Matching
  import opened BookSpec
  import opened Recovery
  import opened GoOrders

  function RefPx(o: OrderRef): int {
    if o.price.Some? then o.price.value else 0
  }

  function RefsAt(q: seq<OrderRef>, price: int): (r: seq<OrderRef>)
    ensures forall i :: 0 <= i < |r| ==> r[i] in q && RefPx(r[i]) == price
  {
    if q == [] then []
    else if RefPx(q[0]) == price then [q[0]] + RefsAt(q[1..], price)
    else RefsAt(q[1..], price)
  }

  ghost predicate LevelLinked(l: PriceLevel, q: seq<OrderRef>, price: int, side: Side)
    reads l, RefsAt(q, price)
  {
    && l.price == price && l.side == side
    && l.orders == RefsAt(q, price) && l.orders != []
    && l.total == Sum(Views(RefsAt(q, price)))
  }

  ghost predicate SideLinked(levels: map<int, PriceLevel>, q: seq<OrderRef>, side: Side)
    reads q, set p | p in levels :: levels[p]
  {
    && (forall i :: 0 <= i < |q| ==> q[i].side == side && RefPx(q[i]) in levels)
    && (forall p :: p in levels ==> LevelLinked(levels[p], q, p, side))
    && (forall i, j :: 0 <= i < j < |q| ==> q[i].id != q[j].id)
  }

  /** The index finds exactly the orders of the two queues, each under its id. */
  predicate Indexed(orders: map<string, OrderRef>, bidQ: seq<OrderRef>, askQ: seq<OrderRef>) {
    && (forall i :: 0 <= i < |bidQ| ==> bidQ[i].id in orders && orders[bidQ[i].id] == bidQ[i])
    && (forall i :: 0 <= i < |askQ| ==> askQ[i].id in orders && orders[askQ[i].id] == askQ[i])
    && (forall id :: id in orders ==> orders[id].id == id && (orders[id] in bidQ || orders[id] in askQ))
  }

  // -------------------------------------------------------- pure facts on refs

  lemma {:induction false} RefsAtMember(q: seq<OrderRef>, o: OrderRef)
    requires o in q
    ensures o in RefsAt(q, RefPx(o))
  {
    if q[0] != o {
      RefsAtMember(q[1..], o);
    }
  }

  lemma {:induction false} WithoutSteps(q: seq<OrderRef>, o: OrderRef)
    requires q != []
    ensures WithoutRef(q, o) == if q[0] == o then q[1..] else [q[0]] + WithoutRef(q[1..], o)
  {
    var k := PositionOf(q, o);
    if q[0] != o && k < |q| {
      assert k == 1 + PositionOf(q[1..], o);
      assert q[..k] == [q[0]] + q[1..][..k - 1];
      assert q[k + 1..] == q[1..][k..];
    }
  }

  lemma {:induction false} RefsAtWithout(q: seq<OrderRef>, o: OrderRef, price: int)
    ensures RefsAt(WithoutRef(q, o), price) == WithoutRef(RefsAt(q, price), o)
  {
    if q != [] {
      WithoutSteps(q, o);
      RefsAtWithout(q[1..], o, price);
      if RefPx(q[0]) == price {
        var r := RefsAt(q, price);
        WithoutSteps(r, o);
        assert r[1..] == RefsAt(q[1..], price);
      } else if q[0] == o {
        NotThere(RefsAt(q[1..], price), o);
      }
    }
  }

  lemma NotThere(r: seq<OrderRef>, o: OrderRef)
    requires forall i :: 0 <= i < |r| ==> r[i] != o
    ensures WithoutRef(r, o) == r
  {
  }

  lemma {:induction false} SumWithoutRef(r: seq<OrderRef>, o: OrderRef)
    requires o in r
    ensures Sum(Views(WithoutRef(r, o))) == Sum(Views(r)) - o.remaining
  {
    WithoutSteps(r, o);
    if r[0] != o {
      SumWithoutRef(r[1..], o);
      var w := WithoutRef(r, o);
      assert w[0] == r[0] && w[1..] == WithoutRef(r[1..], o);
    }
  }

  /** In a queue of distinct ids an order is found by id where it is found by reference. */
  lemma SamePlace(q: seq<OrderRef>, o: OrderRef)
    requires forall i, j :: 0 <= i < j < |q| ==> q[i].id != q[j].id
    requires o in q
    ensures PositionOf(q, o) == IndexOf(Views(q), o.id) < |q|
  {
    hide IndexOf, PositionOf, Views;
    var v, k := Views(q), PositionOf(q, o);
    assert q[k] == o && v[k].id == o.id;
    var i := IndexOf(v, o.id);
    assert i <= k;
    assert v[i].id == q[i].id;
  }

  lemma {:induction false} ViewsBut(q: seq<OrderRef>, k: nat)
    requires k < |q|
    ensures Views(q[..k] + q[k + 1..]) == Views(q)[..k] + Views(q)[k + 1..]
  {
    hide Views, OrderRef.View;
    var w, v := q[..k] + q[k + 1..], Views(q);
    forall j | 0 <= j < |w|
      ensures Views(w)[j] == (v[..k] + v[k + 1..])[j]
    {
      assert w[j] == q[if j < k then j else j + 1];
    }
  }

  /** Removing an object from the queue is removing its id from the queue's view. */
  lemma ViewsWithout(q: seq<OrderRef>, o: OrderRef)
    requires forall i, j :: 0 <= i < j < |q| ==> q[i].id != q[j].id
    requires o in q
    ensures Views(WithoutRef(q, o)) == Without(Views(q), o.id)
    ensures Holds(Views(q), o.id) && Views(q)[IndexOf(Views(q), o.id)] == o.View()
  {
    hide IndexOf, PositionOf, Views;
    SamePlace(q, o);
    ViewsBut(q, PositionOf(q, o));
  }

  lemma WithoutMembers(q: seq<OrderRef>, o: OrderRef)
    requires o in q && forall i, j :: 0 <= i < j < |q| ==> q[i].id != q[j].id
    ensures forall r :: r in WithoutRef(q, o) <==> r in q && r != o
    ensures forall i :: 0 <= i < |WithoutRef(q, o)| ==> WithoutRef(q, o)[i] in q && WithoutRef(q, o)[i] != o
    ensures forall i, j :: 0 <= i < j < |WithoutRef(q, o)| ==> WithoutRef(q, o)[i].id != WithoutRef(q, o)[j].id
  {
    var k, w := PositionOf(q, o), WithoutRef(q, o);
    forall i | 0 <= i < |w|
      ensures w[i] == q[if i < k then i else i + 1] && w[i] != o
    {
      assert k <= i ==> q[k].id != q[i + 1].id;
    }
    forall r | r in q && r != o
      ensures r in w
    {
      var i :| 0 <= i < |q| && q[i] == r;
      assert w[if i < k then i else i - 1] == r;
    }
  }

  // ------------------------------------------------------------------ inserting

  function InsertRef(q: seq<OrderRef>, k: nat, o: OrderRef): (r: seq<OrderRef>)
    requires k <= |q|
    ensures |r| == |q| + 1
  {
    q[..k] + [o] + q[k..]
  }

  lemma {:induction false} RefsAtAppend(a: seq<OrderRef>, b: seq<OrderRef>, price: int)
    ensures RefsAt(a + b, price) == RefsAt(a, price) + RefsAt(b, price)
  {
    if a == [] {
      assert a + b == b;
    } else {
      assert (a + b)[0] == a[0] && (a + b)[1..] == a[1..] + b;
      RefsAtAppend(a[1..], b, price);
    }
  }

  lemma {:induction false} NoneAt(q: seq<OrderRef>, price: int)
    requires forall i :: 0 <= i < |q| ==> RefPx(q[i]) != price
    ensures RefsAt(q, price) == []
  {
    if q != [] {
      NoneAt(q[1..], price);
    }
  }

  lemma RefsAtInsertParts(q: seq<OrderRef>, k: nat, o: OrderRef, price: int)
    requires k <= |q|
    ensures RefsAt(InsertRef(q, k, o), price) == RefsAt(q[..k], price) + RefsAt([o], price) + RefsAt(q[k..], price)
    ensures RefsAt(q, price) == RefsAt(q[..k], price) + RefsAt(q[k..], price)
  {
    hide RefsAt;
    RefsAtAppend(q[..k] + [o], q[k..], price);
    RefsAtAppend(q[..k], [o], price);
    RefsAtAppend(q[..k], q[k..], price);
    assert q[..k] + q[k..] == q;
  }

  lemma RefsAtOne(o: OrderRef, price: int)
    ensures RefsAt([o], price) == if RefPx(o) == price then [o] else []
  {
    assert RefsAt([o][1..], price) == [];
  }

  /** A new order behind all orders of its price is last on its level. */
  lemma RefsAtInsert(q: seq<OrderRef>, k: nat, o: OrderRef, price: int)
    requires k <= |q| && forall i :: k <= i < |q| ==> RefPx(q[i]) != RefPx(o)
    ensures RefsAt(InsertRef(q, k, o), price) == RefsAt(q, price) + (if RefPx(o) == price then [o] else [])
  {
    hide RefsAt, InsertRef;
    RefsAtInsertParts(q, k, o, price);
    RefsAtOne(o, price);
    if RefPx(o) == price {
      NoneAt(q[k..], price);
    }
  }

  lemma {:induction false} ViewsAppend(a: seq<OrderRef>, b: seq<OrderRef>)
    ensures Views(a + b) == Views(a) + Views(b)
  {
    if a == [] {
      assert a + b == b;
    } else {
      assert (a + b)[0] == a[0] && (a + b)[1..] == a[1..] + b;
      ViewsAppend(a[1..], b);
    }
  }

  lemma ViewsOne(o: OrderRef)
    ensures Views([o]) == [o.View()]
  {
  }

  lemma ViewsAround(a: seq<OrderRef>, o: OrderRef, b: seq<OrderRef>)
    ensures Views(a + [o] + b) == Views(a) + [o.View()] + Views(b)
  {
    hide Views;
    ViewsAppend(a + [o], b);
    ViewsAppend(a, [o]);
    ViewsOne(o);
  }

  lemma SplitAt(v: seq<Order>, a: seq<Order>, b: seq<Order>)
    requires v == a + b
    ensures v[..|a|] == a && v[|a|..] == b
  {
  }

  lemma InsertIs(q: seq<OrderRef>, k: nat, o: OrderRef)
    requires k <= |q|
    ensures InsertRef(q, k, o) == q[..k] + [o] + q[k..] && q == q[..k] + q[k..]
  {
  }

  lemma ViewsInsertAt(q: seq<OrderRef>, k: nat, o: OrderRef)
    requires k <= |q|
    ensures Views(InsertRef(q, k, o)) == Views(q)[..k] + [o.View()] + Views(q)[k..]
  {
    hide Views, OrderRef.View, InsertRef;
    var a, b := q[..k], q[k..];
    InsertIs(q, k, o);
    ViewsAround(a, o, b);
    ViewsAppend(a, b);
    SplitAt(Views(q), Views(a), Views(b));
  }

  lemma ViewsInsert(q: seq<OrderRef>, o: OrderRef)
    ensures var k := Slot(Views(q), o.View());
            k <= |q| && Views(InsertRef(q, k, o)) == Insert(Views(q), o.View())
  {
    hide Slot, Views;
    ViewsInsertAt(q, Slot(Views(q), o.View()), o);
  }

  lemma InsertMembers(q: seq<OrderRef>, k: nat, o: OrderRef)
    requires k <= |q| && forall i, j :: 0 <= i < j < |q| ==> q[i].id != q[j].id
    requires forall i :: 0 <= i < |q| ==> q[i].id != o.id
    ensures forall r :: r in InsertRef(q, k, o) <==> r in q || r == o
    ensures forall i, j :: 0 <= i < j < |q| + 1 ==> InsertRef(q, k, o)[i].id != InsertRef(q, k, o)[j].id
  {
    var w := InsertRef(q, k, o);
    forall i | 0 <= i < |w|
      ensures w[i] == if i < k then q[i] else if i == k then o else q[i - 1]
    {
    }
    forall i | 0 <= i < |q|
      ensures q[i] == w[if i < k then i else i + 1]
    {
    }
    assert w[k] == o;
  }

  lemma {:induction false} ViewsRefsAt(q: seq<OrderRef>, price: int)
    ensures Views(RefsAt(q, price)) == At(Views(q), price)
  {
    if q != [] {
      ViewsRefsAt(q[1..], price);
      assert Views(q)[1..] == Views(q[1..]);
      if RefPx(q[0]) == price {
        var r := RefsAt(q, price);
        assert r[1..] == RefsAt(q[1..], price);
      }
    }
  }

  // ------------------------------------------------------------------- the index

  lemma IndexedWithoutBid(orders: map<string, OrderRef>, bidQ: seq<OrderRef>, askQ: seq<OrderRef>, o: OrderRef)
    requires Indexed(orders, bidQ, askQ) && o in bidQ && o !in askQ
    requires forall i, j :: 0 <= i < j < |bidQ| ==> bidQ[i].id != bidQ[j].id
    ensures Indexed(orders - {o.id}, WithoutRef(bidQ, o), askQ)
  {
    hide WithoutRef;
    var w := WithoutRef(bidQ, o);
    WithoutMembers(bidQ, o);
    forall i | 0 <= i < |w|
      ensures w[i].id in orders && orders[w[i].id] == w[i] && w[i].id != o.id
    {
      assert w[i] in bidQ && w[i] != o;
    }
    forall i | 0 <= i < |askQ|
      ensures askQ[i].id != o.id
    {
      assert askQ[i] in askQ && orders[o.id] == o;
    }
  }

  lemma IndexedSymmetric(orders: map<string, OrderRef>, bidQ: seq<OrderRef>, askQ: seq<OrderRef>)
    ensures Indexed(orders, bidQ, askQ) <==> Indexed(orders, askQ, bidQ)
  {
  }

  /** Removing an order from whichever queue it is on, and its id from the index. */
  lemma IndexedWithout(orders: map<string, OrderRef>, own: seq<OrderRef>, other: seq<OrderRef>, o: OrderRef)
    requires Indexed(orders, own, other) && o in own && o !in other
    requires forall i, j :: 0 <= i < j < |own| ==> own[i].id != own[j].id
    ensures Indexed(orders - {o.id}, WithoutRef(own, o), other)
    ensures Indexed(orders - {o.id}, other, WithoutRef(own, o))
  {
    IndexedWithoutBid(orders, own, other, o);
    IndexedSymmetric(orders - {o.id}, WithoutRef(own, o), other);
  }

  lemma IndexedInsert(orders: map<string, OrderRef>, own: seq<OrderRef>, other: seq<OrderRef>, k: nat, o: OrderRef)
    requires Indexed(orders, own, other) && o.id !in orders && k <= |own|
    ensures Indexed(orders[o.id := o], InsertRef(own, k, o), other)
    ensures Indexed(orders[o.id := o], other, InsertRef(own, k, o))
  {
    var w := InsertRef(own, k, o);
    forall i | 0 <= i < |w|
      ensures w[i] == if i < k then own[i] else if i == k then o else own[i - 1]
    {
    }
    forall i | 0 <= i < |own|
      ensures own[i] == w[if i < k then i else i + 1]
    {
    }
    assert w[k] == o;
  }

  lemma NewToQueue(orders: map<string, OrderRef>, own: seq<OrderRef>, other: seq<OrderRef>, id: string)
    requires Indexed(orders, own, other) && id !in orders
    ensures forall i :: 0 <= i < |own| ==> own[i].id != id
    ensures forall i :: 0 <= i < |other| ==> other[i].id != id
  {
  }
}
