/** The book of the Node engine: two sides of linked levels, one map from id to
    order, and the trades.  Matching, resting and cancelling do to it exactly
    what the value functions say, as they do to the worker's book.  Stops are
    not part of it. */
module NodeBook {
  import opened Types
  import opened Matching
  import opened BookSpec
  import opened Invariant
  import opened Recovery
  import opened LinkedLevel
  import opened NodeSide

  // ---------------------------------------------------------------- one side

  /** All objects of a side. */
  ghost function Footprint(levels: map<int, Level>): set<object>
    reads Objects(levels)
  {
    Objects(levels) + Nodes(levels)
  }

  /** The order hangs on the level of its price. */
  ghost predicate OnSide(levels: map<int, Level>, o: OrderNode)
    reads Objects(levels)
  {
    o.price.Some? && o.price.value in levels
    && var level := levels[o.price.value]; level in Objects(levels) && o in level.nodes
  }

  /** The id map has exactly the orders of this side, among those for it. */
  ghost predicate Knows(ids: map<string, OrderNode>, levels: map<int, Level>, v: seq<Order>, side: Side)
    reads Objects(levels)
  {
    && (forall id :: id in Ids(v) ==> id in ids && ids[id].side == side)
    && (forall id :: id in ids && ids[id].side == side ==> id in Ids(v) && ids[id].id == id && OnSide(levels, ids[id]))
  }

  ghost predicate SideValid(levels: map<int, Level>, v: seq<Order>, side: Side, symbol: string, ids: map<string, OrderNode>)
    reads Footprint(levels)
  {
    SideIs(levels, v) && SideOk(v, side, symbol) && Knows(ids, levels, v, side)
  }

  /** Every order of the queue is a node of some level. */
  lemma NodeOf(levels: map<int, Level>, v: seq<Order>, id: string) returns (p: int, i: nat)
    requires SideIs(levels, v) && id in Ids(v)
    ensures p in levels && i < |levels[p].nodes| && levels[p].nodes[i].id == id && levels[p].nodes[i].price == Some(p)
  {
    hide Sum, Views;
    var k :| 0 <= k < |v| && v[k].id == id;
    p := Px(v[k]);
    assert LevelIs(levels[p], v, p);
    i := InLevel(v, k);
    assert levels[p].View()[i] == v[k];
  }

  lemma {:induction false} InLevel(v: seq<Order>, k: nat) returns (i: nat)
    requires k < |v|
    ensures i < |At(v, Px(v[k]))| && At(v, Px(v[k]))[i] == v[k]
  {
    if k == 0 {
      i := 0;
    } else {
      i := InLevel(v[1..], k - 1);
      if Px(v[0]) == Px(v[k]) {
        i := i + 1;
      }
    }
  }

  lemma SamePlace(v: seq<Order>, k: nat, l: nat)
    requires NoDup(v) && k < |v| && l < |v| && v[k].id == v[l].id
    ensures k == l
  {
  }

  /** On a side no two nodes have the same id. */
  lemma OneNode(levels: map<int, Level>, v: seq<Order>, p: int, i: nat, q: int, j: nat)
    requires SideIs(levels, v) && NoDup(v) && p in levels && i < |levels[p].nodes| && q in levels && j < |levels[q].nodes|
    requires levels[p].nodes[i].id == levels[q].nodes[j].id
    ensures levels[p].nodes[i] == levels[q].nodes[j]
  {
    hide Sum, Views, At;
    assert LevelIs(levels[p], v, p) && LevelIs(levels[q], v, q);
    var a, b := levels[p].View()[i], levels[q].View()[j];
    var k :| 0 <= k < |v| && v[k] == a;
    var l :| 0 <= l < |v| && v[l] == b;
    SamePlace(v, k, l);
    assert p == q;
    LevelDistinct(levels[p], v, p);
  }

  /** The nodes of a side, none of them twice under one id. */
  ghost predicate Distinct(nodes: set<object>) {
    forall a: OrderNode, b: OrderNode :: a in nodes && b in nodes && a.id == b.id ==> a == b
  }

  lemma NodesDistinct(levels: map<int, Level>, v: seq<Order>)
    requires SideIs(levels, v) && NoDup(v)
    ensures Distinct(Nodes(levels))
  {
    hide SideIs, NoDup;
    forall a: OrderNode, b: OrderNode | a in Nodes(levels) && b in Nodes(levels) && a.id == b.id
      ensures a == b
    {
      var p, i :| p in levels && 0 <= i < |levels[p].nodes| && levels[p].nodes[i] == a;
      var q, j :| q in levels && 0 <= j < |levels[q].nodes| && levels[q].nodes[j] == b;
      OneNode(levels, v, p, i, q, j);
    }
  }

  /** An id map whose orders are among the nodes there were still knows the side after it has changed. */
  lemma StillKnown(ids: map<string, OrderNode>, levels: map<int, Level>, v: seq<Order>, side: Side, nodes: set<object>)
    requires SideIs(levels, v) && Distinct(nodes)
    requires forall p :: p in levels ==> forall i :: 0 <= i < |levels[p].nodes| ==> levels[p].nodes[i] in nodes
    requires forall id :: id in Ids(v) ==> id in ids && ids[id].side == side
    requires forall id :: id in ids && ids[id].side == side ==> id in Ids(v) && ids[id].id == id && ids[id] in nodes
    ensures Knows(ids, levels, v, side)
  {
    hide SideIs, Ids;
    forall id | id in ids && ids[id].side == side
      ensures OnSide(levels, ids[id])
    {
      var p, i := NodeOf(levels, v, id);
      assert levels[p].nodes[i] in nodes;
    }
  }

  /** The orders of a side that the id map knows are nodes of it. */
  lemma KnownNodes(ids: map<string, OrderNode>, levels: map<int, Level>, v: seq<Order>, side: Side)
    requires Knows(ids, levels, v, side)
    ensures forall id :: id in Ids(v) ==> id in ids && ids[id].side == side
    ensures forall id :: id in ids && ids[id].side == side ==> id in Ids(v) && ids[id].id == id && ids[id] in Nodes(levels)
  {
    hide Ids;
    forall id | id in ids && ids[id].side == side
      ensures ids[id] in Nodes(levels)
    {
      var o := ids[id];
      var i :| 0 <= i < |levels[o.price.value].nodes| && levels[o.price.value].nodes[i] == o;
    }
  }

  /** The node of a side tells the side, and points at its level. */
  lemma NodeTells(levels: map<int, Level>, v: seq<Order>, side: Side, symbol: string, p: int, i: nat)
    requires SideIs(levels, v) && SideOk(v, side, symbol) && p in levels && i < |levels[p].nodes|
    ensures levels[p].nodes[i].side == side && levels[p].nodes[i].level == levels[p]
  {
    hide Sum, Views, At, LiveQueue, Sorted, NoDup;
    assert LevelIs(levels[p], v, p) && levels[p].View()[i] in v;
  }

  lemma HasNode(levels: map<int, Level>, v: seq<Order>, p: int)
    requires SideIs(levels, v) && p in levels
    ensures levels[p].nodes != []
  {
    assert LevelIs(levels[p], v, p);
  }

  /** The two sides share neither levels nor orders. */
  lemma SidesApart(l: map<int, Level>, v: seq<Order>, m: map<int, Level>, w: seq<Order>, side: Side, symbol: string)
    requires SideIs(l, v) && SideOk(v, side, symbol) && SideIs(m, w) && SideOk(w, Other(side), symbol)
    ensures Footprint(l) !! Footprint(m)
  {
    hide SideIs, SideOk;
    forall p, q | p in l && q in m
      ensures l[p] != m[q]
    {
      HasNode(l, v, p);
      NodeTells(l, v, side, symbol, p, 0);
      HasNode(m, w, q);
      NodeTells(m, w, Other(side), symbol, q, 0);
    }
    forall p, q, i, j | p in l && q in m && 0 <= i < |l[p].nodes| && 0 <= j < |m[q].nodes|
      ensures l[p].nodes[i] != m[q].nodes[j]
    {
      NodeTells(l, v, side, symbol, p, i);
      NodeTells(m, w, Other(side), symbol, q, j);
    }
  }

  /** An order that hangs nowhere belongs to no side. */
  lemma Unattached(levels: map<int, Level>, v: seq<Order>, o: OrderNode)
    requires SideIs(levels, v) && o.level == null
    ensures o !in Footprint(levels)
  {
    hide Sum, Views, At;
    forall p, i | p in levels && 0 <= i < |levels[p].nodes|
      ensures levels[p].nodes[i] != o
    {
      assert LevelIs(levels[p], v, p);
    }
  }

  lemma SideIsQueue(v: seq<Order>, side: Side, symbol: string)
    requires SideOk(v, side, symbol)
    ensures Queue(v, side) && LiveQueue(v) && NoDup(v)
  {
  }

  // -------------------------------------------------------- what a step changes

  /** Taking ids of one side out of the map leaves what it knows of the other. */
  lemma OtherStillKnown(ids: map<string, OrderNode>, gone: set<string>, levels: map<int, Level>, v: seq<Order>, side: Side)
    requires Knows(ids, levels, v, side) && forall id :: id in ids && id in gone ==> ids[id].side != side
    ensures Knows(ids - gone, levels, v, side)
  {
    hide Ids;
  }

  /** After matching, the map knows what is left. */
  lemma MatchedKnown(ids: map<string, OrderNode>, v: seq<Order>, side: Side, nodes: set<object>, levels': map<int, Level>,
                     v': seq<Order>, ids': map<string, OrderNode>)
    requires Distinct(nodes) && SideIs(levels', v') && Dropped(ids, v, ids', v')
    requires forall id :: id in Ids(v) ==> id in ids && ids[id].side == side
    requires forall id :: id in ids && ids[id].side == side ==> id in Ids(v) && ids[id].id == id && ids[id] in nodes
    requires forall p :: p in levels' ==> forall i :: 0 <= i < |levels'[p].nodes| ==> levels'[p].nodes[i] in nodes
    ensures Knows(ids', levels', v', side)
  {
    hide Ids, SideIs, Knows, NoDup;
    StillKnown(ids', levels', v', side, nodes);
  }

  /** Match an order against one side; the other side is not touched. */
  method MatchOn(levels: map<int, Level>, ghost v: seq<Order>, ghost other: map<int, Level>, ghost w: seq<Order>,
                 incoming: OrderNode, ignorePrice: bool, ids: map<string, OrderNode>, ghost symbol: string)
    returns (ts: seq<Trade>, levels': map<int, Level>, ghost v': seq<Order>, ids': map<string, OrderNode>)
    requires SideValid(levels, v, Other(incoming.side), symbol, ids) && SideValid(other, w, incoming.side, symbol, ids)
    requires Incoming(incoming.View()) && incoming.level == null && (!ignorePrice ==> incoming.price.Some?)
    modifies incoming`remaining, incoming`status, Footprint(levels)
    ensures Match(old(incoming.View()), v, ignorePrice) == Matched(incoming.View(), v', ts)
    ensures SideValid(levels', v', Other(incoming.side), symbol, ids') && SideValid(other, w, incoming.side, symbol, ids')
    ensures Incoming(incoming.View()) && ids'.Keys <= ids.Keys
    ensures Footprint(levels') <= old(Footprint(levels)) && Footprint(other) == old(Footprint(other))
  {
    hide SideIs, SideOk, Incoming, LiveQueue, Match, Ids, NoDup, Queue;
    ghost var side, nodes := Other(incoming.side), Nodes(levels);
    SideIsQueue(v, side, symbol);
    NodesDistinct(levels, v);
    KnownNodes(ids, levels, v, side);
    SidesApart(levels, v, other, w, side, symbol);
    Unattached(levels, v, incoming);
    Unattached(other, w, incoming);
    MatchLeavesEnd(incoming.View(), v, ignorePrice);
    ts, levels', v', ids' := MatchOrder(levels, v, incoming, ignorePrice, ids);
    QueueIsLive(levels', v', incoming, ignorePrice);
    EndKeepsSide(v, v', side, symbol);
    MatchedKnown(ids, v, side, nodes, levels', v', ids');
    assert SideIs(other, w);
    OtherStillKnown(ids, Ids(v) - Ids(v'), other, w, incoming.side);
  }

  lemma QueueIsLive(levels: map<int, Level>, v: seq<Order>, incoming: OrderNode, ignorePrice: bool)
    requires Offered(levels, v, incoming, ignorePrice)
    ensures LiveQueue(v) && SideIs(levels, v) && Incoming(incoming.View())
  {
  }

  /** After resting, the map knows the new order too. */
  lemma RestedKnown(ids: map<string, OrderNode>, v: seq<Order>, side: Side, nodes: set<object>, o: OrderNode,
                    levels': map<int, Level>, v': seq<Order>)
    requires Distinct(nodes) && SideIs(levels', v') && o.side == side && Ids(v') == Ids(v) + {o.id} && o.id !in ids
    requires forall id :: id in Ids(v) ==> id in ids && ids[id].side == side
    requires forall id :: id in ids && ids[id].side == side ==> id in Ids(v) && ids[id].id == id && ids[id] in nodes
    requires forall a: OrderNode :: a in nodes ==> a.id in Ids(v)
    requires forall p :: p in levels' ==> forall i :: 0 <= i < |levels'[p].nodes| ==>
               levels'[p].nodes[i] in nodes || levels'[p].nodes[i] == o
    ensures Knows(ids[o.id := o], levels', v', side)
  {
    hide Ids, SideIs, Knows, NoDup;
    StillKnown(ids[o.id := o], levels', v', side, nodes + {o});
  }

  /** The nodes of a side have the ids of its queue. */
  lemma NodeIds(levels: map<int, Level>, v: seq<Order>)
    requires SideIs(levels, v)
    ensures forall a: OrderNode :: a in Nodes(levels) ==> a.id in Ids(v)
  {
    hide Sum, Views, At, SideIs;
    forall p, i | p in levels && 0 <= i < |levels[p].nodes|
      ensures levels[p].nodes[i].id in Ids(v)
    {
      IdOfNode(levels, v, p, i);
    }
  }

  lemma IdOfNode(levels: map<int, Level>, v: seq<Order>, p: int, i: nat)
    requires SideIs(levels, v) && p in levels && i < |levels[p].nodes|
    ensures levels[p].nodes[i].id in Ids(v)
  {
    hide Sum, Views, At;
    assert LevelIs(levels[p], v, p);
    var o := levels[p].View()[i];
    var k :| 0 <= k < |v| && v[k] == o;
  }

  lemma OtherKnownToo(ids: map<string, OrderNode>, o: OrderNode, levels: map<int, Level>, v: seq<Order>, side: Side)
    requires Knows(ids, levels, v, side) && o.id !in ids && o.side != side
    ensures Knows(ids[o.id := o], levels, v, side)
  {
    hide Ids;
  }

  /** Rest a live order and enter it in the map; the other side is not touched. */
  method RestOn(levels: map<int, Level>, ghost v: seq<Order>, ghost other: map<int, Level>, ghost w: seq<Order>,
                o: OrderNode, ids: map<string, OrderNode>, ghost symbol: string)
    returns (levels': map<int, Level>, ids': map<string, OrderNode>)
    requires SideValid(levels, v, o.side, symbol, ids) && SideValid(other, w, Other(o.side), symbol, ids)
    requires Live(o.View()) && o.symbol == symbol && o.id !in ids
    requires o.level == null && o.prev == null && o.next == null
    modifies Footprint(levels), o
    ensures o.View() == old(o.View())
    ensures SideValid(levels', Insert(v, o.View()), o.side, symbol, ids')
    ensures SideValid(other, w, Other(o.side), symbol, ids') && Footprint(other) == old(Footprint(other))
  {
    hide SideIs, SideOk, Live, LiveQueue, Ids, NoDup, Queue, Insert, Knows;
    ghost var x, nodes := o.View(), Nodes(levels);
    SideIsQueue(v, o.side, symbol);
    NodesDistinct(levels, v);
    NodeIds(levels, v);
    KnownNodes(ids, levels, v, o.side);
    SidesApart(levels, v, other, w, o.side, symbol);
    Unattached(other, w, o);
    InsertKeepsSide(v, x, o.side);
    InsertIds(v, x);
    levels' := Rest(levels, v, o);
    ids' := ids[o.id := o];
    RestedKnown(ids, v, o.side, nodes, o, levels', Insert(v, x));
    assert SideIs(other, w);
    OtherKnownToo(ids, o, other, w, Other(o.side));
  }

  /** After cancelling, the map knows what is left. */
  lemma CancelledKnown(ids: map<string, OrderNode>, v: seq<Order>, side: Side, nodes: set<object>, id: string,
                       levels': map<int, Level>, v': seq<Order>)
    requires Distinct(nodes) && SideIs(levels', v') && Ids(v') == Ids(v) - {id}
    requires forall i :: i in Ids(v) ==> i in ids && ids[i].side == side
    requires forall i :: i in ids && ids[i].side == side ==> i in Ids(v) && ids[i].id == i && ids[i] in nodes
    requires forall p :: p in levels' ==> forall i :: 0 <= i < |levels'[p].nodes| ==> levels'[p].nodes[i] in nodes
    ensures Knows(ids - {id}, levels', v', side)
  {
    hide Ids, SideIs, Knows, NoDup;
    StillKnown(ids - {id}, levels', v', side, nodes);
  }

  /** Cancel an order of this side and take it out of the map; the other side is not touched. */
  method TakeOff(levels: map<int, Level>, ghost v: seq<Order>, ghost other: map<int, Level>, ghost w: seq<Order>,
                 o: OrderNode, ids: map<string, OrderNode>, ghost symbol: string)
    returns (levels': map<int, Level>, ids': map<string, OrderNode>)
    requires SideValid(levels, v, o.side, symbol, ids) && SideValid(other, w, Other(o.side), symbol, ids)
    requires o.id in ids && ids[o.id] == o
    modifies Footprint(levels)
    ensures o.View() == old(o.View()).(status := Cancelled)
    ensures SideValid(levels', Without(v, o.id), o.side, symbol, ids')
    ensures SideValid(other, w, Other(o.side), symbol, ids') && Footprint(other) == old(Footprint(other))
  {
    hide SideIs, SideOk, LiveQueue, Ids, NoDup, Queue, Without;
    ghost var nodes := Nodes(levels);
    SideIsQueue(v, o.side, symbol);
    NodesDistinct(levels, v);
    KnownNodes(ids, levels, v, o.side);
    SidesApart(levels, v, other, w, o.side, symbol);
    WithoutKeepsSide(v, o.id, o.side, symbol);
    levels' := CancelResting(levels, v, o);
    ids' := ids - {o.id};
    CancelledKnown(ids, v, o.side, nodes, o.id, levels', Without(v, o.id));
    assert SideIs(other, w);
    OtherStillKnown(ids, {o.id}, other, w, Other(o.side));
  }

  // ---------------------------------------------------------------- the book

  class OrderBook {
    const symbol: string
    var bids: map<int, Level>
    var asks: map<int, Level>
    var ordersById: map<string, OrderNode>
    var trades: seq<Trade>
    ghost var bidQueue: seq<Order>
    ghost var askQueue: seq<Order>

    ghost predicate Valid()
      reads this, Footprint(bids), Footprint(asks)
    {
      SideValid(bids, bidQueue, Buy, symbol, ordersById) && SideValid(asks, askQueue, Sell, symbol, ordersById)
    }

    /** The book stands for a value, as far as its queues and trades go. */
    ghost predicate Stands(b: Book)
      reads this
    {
      b.symbol == symbol && b.bids == bidQueue && b.asks == askQueue && b.trades == trades
    }

    constructor (symbol: string)
      requires !NodeBlank(symbol)
      ensures Valid() && Stands(EmptyBook(symbol)) && ordersById == map[]
    {
      this.symbol := symbol;
      bids, asks, ordersById, trades := map[], map[], map[], [];
      bidQueue, askQueue := [], [];
    }

    /** The book is not part of its sides. */
    lemma Foreign(levels: map<int, Level>)
      ensures this !in Footprint(levels) && this !in Objects(levels)
    {
    }

    lemma NotMine(o: OrderNode)
      requires Valid() && o.level == null
      ensures o !in Footprint(bids) && o !in Footprint(asks) && o !in Objects(bids) && o !in Objects(asks)
    {
      hide SideIs, SideOk, Knows, Footprint;
      Unattached(bids, bidQueue, o);
      Unattached(asks, askQueue, o);
    }

    /** An incoming buy order meets the asks. */
    method MatchBuy(incoming: OrderNode, ignorePrice: bool) returns (ts: seq<Trade>)
      requires Valid() && Incoming(incoming.View()) && incoming.level == null && (!ignorePrice ==> incoming.price.Some?)
      requires incoming.side == Buy
      modifies this, incoming`remaining, incoming`status, Footprint(asks)
      ensures Valid() && Incoming(incoming.View()) && ordersById.Keys <= old(ordersById.Keys)
      ensures bids == old(bids) && bidQueue == old(bidQueue) && Footprint(bids) == old(Footprint(bids))
      ensures Footprint(asks) <= old(Footprint(asks))
      ensures trades == old(trades) + ts
      ensures Match(old(incoming.View()), old(askQueue), ignorePrice) == Matched(incoming.View(), askQueue, ts)
    {
      hide SideValid, Incoming, Match, LiveQueue, Footprint, Objects;
      Foreign(bids);
      Foreign(asks);
      var levels, ids;
      ghost var v;
      ts, levels, v, ids := MatchOn(asks, askQueue, bids, bidQueue, incoming, ignorePrice, ordersById, symbol);
      Foreign(levels);
      asks, askQueue, ordersById, trades := levels, v, ids, trades + ts;
    }

    /** An incoming sell order meets the bids. */
    method MatchSell(incoming: OrderNode, ignorePrice: bool) returns (ts: seq<Trade>)
      requires Valid() && Incoming(incoming.View()) && incoming.level == null && (!ignorePrice ==> incoming.price.Some?)
      requires incoming.side == Sell
      modifies this, incoming`remaining, incoming`status, Footprint(bids)
      ensures Valid() && Incoming(incoming.View()) && ordersById.Keys <= old(ordersById.Keys)
      ensures asks == old(asks) && askQueue == old(askQueue) && Footprint(asks) == old(Footprint(asks))
      ensures Footprint(bids) <= old(Footprint(bids))
      ensures trades == old(trades) + ts
      ensures Match(old(incoming.View()), old(bidQueue), ignorePrice) == Matched(incoming.View(), bidQueue, ts)
    {
      hide SideValid, Incoming, Match, LiveQueue, Footprint, Objects;
      Foreign(bids);
      Foreign(asks);
      var levels, ids;
      ghost var v;
      ts, levels, v, ids := MatchOn(bids, bidQueue, asks, askQueue, incoming, ignorePrice, ordersById, symbol);
      Foreign(levels);
      bids, bidQueue, ordersById, trades := levels, v, ids, trades + ts;
    }

    /** Rest what is left of a limit order. */
    method AddResting(o: OrderNode)
      requires Valid() && Live(o.View()) && o.symbol == symbol && o.id !in ordersById
      requires o.level == null && o.prev == null && o.next == null
      modifies this, o, Footprint(bids), Footprint(asks)
      ensures Valid() && o.View() == old(o.View()) && trades == old(trades)
      ensures bidQueue == if o.side == Buy then Insert(old(bidQueue), o.View()) else old(bidQueue)
      ensures askQueue == if o.side == Sell then Insert(old(askQueue), o.View()) else old(askQueue)
    {
      hide SideValid, Live, Insert, Footprint, Objects;
      Foreign(bids);
      Foreign(asks);
      if o.side == Buy {
        var levels, ids := RestOn(bids, bidQueue, asks, askQueue, o, ordersById, symbol);
        Foreign(levels);
        bids, ordersById, bidQueue := levels, ids, Insert(bidQueue, o.View());
      } else {
        var levels, ids := RestOn(asks, askQueue, bids, bidQueue, o, ordersById, symbol);
        Foreign(levels);
        asks, ordersById, askQueue := levels, ids, Insert(askQueue, o.View());
      }
    }

    /** Placing a validated order, up to the stops it may trigger: match it, then rest or drop what is left. */
    method Submit(o: OrderNode, ghost b: Book) returns (ts: seq<Trade>)
      requires Valid() && Stands(b) && Incoming(o.View()) && o.symbol == symbol && o.id !in ordersById
      requires o.level == null && o.prev == null && o.next == null
      modifies this, o, Footprint(bids), Footprint(asks)
      ensures Valid() && Sane(b)
      ensures var r := BookSpec.Submit(b, old(o.View())); Stands(r.book) && o.View() == r.order && ts == r.trades
    {
      hide SideValid, Match, Insert, LiveQueue, Footprint;
      SaneBook(b);
      NotMine(o);
      if o.side == Buy {
        ts := MatchBuy(o, o.typ != Limit);
      } else {
        ts := MatchSell(o, o.typ != Limit);
      }
      if o.typ == Limit && o.remaining > 0 {
        AddResting(o);
      } else if o.remaining > 0 {
        DropRest(o);
      }
    }

    /** Drop what is left of a market order. */
    method DropRest(o: OrderNode)
      requires Valid() && Incoming(o.View()) && o.remaining > 0 && o.level == null
      modifies o`status
      ensures Valid() && o.View() == old(o.View()).(status := Cancelled)
    {
      hide SideValid;
      NotMine(o);
      var error := o.CancelUp();
      assert error == None;
    }

    lemma SaneBook(b: Book)
      requires Valid() && Stands(b)
      ensures Sane(b)
    {
    }

    /** Cancel by id: the order found, or that there is none.  None of the checks on the way refuses. */
    method CancelResting(id: string, ghost b: Book) returns (r: Result<Order, Error>)
      requires Valid() && Stands(b) && !HoldsStop(b.stops, id)
      modifies this, Footprint(bids), Footprint(asks)
      ensures Valid() && Sane(b) && Stands(CancelById(b, id).book)
      ensures match CancelById(b, id).outcome
              case Ok(reply) => r.Ok? && reply.placed == OrderPlaced(r.value)
              case Err(error) => r == Err(error)
    {
      hide SideValid, Without, IndexOf, LiveQueue, Footprint, Objects;
      SaneBook(b);
      KnownIs(b, id);
      Foreign(bids);
      Foreign(asks);
      if id !in ordersById {
        return Err(OrderNotFound);
      }
      var o := ordersById[id];
      if o.side == Buy {
        var levels, ids := TakeOff(bids, bidQueue, asks, askQueue, o, ordersById, symbol);
        Foreign(levels);
        bids, ordersById, bidQueue := levels, ids, Without(bidQueue, id);
      } else {
        var levels, ids := TakeOff(asks, askQueue, bids, bidQueue, o, ordersById, symbol);
        Foreign(levels);
        asks, ordersById, askQueue := levels, ids, Without(askQueue, id);
      }
      return Ok(o.View());
    }

    /** The map finds the order that the queues hold under an id. */
    lemma KnownIs(b: Book, id: string)
      requires Valid() && Stands(b)
      ensures Holds(b.bids, id) <==> id in ordersById && ordersById[id].side == Buy
      ensures Holds(b.asks, id) <==> id in ordersById && ordersById[id].side == Sell
      ensures id in ordersById ==>
                var q := Own(b, ordersById[id].side);
                ordersById[id].id == id && Holds(q, id) && ordersById[id].View() == q[IndexOf(q, id)]
    {
      hide SideOk, Ids, SideIs, IndexOf;
      HoldsIffIn(b.bids, id);
      HoldsIffIn(b.asks, id);
      if id in ordersById {
        var o := ordersById[id];
        FoundOrder(if o.side == Buy then bids else asks, Own(b, o.side), o, o.side, symbol);
      }
    }
  }

  /** The view of a node is the order of the queue with its id. */
  lemma FoundOrder(levels: map<int, Level>, v: seq<Order>, o: OrderNode, side: Side, symbol: string)
    requires SideIs(levels, v) && SideOk(v, side, symbol) && OnSide(levels, o)
    ensures Holds(v, o.id) && v[IndexOf(v, o.id)] == o.View()
  {
    hide Sum, Views, At, LiveQueue, Sorted, IndexOf;
    var p := o.price.value;
    assert LevelIs(levels[p], v, p);
    var i :| 0 <= i < |levels[p].nodes| && levels[p].nodes[i] == o;
    assert levels[p].View()[i] == o.View();
    var k :| 0 <= k < |v| && v[k] == o.View();
    HoldsIffIn(v, o.id);
    SamePlace(v, k, IndexOf(v, o.id));
  }
}
