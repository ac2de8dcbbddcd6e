/** Writing a recovery snapshot from the heap book, and rebuilding a heap book from it. */
module GoRecovery {
  import opened Types
  import opened Matching
  import opened BookSpec
  import opened Invariant
  import opened Recovery
  import opened GoOrders
  import opened GoLevels
  import opened GoSide
  import opened GoStops
  import opened GoBook

  // ------------------------------------------------------------------- writing

  function Prices(v: seq<Order>): set<int> {
    set i | 0 <= i < |v| :: Px(v[i])
  }

  /** What lies beyond the best price has all the other prices, and the same levels at them. */
  lemma PricesBeyond(v: seq<Order>, side: Side, symbol: string)
    requires SideOk(v, side, symbol) && v != []
    ensures var w := Beyond(v, Px(v[0]));
            SideOk(w, side, symbol) && Prices(w) == Prices(v) - {Px(v[0])}
    ensures forall p :: p != Px(v[0]) ==> LevelOf(v, p) == LevelOf(Beyond(v, Px(v[0])), p)
  {
    hide SideOk, Beyond, At, Sum;
    var p := Px(v[0]);
    var a, w := At(v, p), Beyond(v, p);
    RestOk(v, side, symbol);
    forall i | 0 <= i < |w|
      ensures Px(w[i]) in Prices(v) && Px(w[i]) != p
    {
      assert v[|a| + i] == w[i];
      BeyondAllWorse(v, side, symbol, i);
    }
    forall i | 0 <= i < |v|
      ensures Px(v[i]) in Prices(w) || Px(v[i]) == p
    {
      if i < |a| {
        assert v[i] == a[i];
      } else {
        assert v[i] == w[i - |a|];
      }
    }
    forall q | q != p
      ensures LevelOf(v, q) == LevelOf(w, q)
    {
      LevelOfRest(v, side, symbol, q);
    }
  }

  lemma BeyondAllWorse(v: seq<Order>, side: Side, symbol: string, i: nat)
    requires SideOk(v, side, symbol) && v != [] && i < |Beyond(v, Px(v[0]))|
    ensures Px(Beyond(v, Px(v[0]))[i]) != Px(v[0])
  {
    hide Beyond, At, LiveQueue;
    var w := Beyond(v, Px(v[0]));
    RestOk(v, side, symbol);
    BeyondIsWorse(v, side, symbol);
    assert i > 0 ==> Rank(w[0]) <= Rank(w[i]);
  }

  /** A level of the map is the queue's level at its price. */
  lemma LevelIs(levels: map<int, PriceLevel>, q: seq<OrderRef>, side: Side, p: int)
    requires SideLinked(levels, q, side) && p in levels
    ensures var l := levels[p]; LevelOf(Views(q), p) == RecoveryLevel(l.price, l.total, |l.orders|, Views(l.orders))
    ensures p in Prices(Views(q))
  {
    hide Sum, Views;
    assert LevelLinked(levels[p], q, p, side);
    ViewsRefsAt(q, p);
    assert RefsAt(q, p)[0] in q;
    var i :| 0 <= i < |q| && q[i] == RefsAt(q, p)[0];
    assert Px(Views(q)[i]) == p;
  }

  lemma PricesAreKeys(levels: map<int, PriceLevel>, q: seq<OrderRef>, side: Side)
    requires SideLinked(levels, q, side)
    ensures levels.Keys == Prices(Views(q))
  {
    hide Sum, Views, LevelLinked, RefsAt;
    forall p | p in levels
      ensures p in Prices(Views(q))
    {
      LevelIs(levels, q, side, p);
    }
    forall i | 0 <= i < |q|
      ensures Px(Views(q)[i]) in levels
    {
      assert RefPx(q[i]) in levels;
    }
  }

  lemma BestOfPrices(v: seq<Order>, side: Side, symbol: string, best: int)
    requires SideOk(v, side, symbol) && best in Prices(v)
    requires forall p :: p in Prices(v) ==> if side == Sell then best <= p else p <= best
    ensures v != [] && Px(v[0]) == best
  {
    var i :| 0 <= i < |v| && Px(v[i]) == best;
    assert i > 0 ==> Rank(v[0]) <= Rank(v[i]);
    assert Px(v[0]) in Prices(v);
  }

  /** One level, with a copy of each of its orders. */
  method SnapshotLevel(level: PriceLevel) returns (l: RecoveryLevel)
    ensures l == RecoveryLevel(level.price, level.total, |level.orders|, Views(level.orders))
  {
    hide Views;
    var copies := [];
    for i := 0 to |level.orders|
      invariant copies == Views(level.orders)[..i]
    {
      copies := copies + [level.orders[i].View()];
    }
    l := RecoveryLevel(level.price, level.total, |level.orders|, copies);
  }

  /** The best of the levels that are left. */
  method SnapshotBest(ghost levels: map<int, PriceLevel>, rest: map<int, PriceLevel>, ghost q: seq<OrderRef>, bids: bool)
    returns (best: int, level: RecoveryLevel)
    requires SideLinked(levels, q, if bids then Buy else Sell)
    requires rest.Keys != {} && forall p :: p in rest ==> p in levels && rest[p] == levels[p]
    ensures SideLinked(levels, q, if bids then Buy else Sell) && Views(q) == old(Views(q))
    ensures best in rest && level == LevelOf(Views(q), best)
    ensures forall p :: p in rest ==> if bids then p <= best else best <= p
  {
    hide Views, RefsAt, Sum, At;
    var found;
    best, found := BestPrice(rest, !bids);
    LevelIs(levels, q, if bids then Buy else Sell, best);
    level := SnapshotLevel(rest[best]);
  }

  /** All levels of a side, from the best price to the worst, whatever order the map yields them in. */
  method SnapshotSide(levels: map<int, PriceLevel>, ghost q: seq<OrderRef>, bids: bool, ghost symbol: string)
    returns (out: seq<RecoveryLevel>)
    requires SideLinked(levels, q, if bids then Buy else Sell) && SideOk(Views(q), if bids then Buy else Sell, symbol)
    ensures out == Levels(Views(q)) && Views(q) == old(Views(q))
  {
    hide SideLinked, SideOk, Views, RefsAt, Sum, At, Beyond;
    ghost var side := if bids then Buy else Sell;
    ghost var v, w := Views(q), Views(q);
    PricesAreKeys(levels, q, side);
    var rest := levels;
    out := [];
    assert out + Levels(w) == Levels(v);
    while rest.Keys != {}
      invariant SideLinked(levels, q, side) && Views(q) == v
      invariant forall p :: p in rest ==> p in levels && rest[p] == levels[p]
      invariant SideOk(w, side, symbol) && Prices(w) == rest.Keys
      invariant forall p :: p in rest ==> LevelOf(w, p) == LevelOf(v, p)
      invariant out + Levels(w) == Levels(v)
      decreases rest.Keys
    {
      var best, level := SnapshotBest(levels, rest, q, bids);
      BestOfPrices(w, side, symbol, best);
      PricesBeyond(w, side, symbol);
      assert out + ([level] + Levels(Beyond(w, best))) == (out + [level]) + Levels(Beyond(w, best));
      out := out + [level];
      rest := rest - {best};
      w := Beyond(w, best);
    }
  }

  lemma ValidSides(book: EngineBook)
    requires book.Valid()
    ensures SideLinked(book.bids.levels, book.bids.queue, Buy) && SideOk(Views(book.bids.queue), Buy, book.symbol)
    ensures SideLinked(book.asks.levels, book.asks.queue, Sell) && SideOk(Views(book.asks.queue), Sell, book.symbol)
    ensures Listed(book.stopOrderIDs, book.stopOrders)
    ensures var b := book.State(); b.bids == Views(book.bids.queue) && b.asks == Views(book.asks.queue)
  {
    hide SideLinked, LiveQueue, StopsOk, Indexed;
  }

  /** The recovery snapshot of a book. */
  method RecoverySnapshot(book: EngineBook, lastCommandId: Option<nat>) returns (s: Snapshot)
    requires book.Valid()
    ensures s == SnapshotOf(old(book.State()), lastCommandId)
  {
    hide EngineBook.Valid, Levels, Sum, RefsAt, LiveQueue, WF, SideOk, Listed, Views, LevelLinked;
    ValidSides(book);
    ghost var b := book.State();
    var stops := SnapshotStops(book.stopOrderIDs, book.stopOrders);
    var bids := SnapshotSide(book.bids.levels, book.bids.queue, true, book.symbol);
    var asks := SnapshotSide(book.asks.levels, book.asks.queue, false, book.symbol);
    s := Snapshot(book.symbol, book.sequence, book.last, lastCommandId, bids, asks, stops);
  }

  method SnapshotStops(ids: seq<string>, stops: map<string, Stop>) returns (out: seq<Stop>)
    requires Listed(ids, stops)
    ensures out == StopsIn(ids, stops)
  {
    hide StopsIn;
    out := [];
    for i := 0 to |ids|
      invariant out == StopsIn(ids, stops)[..i]
    {
      out := out + [stops[ids[i]]];
    }
  }

  // ---------------------------------------------------------------- rebuilding

  /** The orders of a restored level, as new objects, and the level that holds them. */
  method RestoreLevel(saved: RecoveryLevel, ghost side: Side, orders: map<string, OrderRef>)
    returns (level: PriceLevel, ghost refs: seq<OrderRef>, orders': map<string, OrderRef>)
    ensures fresh(level) && level.price == saved.price && level.side == side
    ensures level.orders == refs && Views(refs) == Kept(saved.orders) && level.total == Sum(Kept(saved.orders))
    ensures forall i :: 0 <= i < |refs| ==> fresh(refs[i])
    ensures orders' == AllIndexed(orders, refs)
  {
    hide Views, Sum, Kept, AllIndexed;
    level := new PriceLevel(saved.price, side);
    refs, orders' := [], orders;
    KeptParts(saved.orders, 0);
    IndexedNone(orders);
    for i := 0 to |saved.orders|
      invariant level.orders == refs && Views(refs) == Kept(saved.orders[..i])
      invariant level.total == Sum(Kept(saved.orders[..i]))
      invariant forall j :: 0 <= j < |refs| ==> fresh(refs[j])
      invariant orders' == AllIndexed(orders, refs)
    {
      KeptParts(saved.orders, i + 1);
      var value := saved.orders[i];
      if value.remaining > 0 {
        var o := new OrderRef(value);
        ghost var v := Views(refs);
        level.Append(o);
        IndexedMore(orders, refs, o);
        SumWithOrder(v, value);
        refs := refs + [o];
        orders' := orders'[o.id := o];
        assert Views(refs) == v + [value];
      }
    }
    assert saved.orders[..|saved.orders|] == saved.orders;
  }

  /** The index after the orders of a level have been entered. */
  function AllIndexed(orders: map<string, OrderRef>, refs: seq<OrderRef>): map<string, OrderRef> {
    if refs == [] then orders
    else AllIndexed(orders, refs[..|refs| - 1])[refs[|refs| - 1].id := refs[|refs| - 1]]
  }

  lemma IndexedNone(orders: map<string, OrderRef>)
    ensures AllIndexed(orders, []) == orders && Views([]) == []
  {
  }

  lemma IndexedMore(orders: map<string, OrderRef>, refs: seq<OrderRef>, o: OrderRef)
    ensures AllIndexed(orders, refs + [o]) == AllIndexed(orders, refs)[o.id := o]
  {
    assert (refs + [o])[..|refs|] == refs;
  }

  lemma SumWithOrder(v: seq<Order>, o: Order)
    ensures Sum(v + [o]) == Sum(v) + o.remaining
  {
    SumAppend(v, [o]);
    assert Sum([o]) == o.remaining;
  }

  lemma KeptParts(q: seq<Order>, i: nat)
    requires i <= |q|
    ensures i == 0 ==> Kept(q[..i]) == [] && Sum(Kept(q[..i])) == 0
    ensures i > 0 ==> Kept(q[..i]) == Kept(q[..i - 1]) + (if q[i - 1].remaining > 0 then [q[i - 1]] else [])
  {
    if i > 0 {
      assert q[..i] == q[..i - 1] + [q[i - 1]];
      KeptAppend(q[..i - 1], [q[i - 1]]);
      assert Kept([q[i - 1]][1..]) == [];
    }
  }

  /** Which saved levels can be rebuilt: the orders that are kept have the price of their level, and no price has two
      levels with such orders.  Totals, counts and spent orders do not matter. */
  predicate LevelsApart(saved: seq<RecoveryLevel>) {
    && (forall k, o :: 0 <= k < |saved| && o in Kept(saved[k].orders) ==> Px(o) == saved[k].price)
    && forall j, k :: 0 <= j < k < |saved| && Kept(saved[j].orders) != [] && Kept(saved[k].orders) != [] ==>
         saved[j].price != saved[k].price
  }

  /** A snapshot from which a well-formed book can be rebuilt. */
  predicate Sound(s: Snapshot) {
    Restore(s).Ok? && WF(Restore(s).value) && LevelsApart(s.bids) && LevelsApart(s.asks)
  }

  /** The saved levels of a queue can be rebuilt. */
  lemma LevelsOfQueue(q: seq<Order>, side: Side, symbol: string)
    requires SideOk(q, side, symbol)
    ensures LevelsApart(Levels(q))
  {
    hide SideOk, Levels, Kept, Sum;
    var saved := Levels(q);
    forall k, o | 0 <= k < |saved| && o in Kept(saved[k].orders)
      ensures Px(o) == saved[k].price
    {
      LevelsAreExact(q, side, symbol, k);
    }
    forall j, k | 0 <= j < k < |saved|
      ensures saved[j].price != saved[k].price
    {
      LevelsDiffer(q, side, symbol, j, k);
    }
  }

  lemma {:induction false} LevelsDiffer(q: seq<Order>, side: Side, symbol: string, j: nat, k: nat)
    requires SideOk(q, side, symbol) && j < k < |Levels(q)|
    ensures if side == Buy then Levels(q)[k].price < Levels(q)[j].price else Levels(q)[k].price > Levels(q)[j].price
    decreases k
  {
    hide SideOk, Levels;
    LevelsInOrder(q, side, symbol, k - 1);
    if j < k - 1 {
      LevelsDiffer(q, side, symbol, j, k - 1);
    }
  }

  /** Every snapshot that a well-formed book writes is sound, as are those that differ from it in what does not matter. */
  lemma SavedIsSound(b: Book, id: Option<nat>)
    requires WF(b)
    ensures Sound(SnapshotOf(b, id))
  {
    hide SideOk, Levels, LevelsApart, LiveQueue;
    SnapshotRoundTrip(b, id);
    LevelsOfQueue(b.bids, Buy, b.symbol);
    LevelsOfQueue(b.asks, Sell, b.symbol);
  }

  /** A whole level behind all others. */
  lemma AppendLevel(levels: map<int, PriceLevel>, q: seq<OrderRef>, side: Side, level: PriceLevel, refs: seq<OrderRef>)
    requires SideLinked(levels, q, side) && level.price !in levels && level.side == side
    requires level.orders == refs && refs != [] && level.total == Sum(Views(refs))
    requires forall i :: 0 <= i < |refs| ==> refs[i].side == side && RefPx(refs[i]) == level.price
    requires NoDup(Views(q + refs))
    ensures SideLinked(levels[level.price := level], q + refs, side)
  {
    hide Views, Sum, RefsAt;
    var levels', q' := levels[level.price := level], q + refs;
    assert forall i :: 0 <= i < |q'| ==> q'[i] == if i < |q| then q[i] else refs[i - |q|];
    forall p | p in levels'
      ensures LevelLinked(levels'[p], q', p, side)
    {
      RefsAtAppend(q, refs, p);
      if p == level.price {
        NoneAt(q, p);
        AllAt(refs, p);
        assert [] + refs == refs;
      } else {
        NoneAt(refs, p);
        assert LevelLinked(levels[p], q, p, side);
        assert RefsAt(q, p) + [] == RefsAt(q, p);
      }
    }
    forall i, j | 0 <= i < j < |q'|
      ensures q'[i].id != q'[j].id
    {
      assert Views(q')[i].id != Views(q')[j].id;
    }
  }

  lemma {:induction false} AllAt(refs: seq<OrderRef>, p: int)
    requires forall i :: 0 <= i < |refs| ==> RefPx(refs[i]) == p
    ensures RefsAt(refs, p) == refs
  {
    if refs != [] {
      AllAt(refs[1..], p);
    }
  }

  /** The levels of a side from its saved levels, and the index with its orders entered. */
  method RestoreSide(saved: seq<RecoveryLevel>, ghost side: Side, ghost symbol: string, orders: map<string, OrderRef>)
    returns (levels: map<int, PriceLevel>, ghost q: seq<OrderRef>, orders': map<string, OrderRef>)
    requires SideOk(Flatten(saved), side, symbol) && LevelsApart(saved)
    ensures SideLinked(levels, q, side) && Views(q) == Flatten(saved) && orders' == AllIndexed(orders, q)
    ensures forall i :: 0 <= i < |q| ==> fresh(q[i])
    ensures forall p :: p in levels ==> fresh(levels[p])
  {
    hide SideOk, SideLinked, Views, AllIndexed, Flatten, LevelsApart, Kept;
    levels, q, orders' := map[], [], orders;
    NothingRestored(side, orders, Flatten(saved));
    assert saved[0..] == saved;
    for k := 0 to |saved|
      invariant SideLinked(levels, q, side) && Flatten(saved) == Views(q) + Flatten(saved[k..])
      invariant orders' == AllIndexed(orders, q)
      invariant forall j :: k <= j < |saved| && Kept(saved[j].orders) != [] ==> saved[j].price !in levels
      invariant forall i :: 0 <= i < |q| ==> fresh(q[i])
      invariant forall p :: p in levels ==> fresh(levels[p])
    {
      assert saved[k..][1..] == saved[k + 1..];
      PricesApart(saved, k);
      levels, q, orders' := RestoreNext(levels, q, orders', saved[k], saved[k..], side, Flatten(saved), symbol, orders);
    }
    NothingLeft();
    assert Flatten(saved) == Views(q);
  }

  lemma PricesApart(saved: seq<RecoveryLevel>, k: nat)
    requires LevelsApart(saved) && k < |saved|
    ensures forall i :: 0 <= i < |Kept(saved[k].orders)| ==> Px(Kept(saved[k].orders)[i]) == saved[k].price
    ensures forall j :: k < j < |saved| && Kept(saved[k].orders) != [] && Kept(saved[j].orders) != [] ==>
              saved[j].price != saved[k].price
  {
    hide Kept;
  }

  lemma NothingLeft()
    ensures Flatten([]) == []
  {
  }

  lemma NothingRestored(side: Side, orders: map<string, OrderRef>, v: seq<Order>)
    ensures SideLinked(map[], [], side) && v == Views([]) + v && orders == AllIndexed(orders, [])
  {
    assert Views([]) == [];
  }

  method RestoreNext(levels: map<int, PriceLevel>, ghost q: seq<OrderRef>, orders: map<string, OrderRef>,
                     saved: RecoveryLevel, ghost rest: seq<RecoveryLevel>, ghost side: Side,
                     ghost v: seq<Order>, ghost symbol: string, ghost orders0: map<string, OrderRef>)
    returns (levels': map<int, PriceLevel>, ghost q': seq<OrderRef>, orders': map<string, OrderRef>)
    requires SideOk(v, side, symbol) && rest != [] && saved == rest[0] && v == Views(q) + Flatten(rest)
    requires SideLinked(levels, q, side) && orders == AllIndexed(orders0, q)
    requires forall i :: 0 <= i < |Kept(saved.orders)| ==> Px(Kept(saved.orders)[i]) == saved.price
    requires Kept(saved.orders) != [] ==> saved.price !in levels
    ensures SideLinked(levels', q', side) && v == Views(q') + Flatten(rest[1..]) && orders' == AllIndexed(orders0, q')
    ensures levels'.Keys == levels.Keys + if Kept(saved.orders) == [] then {} else {saved.price}
    ensures q <= q' && forall i :: |q| <= i < |q'| ==> fresh(q'[i])
    ensures forall p :: p in levels' ==> (p in levels && levels'[p] == levels[p]) || fresh(levels'[p])
  {
    hide SideOk, Views, Sum, Kept, RefsAt, AllIndexed, LevelLinked, SideLinked, Flatten, NoDup;
    RestParts(rest);
    ghost var u := Views(q);
    var level;
    ghost var refs;
    level, refs, orders' := RestoreLevel(saved, side, orders);
    q' := q + refs;
    assert Views(q) == u;
    NextParts(q, refs, saved, Flatten(rest[1..]), v, side, symbol);
    IndexedBoth(orders0, q, refs);
    levels' := levels;
    if |level.orders| > 0 {
      AppendLevel(levels, q, side, level, refs);
      levels' := levels'[level.price := level];
    } else {
      assert q' == q;
    }
  }

  lemma RestParts(rest: seq<RecoveryLevel>)
    requires rest != []
    ensures Flatten(rest) == Kept(rest[0].orders) + Flatten(rest[1..])
  {
  }

  /** The orders of the next level, behind all others. */
  lemma NextParts(q: seq<OrderRef>, refs: seq<OrderRef>, saved: RecoveryLevel, w: seq<Order>, v: seq<Order>, side: Side,
                  symbol: string)
    requires SideOk(v, side, symbol) && Views(refs) == Kept(saved.orders) && v == Views(q) + (Kept(saved.orders) + w)
    requires forall i :: 0 <= i < |Kept(saved.orders)| ==> Px(Kept(saved.orders)[i]) == saved.price
    ensures v == Views(q + refs) + w && NoDup(Views(q + refs)) && (refs == [] <==> Kept(saved.orders) == [])
    ensures forall i :: 0 <= i < |refs| ==> refs[i].side == side && RefPx(refs[i]) == saved.price
  {
    hide SideOk, Views, Kept;
    var a, u := Kept(saved.orders), Views(q);
    ViewsAppend(q, refs);
    assert v == (u + a) + w;
    PrefixDistinct(v, u + a, w, side, symbol);
    MiddleSide(v, u, a, w, side, symbol);
    SameLevel(refs, a, side, saved.price);
    SameLength(refs);
  }

  lemma SameLength(refs: seq<OrderRef>)
    ensures |Views(refs)| == |refs|
  {
  }

  lemma MiddleSide(v: seq<Order>, u: seq<Order>, a: seq<Order>, w: seq<Order>, side: Side, symbol: string)
    requires SideOk(v, side, symbol) && v == (u + a) + w
    ensures forall i :: 0 <= i < |a| ==> a[i].side == side
  {
    forall i | 0 <= i < |a|
      ensures a[i].side == side
    {
      assert v[|u| + i] == a[i];
    }
  }

  lemma PrefixDistinct(v: seq<Order>, a: seq<Order>, b: seq<Order>, side: Side, symbol: string)
    requires SideOk(v, side, symbol) && v == a + b
    ensures NoDup(a)
  {
    forall i, j | 0 <= i < j < |a|
      ensures a[i].id != a[j].id
    {
      assert v[i] == a[i] && v[j] == a[j];
    }
  }

  lemma SameLevel(refs: seq<OrderRef>, a: seq<Order>, side: Side, price: int)
    requires Views(refs) == a && forall i :: 0 <= i < |a| ==> a[i].side == side && Px(a[i]) == price
    ensures forall i :: 0 <= i < |refs| ==> refs[i].side == side && RefPx(refs[i]) == price
  {
    hide Views;
    assert forall i :: 0 <= i < |refs| ==> a[i] == refs[i].View();
  }

  lemma {:induction false} IndexedBoth(orders: map<string, OrderRef>, q: seq<OrderRef>, refs: seq<OrderRef>)
    ensures AllIndexed(AllIndexed(orders, q), refs) == AllIndexed(orders, q + refs)
    decreases |refs|
  {
    if refs == [] {
      assert q + refs == q;
    } else {
      var o := refs[|refs| - 1];
      IndexedBoth(orders, q, refs[..|refs| - 1]);
      assert q + refs == (q + refs[..|refs| - 1]) + [o];
      IndexedMore(orders, q + refs[..|refs| - 1], o);
    }
  }

  lemma {:induction false} IndexKnows(q: seq<OrderRef>, id: string)
    requires forall i, j :: 0 <= i < j < |q| ==> q[i].id != q[j].id
    ensures id in AllIndexed(map[], q) ==> AllIndexed(map[], q)[id] in q && AllIndexed(map[], q)[id].id == id
    ensures forall i :: 0 <= i < |q| && q[i].id == id ==> id in AllIndexed(map[], q) && AllIndexed(map[], q)[id] == q[i]
  {
    if q != [] {
      var t := q[..|q| - 1];
      IndexKnows(t, id);
      assert q == t + [q[|q| - 1]];
    }
  }

  /** The index after both sides have been entered. */
  lemma IndexedAll(p: seq<OrderRef>, q: seq<OrderRef>)
    requires NoDup(Views(p)) && NoDup(Views(q)) && Ids(Views(p)) !! Ids(Views(q))
    ensures Indexed(AllIndexed(AllIndexed(map[], p), q), p, q)
  {
    hide AllIndexed, Views;
    IndexedBoth(map[], p, q);
    var r, m := p + q, AllIndexed(map[], p + q);
    forall i, j | 0 <= i < j < |r|
      ensures r[i].id != r[j].id
    {
      assert i < |p| ==> Views(p)[i].id in Ids(Views(p));
      assert j >= |p| ==> Views(q)[j - |p|].id in Ids(Views(q));
      assert i >= |p| ==> Views(q)[i - |p|].id != Views(q)[j - |p|].id;
      assert j < |p| ==> Views(p)[i].id != Views(p)[j].id;
    }
    forall i | 0 <= i < |p|
      ensures p[i].id in m && m[p[i].id] == p[i]
    {
      IndexKnows(r, p[i].id);
      assert r[i] == p[i];
    }
    forall i | 0 <= i < |q|
      ensures q[i].id in m && m[q[i].id] == q[i]
    {
      IndexKnows(r, q[i].id);
      assert r[|p| + i] == q[i];
    }
    forall id | id in m
      ensures (m[id] in p || m[id] in q) && m[id].id == id
    {
      IndexKnows(r, id);
    }
  }

  method RestoreStops(saved: seq<Stop>) returns (ids: seq<string>, stops: map<string, Stop>)
    requires NoDupStops(saved)
    ensures Listed(ids, stops) && StopsIn(ids, stops) == saved
  {
    hide StopsIn;
    ids, stops := [], map[];
    for i := 0 to |saved|
      invariant Listed(ids, stops) && StopsIn(ids, stops) == saved[..i]
    {
      NewStop(ids, stops, saved, i);
      AddStop(ids, stops, saved[i]);
      ids := ids + [saved[i].id];
      stops := stops[saved[i].id := saved[i]];
    }
  }

  lemma NewStop(ids: seq<string>, stops: map<string, Stop>, saved: seq<Stop>, i: nat)
    requires Listed(ids, stops) && i < |saved| && NoDupStops(saved) && StopsIn(ids, stops) == saved[..i]
    ensures saved[i].id !in stops
  {
    hide StopsIn;
    forall j | 0 <= j < |ids|
      ensures ids[j] != saved[i].id
    {
      assert StopsIn(ids, stops)[j] == saved[j];
    }
  }

  /** Rebuild a heap book from a sound snapshot. */
  method FromRecoverySnapshot(s: Snapshot) returns (r: Result<EngineBook, Error>)
    requires !Blank(s.symbol) ==> Sound(s)
    ensures Blank(s.symbol) ==> r == Err(EmptySymbol)
    ensures !Blank(s.symbol) ==> r.Ok? && r.value.Valid() && Restore(s) == Ok(r.value.State())
    ensures !Blank(s.symbol) ==> fresh(r.value) && forall x :: x in r.value.Footprint() ==> fresh(x)
  {
    hide EngineBook.Valid, EngineBook.State, EngineBook.Footprint;
    if Blank(s.symbol) {
      return Err(EmptySymbol);
    }
    var book := Rebuild(s);
    return Ok(book);
  }

  method Rebuild(s: Snapshot) returns (book: EngineBook)
    requires !Blank(s.symbol) && Sound(s)
    ensures fresh(book) && book.Valid() && Restore(s) == Ok(book.State())
    ensures forall x :: x in book.Footprint() ==> fresh(x)
  {
    hide SideOk, Sane, Apart, Uncrossed, StopsOk, Flatten, Views, Indexed, Listed, StopsIn, AllIndexed, LiveQueue, Blank,
         LevelLinked, RefsAt, SideLinked, EngineBook.Linked, EngineBook.Footprint, LevelsApart;
    ghost var b := Restore(s).value;
    BookParts(b);
    var bidLevels, askLevels, orders;
    ghost var bidQ, askQ;
    bidLevels, bidQ, orders, askLevels, askQ := RestoreSides(s, b);
    var ids, stops := RestoreStops(s.stops);
    book := Assemble(s.symbol, bidLevels, bidQ, askLevels, askQ, orders, ids, stops, s.last, s.sequence);
  }

  /** Both sides and the index. */
  method RestoreSides(s: Snapshot, ghost b: Book)
    returns (bidLevels: map<int, PriceLevel>, ghost bidQ: seq<OrderRef>, orders: map<string, OrderRef>,
             askLevels: map<int, PriceLevel>, ghost askQ: seq<OrderRef>)
    requires SideOk(b.bids, Buy, b.symbol) && SideOk(b.asks, Sell, b.symbol)
    requires NoDup(b.bids) && NoDup(b.asks) && Ids(b.bids) !! Ids(b.asks)
    requires b.bids == Flatten(s.bids) && b.asks == Flatten(s.asks) && LevelsApart(s.bids) && LevelsApart(s.asks)
    ensures SideLinked(bidLevels, bidQ, Buy) && SideLinked(askLevels, askQ, Sell) && Indexed(orders, bidQ, askQ)
    ensures Views(bidQ) == b.bids && Views(askQ) == b.asks
    ensures (forall i :: 0 <= i < |bidQ| ==> fresh(bidQ[i])) && (forall i :: 0 <= i < |askQ| ==> fresh(askQ[i]))
    ensures (forall p :: p in bidLevels ==> fresh(bidLevels[p])) && (forall p :: p in askLevels ==> fresh(askLevels[p]))
  {
    hide SideOk, Flatten, Views, Indexed, AllIndexed, LevelLinked, RefsAt, Ids, NoDup, LevelsApart;
    bidLevels, bidQ, orders := RestoreSide(s.bids, Buy, b.symbol, map[]);
    askLevels, askQ, orders := RestoreSide(s.asks, Sell, b.symbol, orders);
    IndexedAll(bidQ, askQ);
  }

  /** A new book of these parts; nothing else belongs to it. */
  method Assemble(symbol: string, bidLevels: map<int, PriceLevel>, ghost bidQ: seq<OrderRef>,
                  askLevels: map<int, PriceLevel>, ghost askQ: seq<OrderRef>, orders: map<string, OrderRef>,
                  ids: seq<string>, stops: map<string, Stop>, last: Option<int>, sequence: int)
    returns (book: EngineBook)
    requires !Blank(symbol) && SideLinked(bidLevels, bidQ, Buy) && SideLinked(askLevels, askQ, Sell)
    requires Indexed(orders, bidQ, askQ) && Listed(ids, stops)
    ensures fresh(book) && book.symbol == symbol && book.Linked() && book.StopsLinked()
    ensures book.State() == Book(symbol, old(Views(bidQ)), old(Views(askQ)), StopsIn(ids, stops), last, [], sequence)
    ensures forall x :: x in book.Footprint() ==>
              fresh(x) || x in bidQ || x in askQ || (exists p :: p in bidLevels && x == bidLevels[p])
              || (exists p :: p in askLevels && x == askLevels[p])
  {
    hide WF, Views, Indexed, Listed, StopsIn, LevelLinked, RefsAt, Blank, BookSide.Linked, BookSide.View;
    book := new EngineBook(symbol);
    SetFields(book, bidLevels, bidQ, askLevels, askQ, orders, ids, stops, last, sequence);
  }

  method SetSides(bids: BookSide, asks: BookSide, bidLevels: map<int, PriceLevel>, ghost bidQ: seq<OrderRef>,
                  askLevels: map<int, PriceLevel>, ghost askQ: seq<OrderRef>)
    requires bids.side == Buy && asks.side == Sell
    requires SideLinked(bidLevels, bidQ, Buy) && SideLinked(askLevels, askQ, Sell)
    modifies bids, asks
    ensures bids.Linked() && bids.queue == bidQ && bids.levels == bidLevels && bids.View() == old(Views(bidQ))
    ensures asks.Linked() && asks.queue == askQ && asks.levels == askLevels && asks.View() == old(Views(askQ))
  {
    hide Views, RefsAt, LevelLinked;
    bids.Adopt(bidLevels, bidQ);
    asks.Adopt(askLevels, askQ);
    assert bids.Linked();
  }

  method SetFields(book: EngineBook, bidLevels: map<int, PriceLevel>, ghost bidQ: seq<OrderRef>,
                   askLevels: map<int, PriceLevel>, ghost askQ: seq<OrderRef>, orders: map<string, OrderRef>,
                   ids: seq<string>, stops: map<string, Stop>, last: Option<int>, sequence: int)
    requires book.Valid()
    requires SideLinked(bidLevels, bidQ, Buy) && SideLinked(askLevels, askQ, Sell)
    requires Indexed(orders, bidQ, askQ) && Listed(ids, stops)
    modifies book, book.bids, book.asks
    ensures book.Linked() && book.StopsLinked()
    ensures book.bids.queue == bidQ && book.bids.levels == bidLevels
    ensures book.asks.queue == askQ && book.asks.levels == askLevels
    ensures book.State() == Book(book.symbol, old(Views(bidQ)), old(Views(askQ)), StopsIn(ids, stops), last,
                                 old(book.trades), sequence)
  {
    hide WF, Views, Indexed, Listed, StopsIn, LevelLinked, RefsAt, SideLinked, BookSide.Linked, BookSide.View;
    book.orders, book.stopOrderIDs, book.stopOrders := orders, ids, stops;
    book.sequence, book.last := sequence, last;
    SetSides(book.bids, book.asks, bidLevels, bidQ, askLevels, askQ);
  }

  lemma BookParts(b: Book)
    requires WF(b)
    ensures SideOk(b.bids, Buy, b.symbol) && SideOk(b.asks, Sell, b.symbol) && NoDupStops(b.stops)
    ensures NoDup(b.bids) && NoDup(b.asks) && Ids(b.bids) !! Ids(b.asks) && WF(b.(trades := []))
  {
    hide LiveQueue, Ids, StopIds, Live;
  }
}
