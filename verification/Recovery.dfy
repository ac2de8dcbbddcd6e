/** Recovery snapshots: what a book writes down, how a book is rebuilt from it,
    and that rebuilding loses nothing that a later command could see. */
module Recovery {
  import opened Types
  import opened Matching
  import opened BookSpec
  import opened Invariant
  import opened StopCascade
  import opened Runs
  import opened Likeness

  datatype RecoveryLevel = RecoveryLevel(price: int, total: int, count: int, orders: seq<Order>)

  datatype Snapshot = Snapshot(
    symbol: string,
    sequence: int,
    last: Option<int>,
    lastCommandId: Option<nat>,
    bids: seq<RecoveryLevel>,
    asks: seq<RecoveryLevel>,
    stops: seq<Stop>)

  // ------------------------------------------------------------------ levels

  /** The orders of one price, in queue order: the price level. */
  function At(q: seq<Order>, price: int): (r: seq<Order>)
    ensures forall i :: 0 <= i < |r| ==> r[i] in q && Px(r[i]) == price
  {
    if q == [] then []
    else if Px(q[0]) == price then [q[0]] + At(q[1..], price)
    else At(q[1..], price)
  }

  function LevelOf(q: seq<Order>, price: int): RecoveryLevel {
    RecoveryLevel(price, Sum(At(q, price)), |At(q, price)|, At(q, price))
  }

  /** The part of a queue behind all orders of its best price. */
  function Beyond(q: seq<Order>, price: int): (r: seq<Order>)
    ensures |r| <= |q|
    ensures q != [] && Px(q[0]) == price ==> |r| < |q|
  {
    if q == [] || Px(q[0]) != price then q else Beyond(q[1..], price)
  }

  /** The levels of a queue, best price first. */
  function Levels(q: seq<Order>): seq<RecoveryLevel>
    decreases |q|
  {
    if q == [] then [] else [LevelOf(q, Px(q[0]))] + Levels(Beyond(q, Px(q[0])))
  }

  /** The orders that a restored level keeps. */
  function Kept(orders: seq<Order>): (r: seq<Order>)
    ensures forall i :: 0 <= i < |r| ==> r[i] in orders && r[i].remaining > 0
  {
    if orders == [] then []
    else if orders[0].remaining <= 0 then Kept(orders[1..])
    else [orders[0]] + Kept(orders[1..])
  }

  function Flatten(levels: seq<RecoveryLevel>): seq<Order> {
    if levels == [] then [] else Kept(levels[0].orders) + Flatten(levels[1..])
  }

  function SnapshotOf(b: Book, lastCommandId: Option<nat>): Snapshot {
    Snapshot(b.symbol, b.sequence, b.last, lastCommandId, Levels(b.bids), Levels(b.asks), b.stops)
  }

  function Restore(s: Snapshot): Result<Book, Error> {
    if Blank(s.symbol) then Err(EmptySymbol)
    else Ok(Book(s.symbol, Flatten(s.bids), Flatten(s.asks), s.stops, s.last, [], s.sequence))
  }

  lemma {:induction false} KeptAppend(a: seq<Order>, b: seq<Order>)
    ensures Kept(a + b) == Kept(a) + Kept(b)
  {
    if a == [] {
      assert a + b == b;
    } else {
      assert (a + b)[0] == a[0] && (a + b)[1..] == a[1..] + b;
      KeptAppend(a[1..], b);
    }
  }

  /** Restoring ignores a saved order with nothing left, wherever it is, and keeps every other one in its place. */
  lemma KeptExactly(a: seq<Order>, o: Order, b: seq<Order>)
    ensures Kept(a + [o] + b) == if o.remaining > 0 then Kept(a) + [o] + Kept(b) else Kept(a + b)
  {
    hide Kept;
    KeptAppend(a + [o], b);
    KeptAppend(a, [o]);
    KeptAppend(a, b);
    KeptOne(o);
  }

  lemma KeptOne(o: Order)
    ensures Kept([o]) == if o.remaining > 0 then [o] else []
  {
    assert Kept([o][1..]) == [];
  }

  // -------------------------------------------------------------- round trip

  lemma {:induction false} KeptAll(orders: seq<Order>)
    requires LiveQueue(orders)
    ensures Kept(orders) == orders
  {
    if orders != [] {
      assert Live(orders[0]);
      KeptAll(orders[1..]);
    }
  }

  lemma HeadAt(q: seq<Order>, price: int)
    requires q != []
    ensures At(q, price) == (if Px(q[0]) == price then [q[0]] else []) + At(q[1..], price)
    ensures Beyond(q, price) == if Px(q[0]) == price then Beyond(q[1..], price) else q
  {
  }

  lemma TailInOrder(q: seq<Order>, side: Side)
    requires q != [] && Sorted(q) && forall i :: 0 <= i < |q| ==> q[i].side == side
    ensures Sorted(q[1..]) && forall i :: 0 <= i < |q[1..]| ==> q[1..][i].side == side && Rank(q[0]) <= Rank(q[1..][i])
  {
  }

  /** On a sorted queue the best price comes first and nowhere else. */
  lemma {:induction false} BestPriceFirst(q: seq<Order>, side: Side, price: int)
    requires Sorted(q) && forall i :: 0 <= i < |q| ==> q[i].side == side
    requires q != [] ==> Rank(q[0]) >= (if side == Buy then -price else price)
    ensures q == At(q, price) + Beyond(q, price)
    decreases |q|
  {
    hide Sorted, At, Beyond;
    if q == [] {
      NoLevels(price);
    } else {
      HeadAt(q, price);
      TailInOrder(q, side);
      if Px(q[0]) == price {
        BestPriceFirst(q[1..], side, price);
        Regroup(q, At(q[1..], price), Beyond(q[1..], price));
      } else {
        NothingAt(q, side, price);
        assert [] + q == q;
      }
    }
  }

  lemma Regroup(q: seq<Order>, a: seq<Order>, b: seq<Order>)
    requires q != [] && q[1..] == a + b
    ensures q == ([q[0]] + a) + b
  {
  }

  lemma NoLevels(price: int)
    ensures At([], price) == [] && Beyond([], price) == []
  {
  }

  lemma {:induction false} NothingAt(q: seq<Order>, side: Side, price: int)
    requires Sorted(q) && forall i :: 0 <= i < |q| ==> q[i].side == side
    requires q != [] ==> Rank(q[0]) > (if side == Buy then -price else price)
    ensures At(q, price) == []
    decreases |q|
  {
    hide Sorted, At;
    if q == [] {
      NoLevels(price);
    } else {
      HeadAt(q, price);
      TailInOrder(q, side);
      NothingAt(q[1..], side, price);
    }
  }

  /** Flattening the levels gives the queue back. */
  lemma {:induction false} LevelsRoundTrip(q: seq<Order>, side: Side, symbol: string)
    requires SideOk(q, side, symbol)
    ensures Flatten(Levels(q)) == q
    decreases |q|
  {
    if q != [] {
      var price := Px(q[0]);
      HeadSide(q, side, symbol);
      BestPriceFirst(q, side, price);
      var level, rest := At(q, price), Beyond(q, price);
      PartsOk(level, rest, side, symbol);
      KeptAll(level);
      LevelsRoundTrip(rest, side, symbol);
      assert Levels(q)[1..] == Levels(rest);
    }
  }

  lemma PartsOk(a: seq<Order>, b: seq<Order>, side: Side, symbol: string)
    requires SideOk(a + b, side, symbol)
    ensures SideOk(b, side, symbol) && LiveQueue(a)
  {
    var q := a + b;
    forall i | 0 <= i < |b|
      ensures b[i] == q[|a| + i]
    {
    }
    forall i | 0 <= i < |a|
      ensures Live(a[i])
    {
      assert a[i] == q[i];
    }
  }

  /** Restoring the snapshot of a book gives the book back, but for its trade history. */
  lemma SnapshotRoundTrip(b: Book, id: Option<nat>)
    requires WF(b)
    ensures Restore(SnapshotOf(b, id)) == Ok(b.(trades := []))
  {
    LevelsRoundTrip(b.bids, Buy, b.symbol);
    LevelsRoundTrip(b.asks, Sell, b.symbol);
  }

  /** The snapshot's levels go strictly from best to worst price. */
  lemma {:induction false} LevelsInOrder(q: seq<Order>, side: Side, symbol: string, i: nat)
    requires SideOk(q, side, symbol) && i < |Levels(q)|
    ensures q != [] && (if side == Buy then Levels(q)[i].price <= Px(q[0]) else Levels(q)[i].price >= Px(q[0]))
    ensures i + 1 < |Levels(q)| ==>
              if side == Buy then Levels(q)[i + 1].price < Levels(q)[i].price
              else Levels(q)[i + 1].price > Levels(q)[i].price
    decreases |q|
  {
    hide At, SideOk, Sum;
    var rest := Beyond(q, Px(q[0]));
    RestOk(q, side, symbol);
    BeyondIsWorse(q, side, symbol);
    HeadSide(q, side, symbol);
    if i > 0 {
      LevelsInOrder(rest, side, symbol, i - 1);
      assert Levels(q)[i] == Levels(rest)[i - 1];
      assert i + 1 < |Levels(q)| ==> Levels(q)[i + 1] == Levels(rest)[i];
    } else if rest != [] {
      assert Levels(q)[1] == Levels(rest)[0];
    }
  }

  lemma RestOk(q: seq<Order>, side: Side, symbol: string)
    requires SideOk(q, side, symbol) && q != []
    ensures SideOk(Beyond(q, Px(q[0])), side, symbol) && LiveQueue(At(q, Px(q[0])))
    ensures q == At(q, Px(q[0])) + Beyond(q, Px(q[0]))
  {
    HeadSide(q, side, symbol);
    BestPriceFirst(q, side, Px(q[0]));
    PartsOk(At(q, Px(q[0])), Beyond(q, Px(q[0])), side, symbol);
  }

  /** A worse price is served by the rest of the queue alone. */
  lemma LevelOfRest(q: seq<Order>, side: Side, symbol: string, p: int)
    requires SideOk(q, side, symbol) && q != [] && p != Px(q[0])
    ensures LevelOf(q, p) == LevelOf(Beyond(q, Px(q[0])), p)
  {
    hide SideOk, Beyond, At, Sum;
    var price := Px(q[0]);
    RestOk(q, side, symbol);
    AtAppend(At(q, price), Beyond(q, price), p);
    NoneOfPrice(At(q, price), price, p);
    assert [] + At(Beyond(q, price), p) == At(Beyond(q, price), p);
  }

  lemma RestPricesDiffer(q: seq<Order>, side: Side, symbol: string, i: nat)
    requires SideOk(q, side, symbol) && q != [] && i < |Levels(Beyond(q, Px(q[0])))|
    ensures Levels(Beyond(q, Px(q[0])))[i].price != Px(q[0])
  {
    hide SideOk, Beyond, At, Sum, Levels;
    RestOk(q, side, symbol);
    LevelsInOrder(Beyond(q, Px(q[0])), side, symbol, i);
    BeyondIsWorse(q, side, symbol);
    HeadSide(q, side, symbol);
  }

  /** Each level holds all orders of its price, with exact total and count, and is not empty. */
  lemma {:induction false} LevelsAreExact(q: seq<Order>, side: Side, symbol: string, i: nat)
    requires SideOk(q, side, symbol) && i < |Levels(q)|
    ensures var l := Levels(q)[i];
            && l == LevelOf(q, l.price) && 0 < l.count <= l.total
            && l.orders == At(q, l.price) && l.total == Sum(l.orders) && l.count == |l.orders|
    decreases |q|
  {
    hide SideOk, Beyond, Sum;
    var rest := Beyond(q, Px(q[0]));
    RestOk(q, side, symbol);
    SumNonNegative(At(q, Px(q[0])));
    if i > 0 {
      assert Levels(q)[i] == Levels(rest)[i - 1];
      LevelsAreExact(rest, side, symbol, i - 1);
      RestPricesDiffer(q, side, symbol, i - 1);
      LevelOfRest(q, side, symbol, Levels(q)[i].price);
    }
  }

  lemma {:induction false} AtAppend(a: seq<Order>, b: seq<Order>, price: int)
    ensures At(a + b, price) == At(a, price) + At(b, price)
  {
    if a == [] {
      assert a + b == b;
    } else {
      assert (a + b)[0] == a[0] && (a + b)[1..] == a[1..] + b;
      AtAppend(a[1..], b, price);
    }
  }

  lemma {:induction false} NoneOfPrice(a: seq<Order>, price: int, p: int)
    requires p != price && forall i :: 0 <= i < |a| ==> Px(a[i]) == price
    ensures At(a, p) == []
  {
    if a != [] {
      NoneOfPrice(a[1..], price, p);
    }
  }

  lemma {:induction false} BeyondStarts(q: seq<Order>, price: int)
    ensures Beyond(q, price) != [] ==> Px(Beyond(q, price)[0]) != price
  {
    if q != [] && Px(q[0]) == price {
      BeyondStarts(q[1..], price);
    }
  }

  lemma BeyondIsWorse(q: seq<Order>, side: Side, symbol: string)
    requires SideOk(q, side, symbol) && q != []
    ensures var rest := Beyond(q, Px(q[0]));
            rest != [] ==> rest[0].side == side && Rank(rest[0]) > Rank(q[0])
  {
    var price := Px(q[0]);
    var level, rest := At(q, price), Beyond(q, price);
    BestPriceFirst(q, side, price);
    BeyondStarts(q, price);
    if rest != [] {
      assert rest[0] == q[|level|] && Rank(q[0]) <= Rank(q[|level|]);
    }
  }

  // ------------------------------------------------------------ bisimulation

  /** A book restored from a reachable book's snapshot answers every later
      command sequence with the same replies and errors, whatever the clocks. */
  lemma RestoredBookBehavesAlike(b: Book, id: Option<nat>, rs: seq<Request>, ss: seq<Request>)
    requires Good(b) && SameCommands(rs, ss)
    ensures Restore(SnapshotOf(b, id)).Ok? && Sane(Restore(SnapshotOf(b, id)).value)
    ensures var r := Restore(SnapshotOf(b, id)).value;
            && Alike(Run(b, rs), Run(r, ss))
            && forall i :: 0 <= i < |rs| ==> SameOutcome(Outcomes(b, rs)[i], Outcomes(r, ss)[i])
  {
    hide Clean, Run, Outcomes;
    SnapshotRoundTrip(b, id);
    TradesAside(b);
    RunAlike(b, b.(trades := []), rs, ss);
  }

  lemma TradesAside(b: Book)
    requires Sane(b)
    ensures Sane(b.(trades := [])) && Alike(b, b.(trades := []))
  {
  }

  /** Snapshot plus suffix equals full replay: a snapshot taken after a prefix
      of the commands, restored and continued with the rest at a later time,
      is like the replay of all commands from an empty book. */
  lemma SnapshotPlusSuffix(symbol: string, prefix: seq<Request>, suffix: seq<Request>, later: seq<Request>, id: Option<nat>)
    requires !Blank(symbol) && Admissible(EmptyBook(symbol), prefix) && SameCommands(suffix, later)
    ensures var b := Run(EmptyBook(symbol), prefix);
            && Restore(SnapshotOf(b, id)).Ok? && Sane(Restore(SnapshotOf(b, id)).value)
            && Alike(Run(EmptyBook(symbol), prefix + suffix), Run(Restore(SnapshotOf(b, id)).value, later))
  {
    hide Exec, Clean, Levels, Flatten;
    EmptyBookGood(symbol);
    RunKeepsGood(EmptyBook(symbol), prefix);
    RunConcat(EmptyBook(symbol), prefix, suffix);
    RestoredBookBehavesAlike(Run(EmptyBook(symbol), prefix), id, suffix, later);
  }
}
