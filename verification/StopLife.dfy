/** The life of a stop order, from the command that places it: which order it
    becomes when it is triggered, what that order trades, and what is left. */
module StopLife {
  import opened Types
  import opened Matching
  import opened BookSpec
  import opened Invariant
  import opened StopCascade
  import opened Runs
  import opened Accounting
  import opened Trailing
  import opened Triggers
  import opened Limits
  import opened Stakes

  /** The status of an order that has been submitted says what became of it. */
  predicate StatusTells(o: Order) {
    && 0 <= o.remaining <= o.initial
    && (o.remaining == 0 ==> o.status == Filled)
    && (o.typ == Limit && 0 < o.remaining < o.initial ==> o.status == PartiallyFilled)
    && (o.typ == Limit && o.remaining == o.initial ==> o.status == Open)
    && (o.typ == Market && o.remaining > 0 ==> o.status == Cancelled)
  }

  /** The order that a triggered stop becomes: a stop-limit order a limit order at its limit, any other a market order. */
  predicate Entered(t: Stop, f: Order, symbol: string, clock: Clock) {
    && t.status == Triggered
    && f.id == t.id && f.user == t.user && f.symbol == symbol && f.side == t.side
    && f.initial == t.remaining && f.timestamp == clock(t.id)
    && (t.typ == StopLimit ==> f.typ == Limit && f.price == t.price)
    && (t.typ != StopLimit ==> f.typ == Market && f.price == None)
    && StatusTells(f)
  }

  predicate AllEntered(triggered: seq<Stop>, fills: seq<Order>, symbol: string, clock: Clock) {
    |fills| == |triggered| && forall k :: 0 <= k < |fills| ==> Entered(triggered[k], fills[k], symbol, clock)
  }

  /** Triggered orders wait no more; what is left of one in the book is this order, only with less to trade. */
  ghost predicate Lands(fills: seq<Order>, b: Book) {
    forall f :: f in fills ==>
      && f.id !in StopIds(b.stops)
      && (Resting(b, f.id).Some? ==> SameOrder(f, Resting(b, f.id).value))
  }

  lemma SubmittedTells(b: Book, o: Order)
    requires Sane(b) && Incoming(o) && o.remaining == o.initial && (o.typ == Limit || o.typ == Market)
    ensures StatusTells(Submit(b, o).order) && SameOrder(o, Submit(b, o).order)
  {
    hide Match, Insert, LiveQueue;
  }

  lemma RunStopEnters(b: Book, s: Stop, now: nat)
    requires WF(b) && s in b.stops && RunStop(b, s, now).error.None?
    ensures var c := RunStop(b, s, now);
            && |c.triggered| == 1 && |c.fills| == 1
            && Entered(c.triggered[0], c.fills[0], b.symbol, _ => now) && Lands(c.fills, c.book)
  {
    hide WF, Submit, RunStop, WithoutStop, Taken, Find, Dealt, StopIds, NoSelfTrade;
    var o := RunStopSubmits(b, s, now);
    var b' := b.(stops := WithoutStop(b.stops, s.id));
    WFSane(b');
    SubmittedTells(b', o);
    SubmitAccountsOwn(b', o);
    SubmitFrame(b', o);
    WithoutIds(b, s.id);
    OwnRests(Submit(b', o).book, Submit(b', o).order);
  }

  lemma OwnRests(b: Book, o: Order)
    requires Find(Own(b, o.side), o.id) == (if Live(o) then Some(o) else None) && Find(Opposite(b, o.side), o.id).None?
    ensures Resting(b, o.id) == if Live(o) then Some(o) else None
  {
  }

  lemma {:induction false} RunStopsEnter(b: Book, el: seq<Stop>, clock: Clock)
    requires WF(b) && Waiting(b, el) && RunStops(b, el, clock).error.None?
    ensures var c := RunStops(b, el, clock);
            AllEntered(c.triggered, c.fills, b.symbol, clock) && Lands(c.fills, c.book)
    decreases |el|
  {
    hide WF, Waiting, RunStop, RunStops, Sane, StopIds, Resting, StatusTells;
    WFSane(b);
    if el == [] {
      NoStops(b, clock);
    } else {
      var now := clock(el[0].id);
      RunStopsParts(b, el, clock);
      RunStopKeepsWF(b, el[0], now);
      RunStopEnters(b, el[0], now);
      var c := RunStop(b, el[0], now);
      var d := RunStops(c.book, el[1..], clock);
      FillOf(b, el[0], now);
      RunStopsEnter(c.book, el[1..], clock);
      RunStopsAccount(c.book, el[1..], clock, el[0].id);
      LandsThen(c.fills, c.book, d.fills, d.book, d.trades);
    }
  }

  /** What has landed stays so while other stops run. */
  lemma LandsThen(fs: seq<Order>, m: Book, gs: seq<Order>, z: Book, ts: seq<Trade>)
    requires Lands(fs, m) && Lands(gs, z)
    requires forall f :: f in fs ==> f.id !in StopIds(z.stops) && Accounted(Resting(m, f.id), Resting(z, f.id), ts, f.id)
    ensures Lands(fs + gs, z)
  {
    hide StopIds, Resting, Dealt;
  }

  lemma CycleEnters(b: Book, price: int, clock: Clock)
    requires WF(b) && Cycle(b, price, clock).error.None?
    ensures var c := Cycle(b, price, clock);
            AllEntered(c.triggered, c.fills, b.symbol, clock) && Lands(c.fills, c.book)
  {
    hide WF, Waiting, RunStops, Sane, EligibleStops, AllEntered, Lands;
    WFSane(b);
    MarkKeepsWF(b, price);
    var b1 := Mark(b, price);
    EligibleWaiting(b1, price);
    CycleParts(b, price, clock);
    RunStopsEnter(b1, EligibleStops(b1.stops, price), clock);
  }

  lemma {:induction false} CascadeEnters(b: Book, latest: seq<Trade>, cycle: nat, clock: Clock)
    requires WF(b) && Cycles(b, latest, cycle, clock).error.None?
    ensures var c := Cycles(b, latest, cycle, clock);
            AllEntered(c.triggered, c.fills, b.symbol, clock) && Lands(c.fills, c.book)
    decreases if cycle > MAX_CYCLES then 0 else MAX_CYCLES + 1 - cycle
  {
    hide WF, Cycle, Cycles, Sane, Entered, StopIds, Resting, Accounted, NoSelfTrade;
    WFSane(b);
    if latest == [] {
      NoCycles(b, cycle, clock);
    } else {
      CyclesParts(b, latest, cycle, clock);
      CycleKeepsWF(b, LastPrice(latest), clock);
      CycleEnters(b, LastPrice(latest), clock);
      var c := Cycle(b, LastPrice(latest), clock);
      var d := Cycles(c.book, c.trades, cycle + 1, clock);
      CascadeEnters(c.book, c.trades, cycle + 1, clock);
      forall f | f in c.fills
        ensures f.id !in StopIds(d.book.stops) && Accounted(Resting(c.book, f.id), Resting(d.book, f.id), d.trades, f.id)
      {
        CyclesAccount(c.book, c.trades, cycle + 1, clock, f.id);
      }
      LandsThen(c.fills, c.book, d.fills, d.book, d.trades);
    }
  }

  // ------------------------------------------------------------ one command

  lemma PlaceEnters(b: Book, typ: OrderType, input: Input, clock: Clock)
    requires WF(b) && typ in {Limit, Market} && Place(b, typ, input, clock).outcome.Ok?
    ensures var s := Place(b, typ, input, clock);
            var r := s.outcome.value;
            && |r.fills| == 1 + |r.triggered| && r.fills[0].id == input.orderId
            && AllEntered(r.triggered, r.fills[1..], b.symbol, clock) && Lands(r.fills[1..], s.book)
  {
    hide WF, Taken, Submit, Cycles, LiveQueue, Entered, StopIds, NoSelfTrade, Dealt;
    WFSane(b);
    var o := NewOrder(b.symbol, typ, input).value;
    SubmitKeepsWF(b, o);
    SubmitFrame(b, o);
    SubmitAccountsOwn(b, o);
    var r := Submit(b, o);
    var c := Cycles(r.book, r.trades, 1, clock);
    CascadeEnters(r.book, r.trades, 1, clock);
    assert ([r.order] + c.fills)[1..] == c.fills;
    NumberedLands(c.fills, c.book, Place(b, typ, input, clock).book);
  }

  lemma NumberedLands(fills: seq<Order>, b: Book, b': Book)
    requires Lands(fills, b) && b'.bids == b.bids && b'.asks == b.asks && b'.stops == b.stops
    ensures Lands(fills, b')
  {
    hide StopIds;
  }

  /** No stop is triggered twice. */
  lemma TriggeredOnce(before: seq<Stop>, triggered: seq<Stop>, marks: seq<int>, k: nat, l: nat)
    requires FiredInOrder(before, triggered, marks) && k < |triggered| && l < |triggered| && k != l
    ensures triggered[k].id != triggered[l].id
  {
    hide FireTime, StopIndex;
    if k < l {
      assert triggered[k] in triggered && triggered[l] in triggered;
    } else {
      assert triggered[k] in triggered && triggered[l] in triggered;
    }
  }

  lemma {:induction false} UnfilledOnly(fills: seq<Order>, id: string, side: Side, k: nat)
    requires k < |fills| && forall j :: 0 <= j < |fills| && j != k ==> fills[j].id != id
    ensures Unfilled(fills, id, side)
            == if fills[k].id == id && fills[k].side == side && fills[k].typ == Market then fills[k].remaining else 0
  {
    if k == 0 {
      NoneUnfilled(fills[1..], id, side);
    } else {
      UnfilledOnly(fills[1..], id, side, k - 1);
    }
  }

  lemma {:induction false} NoneUnfilled(fills: seq<Order>, id: string, side: Side)
    requires forall f :: f in fills ==> f.id != id
    ensures Unfilled(fills, id, side) == 0
  {
    if fills != [] {
      NoneUnfilled(fills[1..], id, side);
    }
  }

  /** What a triggered stop has become after the command, and what its id dealt in all of the command's trades: as much
      as is missing from its order, on its own side, and nothing on the other. */
  predicate Became(s: Stop, f: Order, ts: seq<Trade>, b: Book) {
    && Dealt(ts, if s.side == Buy then Sell else Buy, s.id) == 0
    && (s.typ == StopLimit ==> Dealt(ts, s.side, s.id) == s.remaining - LeftOver(Resting(b, s.id)))
    && (s.typ == StopLimit && s.price.Some? ==> NoWorse(ts, s.side, s.id, s.price.value))
    && (s.typ == StopLimit && Resting(b, s.id).Some? ==> SameOrder(f, Resting(b, s.id).value))
    && (s.typ != StopLimit ==> Dealt(ts, s.side, s.id) == s.remaining - f.remaining && Resting(b, s.id).None?)
  }

  /** Where in the reply a stop appears that is not pending any more. */
  lemma FindTriggered(triggered: seq<Stop>, id: string) returns (k: nat)
    requires HasId(triggered, id)
    ensures k < |triggered| && triggered[k].id == id
  {
    var t :| t in triggered && t.id == id;
    k :| 0 <= k < |triggered| && triggered[k] == t;
  }

  lemma SettledStop(b: Book, typ: OrderType, input: Input, clock: Clock, s: Stop, k: nat)
    requires WF(b) && typ in {Limit, Market} && Place(b, typ, input, clock).outcome.Ok? && s in b.stops
    requires var step := Place(b, typ, input, clock);
             var r := step.outcome.value;
             && !HasId(step.book.stops, s.id) && k < |r.triggered| && |r.fills| == 1 + |r.triggered|
             && r.triggered[k].id == s.id && r.triggered[k].typ == s.typ && r.triggered[k].side == s.side
             && r.fills[0].id == input.orderId && AllEntered(r.triggered, r.fills[1..], b.symbol, clock)
             && FiredInOrder(b.stops, r.triggered, r.marks)
    ensures var step := Place(b, typ, input, clock);
            var r := step.outcome.value;
            var f := r.fills[k + 1];
            forall side: Side ::
              Dealt(r.trades, side, s.id) + RestingStake(step.book, s.id, side)
              == if side != s.side then 0 else if s.typ == StopLimit then s.remaining else s.remaining - f.remaining
  {
    hide WF, Place, StatusTells, FiredInOrder, Resting, StopIndex;
    WFSane(b);
    var step := Place(b, typ, input, clock);
    var r := step.outcome.value;
    NotPlaced(b, typ, input, clock, s);
    PlaceSettles(b, typ, input, clock, s.id);
    ListedStop(b, s);
    NothingRests(b, s);
    NotPending(step.book.stops, s.id);
    forall j | 0 <= j < |r.fills| && j != k + 1
      ensures r.fills[j].id != s.id
    {
      if j > 0 {
        TriggeredOnce(b.stops, r.triggered, r.marks, j - 1, k);
        assert r.fills[j] == r.fills[1..][j - 1];
      }
    }
    assert r.fills[k + 1] == r.fills[1..][k];
    forall side: Side
      ensures Unfilled(r.fills, s.id, side)
              == if side == s.side && s.typ != StopLimit then r.fills[k + 1].remaining else 0
    {
      UnfilledOnly(r.fills, s.id, side, k + 1);
    }
  }

  lemma NotPlaced(b: Book, typ: OrderType, input: Input, clock: Clock, s: Stop)
    requires WF(b) && Place(b, typ, input, clock).outcome.Ok? && s in b.stops
    ensures s.id != input.orderId
  {
    ListedStop(b, s);
  }

  lemma NotPending(stops: seq<Stop>, id: string)
    requires !HasId(stops, id)
    ensures !HoldsStop(stops, id)
  {
  }

  /** Trailing changes nothing but the trigger and the extremes. */
  lemma {:induction false} RatchetKeeps(s: Stop, marks: seq<int>)
    ensures var r := Ratchet(s, marks); r == s.(trigger := r.trigger, peak := r.peak, valley := r.valley)
    ensures s.typ != TrailingStopMarket ==> Ratchet(s, marks) == s
    decreases |marks|
  {
    if marks != [] {
      RatchetKeeps(Trail(s, marks[0]), marks[1..]);
    }
  }

  /** A pending stop-limit order is all that the book has of its id. */
  lemma OnlyPending(b: Book, s: Stop)
    requires WF(b) && s in b.stops && s.typ == StopLimit
    ensures s.price.Some? && Bound(b, s.id, s.side, s.price.value)
  {
    hide LiveQueue, Sorted, NoDup;
    ListedStop(b, s);
    StopIdIn(b.stops, s);
    forall r | r in b.stops && r.id == s.id
      ensures r == s
    {
      ListedStop(b, r);
    }
    forall o | o in b.bids || o in b.asks
      ensures o.id != s.id
    {
      IdOf(b, o);
    }
  }

  lemma IdOf(b: Book, o: Order)
    requires o in b.bids || o in b.asks
    ensures o.id in Ids(b.bids) + Ids(b.asks)
  {
  }

  lemma RestsLive(b: Book, id: string)
    requires WF(b) && Resting(b, id).Some?
    ensures Live(Resting(b, id).value) && Resting(b, id).value.id == id
    ensures Resting(b, id).value in b.bids || Resting(b, id).value in b.asks
  {
    FindIsHolds(b.bids, id);
    FindIsHolds(b.asks, id);
  }

  /** The whole story of a stop that an accepted order triggers: where it is in the reply, as which stop and which order,
      what it dealt, and what of it rests afterwards. */
  lemma TriggeredBecomes(b: Book, typ: OrderType, input: Input, clock: Clock, s: Stop) returns (k: nat)
    requires WF(b) && typ in {Limit, Market} && Place(b, typ, input, clock).outcome.Ok? && s in b.stops
    requires !HasId(Place(b, typ, input, clock).book.stops, s.id)
    ensures var step := Place(b, typ, input, clock);
            var r := step.outcome.value;
            && |r.fills| == 1 + |r.triggered| && k < |r.triggered|
            && FireTime(s, r.marks) > 0
            && r.triggered[k] == Ratchet(s, r.marks[..FireTime(s, r.marks)]).(status := Triggered)
            && Entered(r.triggered[k], r.fills[k + 1], b.symbol, clock)
            && Became(s, r.fills[k + 1], r.trades, step.book)
  {
    hide WF, Place, StatusTells, FiredInOrder, StopIndex, FireTime, Bound, NoWorse, Ratchet;
    WFSane(b);
    PlaceTriggers(b, typ, input, clock);
    PlaceEnters(b, typ, input, clock);
    var step := Place(b, typ, input, clock);
    var r := step.outcome.value;
    ListedStop(b, s);
    assert HasId(b.stops, s.id);
    k := FindTriggered(r.triggered, s.id);
    assert r.triggered[k] in r.triggered && Of(b.stops, s.id) == s;
    RatchetKeeps(s, r.marks[..FireTime(s, r.marks)]);
    SettledStop(b, typ, input, clock, s, k);
    var f := r.fills[k + 1];
    assert r.fills[1..][k] == f && f in r.fills[1..];
    BecomesSo(b, typ, input, clock, s, f);
  }

  lemma BecomesSo(b: Book, typ: OrderType, input: Input, clock: Clock, s: Stop, f: Order)
    requires WF(b) && typ in {Limit, Market} && Place(b, typ, input, clock).outcome.Ok? && s in b.stops
    requires f.id == s.id && f.side == s.side && (s.typ != StopLimit ==> f.typ == Market)
    requires var step := Place(b, typ, input, clock);
             && Lands([f], step.book)
             && forall side: Side ::
                  Dealt(step.outcome.value.trades, side, s.id) + RestingStake(step.book, s.id, side)
                  == if side != s.side then 0 else if s.typ == StopLimit then s.remaining else s.remaining - f.remaining
    ensures Became(s, f, Place(b, typ, input, clock).outcome.value.trades, Place(b, typ, input, clock).book)
  {
    hide WF, Place, Bound, NoWorse, Resting;
    WFSane(b);
    var step := Place(b, typ, input, clock);
    PlaceKeepsWF(b, typ, input, clock);
    NotPlaced(b, typ, input, clock, s);
    assert f in [f];
    if Resting(step.book, s.id).Some? {
      RestsLive(step.book, s.id);
    }
    if s.typ == StopLimit {
      OnlyPending(b, s);
      PlaceBound(b, typ, input, clock, s.id, s.side, s.price.value);
    }
  }

  // ------------------------------------------------------------- whole lives

  /** From when a stop is pending: whatever happens while it waits, if an accepted order then triggers it, it enters as
      the stop was, trailing aside. */
  lemma LifeOfAStop(b: Book, rs: seq<Request>, id: string, typ: OrderType, input: Input, clock: Clock) returns (k: nat)
    requires Good(b) && Admissible(b, rs) && Survives(b, rs, id)
    requires Sane(b) && typ in {Limit, Market} && Place(Run(b, rs), typ, input, clock).outcome.Ok?
    requires !HasId(Place(Run(b, rs), typ, input, clock).book.stops, id)
    ensures HoldsStop(b.stops, id)
    ensures var step := Place(Run(b, rs), typ, input, clock);
            var r, s := step.outcome.value, Of(b.stops, id);
            && |r.fills| == 1 + |r.triggered| && k < |r.triggered|
            && var marks := RunMarks(b, rs) + r.marks[..FireTime(Ratchet(s, RunMarks(b, rs)), r.marks)];
               && r.triggered[k] == Ratchet(s, marks).(status := Triggered)
               && Entered(r.triggered[k], r.fills[k + 1], b.symbol, clock)
               && Became(s, r.fills[k + 1], r.trades, step.book)
    ensures var r := Place(Run(b, rs), typ, input, clock).outcome.value;
            exists m :: m in r.marks
                        && if r.triggered[k].side == Buy then m >= r.triggered[k].trigger else m <= r.triggered[k].trigger
  {
    hide WF, Clean, Place, Exec, Entered, StopIndex, Ratchet, FireTime, LiveQueue;
    RunKeepsGood(b, rs);
    RunKeepsSymbol(b, rs);
    RunRatchets(b, rs, id);
    var b2 := Run(b, rs);
    var s, s2 := Of(b.stops, id), Of(b2.stops, id);
    assert s2 in b2.stops && s2.id == id;
    k := TriggeredBecomes(b2, typ, input, clock, s2);
    TriggersExactly(b2, typ, input, clock, s2);
    var r := Place(b2, typ, input, clock).outcome.value;
    assert r.triggered[k] in r.triggered;
    RatchetAppend(s, RunMarks(b, rs), r.marks[..FireTime(s2, r.marks)]);
    RatchetKeeps(s, RunMarks(b, rs));
    SameBecame(s, s2, r.fills[k + 1], r.trades, Place(b2, typ, input, clock).book);
  }

  lemma SameBecame(s: Stop, s2: Stop, f: Order, ts: seq<Trade>, b: Book)
    requires s2 == s.(trigger := s2.trigger, peak := s2.peak, valley := s2.valley)
    ensures Became(s2, f, ts, b) <==> Became(s, f, ts, b)
  {
  }

  lemma {:induction false} RunKeepsSymbol(b: Book, rs: seq<Request>)
    requires Good(b) && Admissible(b, rs)
    ensures Run(b, rs).symbol == b.symbol
    decreases |rs|
  {
    hide WF, Clean, Exec, Sane;
    if rs != [] {
      NextKeepsGood(b, rs[0]);
      NextKeepsSymbol(b, rs[0]);
      RunKeepsSymbol(Next(b, rs[0]).book, rs[1..]);
    }
  }

  /** The stop that a placing command adds. */
  lemma PlacedStop(b: Book, typ: OrderType, input: Input, peak: Option<int>, valley: Option<int>)
    requires WF(b) && Sane(b) && PlaceStop(b, typ, input, peak, valley).outcome.Ok?
    ensures input.side.Some? && input.trigger.Some? && input.quantity > 0
    ensures typ == StopLimit ==> input.price.Some? && input.price.value > 0
    ensures var stops := PlaceStop(b, typ, input, peak, valley).book.stops;
            && HoldsStop(stops, input.orderId)
            && var s := Of(stops, input.orderId);
               && s.id == input.orderId && s.user == input.userId && s.symbol == b.symbol && Some(s.side) == input.side
               && s.typ == typ && Some(s.trigger) == input.trigger && s.price == input.price
               && s.trailingAmount == input.trailingAmount && s.peak == peak && s.valley == valley
               && s.quantity == s.remaining == input.quantity && s.status == Open && s.timestamp == input.timestamp
  {
    hide WF, StopIndex;
    LastStop(b.stops, PlaceStop(b, typ, input, peak, valley).outcome.value.placed.stop);
  }

  /** The commands after a stop has been placed: any that leave it pending, and then an accepted order that triggers it. */
  ghost predicate Triggering(b: Book, rs: seq<Request>, id: string, typ: OrderType, input: Input, clock: Clock) {
    && Good(b) && Sane(b) && Admissible(b, rs) && Survives(b, rs, id)
    && typ in {Limit, Market} && Place(Run(b, rs), typ, input, clock).outcome.Ok?
    && !HasId(Place(Run(b, rs), typ, input, clock).book.stops, id)
  }

  /** A stop-limit order, from the command that places it.  When it is triggered, a last price has reached its trigger;
      it enters as a limit order with everything that the command said, at the limit that it said; nothing of it ever
      trades at a worse price; and what it has not dealt rests, at that limit. */
  lemma LifeOfAStopLimit(b: Book, placing: Input, at: Clock, rs: seq<Request>, typ: OrderType, input: Input, clock: Clock)
    returns (k: nat)
    requires Good(b) && Next(b, Request(PlaceStopLimit(placing), at)).outcome.Ok?
    requires Triggering(Next(b, Request(PlaceStopLimit(placing), at)).book, rs, placing.orderId, typ, input, clock)
    ensures placing.side.Some? && placing.trigger.Some? && placing.price.Some?
    ensures var step := Place(Run(Next(b, Request(PlaceStopLimit(placing), at)).book, rs), typ, input, clock);
            var r, buys, id := step.outcome.value, placing.side.value == Buy, placing.orderId;
            && k < |r.triggered| && k + 1 < |r.fills| && r.triggered[k].id == id
            && (exists m :: m in r.marks && if buys then m >= placing.trigger.value else m <= placing.trigger.value)
            && var f, rest := r.fills[k + 1], Resting(step.book, id);
               && f.id == id && f.user == placing.userId && f.symbol == b.symbol && f.side == placing.side.value
               && f.typ == Limit && f.price == placing.price && f.initial == placing.quantity && f.timestamp == clock(id)
               && StatusTells(f)
               && (forall t :: t in r.trades ==>
                     && (buys && t.buyId == id ==> t.price <= placing.price.value)
                     && (!buys && t.sellId == id ==> t.price >= placing.price.value))
               && Dealt(r.trades, if buys then Buy else Sell, id) == placing.quantity - LeftOver(rest)
               && Dealt(r.trades, if buys then Sell else Buy, id) == 0
               && (rest.Some? ==> SameOrder(f, rest.value))
  {
    hide WF, Clean, PlaceStop, Place, StatusTells, Run, RunMarks, Admissible, Survives, FireTime, Resting, Dealt, StopIndex;
    GoodSane(b);
    var b1 := Next(b, Request(PlaceStopLimit(placing), at)).book;
    PlacedStop(b, StopLimit, placing, None, None);
    StopKeepsSymbol(b, StopLimit, placing, None, None);
    k := LifeOfAStop(b1, rs, placing.orderId, typ, input, clock);
    var s := Of(b1.stops, placing.orderId);
    var r := Place(Run(b1, rs), typ, input, clock).outcome.value;
    RatchetKeeps(s, RunMarks(b1, rs) + r.marks[..FireTime(Ratchet(s, RunMarks(b1, rs)), r.marks)]);
  }

  lemma StopKeepsSymbol(b: Book, typ: OrderType, input: Input, peak: Option<int>, valley: Option<int>)
    requires Sane(b)
    ensures PlaceStop(b, typ, input, peak, valley).book.symbol == b.symbol
  {
    hide LiveQueue, Taken;
  }

  /** A stop-market order, from the command that places it: it enters as a market order with everything that the command
      said, and is dropped for whatever it cannot deal at once. */
  lemma LifeOfAStopMarket(b: Book, placing: Input, at: Clock, rs: seq<Request>, typ: OrderType, input: Input, clock: Clock)
    returns (k: nat)
    requires Good(b) && Next(b, Request(PlaceStopMarket(placing), at)).outcome.Ok?
    requires Triggering(Next(b, Request(PlaceStopMarket(placing), at)).book, rs, placing.orderId, typ, input, clock)
    ensures placing.side.Some? && placing.trigger.Some?
    ensures var step := Place(Run(Next(b, Request(PlaceStopMarket(placing), at)).book, rs), typ, input, clock);
            var r, buys, id := step.outcome.value, placing.side.value == Buy, placing.orderId;
            && k < |r.triggered| && k + 1 < |r.fills| && r.triggered[k].id == id
            && (exists m :: m in r.marks && if buys then m >= placing.trigger.value else m <= placing.trigger.value)
            && var f := r.fills[k + 1];
               && f.id == id && f.user == placing.userId && f.symbol == b.symbol && f.side == placing.side.value
               && f.typ == Market && f.price == None && f.initial == placing.quantity && f.timestamp == clock(id)
               && StatusTells(f)
               && Dealt(r.trades, if buys then Buy else Sell, id) == placing.quantity - f.remaining
               && Dealt(r.trades, if buys then Sell else Buy, id) == 0
               && Resting(step.book, id).None?
  {
    hide WF, Clean, PlaceStop, Place, StatusTells, Run, RunMarks, Admissible, Survives, FireTime, Resting, Dealt, StopIndex;
    GoodSane(b);
    var b1 := Next(b, Request(PlaceStopMarket(placing), at)).book;
    PlacedStop(b, StopMarket, placing, None, None);
    StopKeepsSymbol(b, StopMarket, placing, None, None);
    k := LifeOfAStop(b1, rs, placing.orderId, typ, input, clock);
    var s := Of(b1.stops, placing.orderId);
    var r := Place(Run(b1, rs), typ, input, clock).outcome.value;
    RatchetKeeps(s, RunMarks(b1, rs) + r.marks[..FireTime(Ratchet(s, RunMarks(b1, rs)), r.marks)]);
  }

  /** A trailing stop that sells (or buys), from the command that places it: it starts at the last price, its trigger is
      the trailing amount below (above) the running maximum (minimum) of the last prices up to the one that reaches it,
      and it enters as a market order. */
  lemma LifeOfATriggeredTrailingStop(b: Book, placing: Input, at: Clock, rs: seq<Request>, typ: OrderType, input: Input,
                                     clock: Clock) returns (k: nat, marks: seq<int>)
    requires Good(b) && Next(b, Request(PlaceTrailingStopMarket(placing), at)).outcome.Ok?
    requires Triggering(Next(b, Request(PlaceTrailingStopMarket(placing), at)).book, rs, placing.orderId, typ, input, clock)
    ensures placing.side.Some? && placing.trailingAmount.Some? && b.last.Some?
    ensures var b1 := Next(b, Request(PlaceTrailingStopMarket(placing), at)).book;
            var step := Place(Run(b1, rs), typ, input, clock);
            var r, buys, id := step.outcome.value, placing.side.value == Buy, placing.orderId;
            && k < |r.triggered| && k + 1 < |r.fills|
            && RunMarks(b1, rs) <= marks <= RunMarks(b1, rs) + r.marks
            && var t, f := r.triggered[k], r.fills[k + 1];
               && t.id == id
               && (buys ==> t.valley.Some? && IsRunningMin(b.last.value, marks, t.valley.value)
                            && t.trigger == t.valley.value + placing.trailingAmount.value)
               && (!buys ==> t.peak.Some? && IsRunningMax(b.last.value, marks, t.peak.value)
                             && t.trigger == t.peak.value - placing.trailingAmount.value)
               && (exists m :: m in r.marks && if buys then m >= t.trigger else m <= t.trigger)
               && f.id == id && f.user == placing.userId && f.symbol == b.symbol && f.side == placing.side.value
               && f.typ == Market && f.price == None && f.initial == placing.quantity && f.timestamp == clock(id)
               && StatusTells(f)
               && Dealt(r.trades, if buys then Buy else Sell, id) == placing.quantity - f.remaining
               && Dealt(r.trades, if buys then Sell else Buy, id) == 0
               && Resting(step.book, id).None?
  {
    hide WF, Clean, PlaceStop, Place, StatusTells, Run, RunMarks, Admissible, Survives, FireTime, Resting, Dealt, StopIndex,
         IsRunningMax, IsRunningMin;
    GoodSane(b);
    NextKeepsGoodStop(b, placing, at);
    var b1 := Next(b, Request(PlaceTrailingStopMarket(placing), at)).book;
    PlacedTrailing(b, placing);
    k := LifeOfAStop(b1, rs, placing.orderId, typ, input, clock);
    var s := Of(b1.stops, placing.orderId);
    var r := Place(Run(b1, rs), typ, input, clock).outcome.value;
    marks := RunMarks(b1, rs) + r.marks[..FireTime(Ratchet(s, RunMarks(b1, rs)), r.marks)];
    RatchetKeeps(s, marks);
    assert s in b1.stops;
    ListedStop(b1, s);
    if s.side == Sell {
      RatchetIsRunningMax(s, marks, b1.symbol);
    } else {
      RatchetIsRunningMin(s, marks, b1.symbol);
    }
  }

  lemma NextKeepsGoodStop(b: Book, placing: Input, at: Clock)
    requires Good(b)
    ensures Sane(b) && WF(Next(b, Request(PlaceTrailingStopMarket(placing), at)).book)
  {
    hide WF, Clean, Exec;
    WFSane(b);
    ExecKeepsWF(b, PlaceTrailingStopMarket(placing), at);
  }

  lemma PlacedTrailing(b: Book, placing: Input)
    requires Good(b) && Sane(b) && PlaceTrailing(b, placing).outcome.Ok?
    ensures placing.side.Some? && placing.trailingAmount.Some? && b.last.Some?
    ensures var b1 := PlaceTrailing(b, placing).book;
            && b1.symbol == b.symbol && HoldsStop(b1.stops, placing.orderId)
            && var s := Of(b1.stops, placing.orderId);
               && s.id == placing.orderId && s.user == placing.userId && s.side == placing.side.value
               && s.typ == TrailingStopMarket && s.trailingAmount == placing.trailingAmount
               && s.remaining == placing.quantity
               && (s.side == Sell ==> s.peak == b.last) && (s.side == Buy ==> s.valley == b.last)
  {
    hide WF, Clean, PlaceStop, StopIndex;
    var last, amount := b.last.value, placing.trailingAmount.value;
    var trigger := Some(if placing.side.value == Sell then last - amount else last + amount);
    var peak := if placing.side.value == Sell then Some(last) else None;
    var valley := if placing.side.value == Sell then None else Some(last);
    PlacedStop(b, TrailingStopMarket, placing.(trigger := trigger), peak, valley);
    StopKeepsSymbol(b, TrailingStopMarket, placing.(trigger := trigger), peak, valley);
  }
}
