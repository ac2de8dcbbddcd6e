/** Trailing stops ratchet: the extreme of a trailing stop is the running
    maximum (or minimum) of the last prices set since it was placed, its
    trigger follows at a fixed distance and never moves back, and between
    commands the last price lies strictly on the far side of the trigger. */
module Trailing {
  import opened Types
  import opened Matching
  import opened BookSpec
  import opened Invariant
  import opened StopCascade
  import opened Runs

  // --------------------------------------------------------- between commands

  predicate TrailingSell(s: Stop) {
    s.typ == TrailingStopMarket && s.side == Sell
  }

  predicate TrailingBuy(s: Stop) {
    s.typ == TrailingStopMarket && s.side == Buy
  }

  /** The last price has not passed the extreme. */
  predicate Follows(s: Stop, last: int) {
    && (TrailingSell(s) ==> s.peak.Some? && last <= s.peak.value)
    && (TrailingBuy(s) ==> s.valley.Some? && s.valley.value <= last)
  }

  predicate AllFollow(b: Book) {
    b.last.Some? ==> forall s :: s in b.stops ==> Follows(s, b.last.value)
  }

  /** The position of every trailing stop between commands. */
  predicate InRange(s: Stop, last: int) {
    && (TrailingSell(s) ==> s.peak.Some? && s.trigger < last <= s.peak.value)
    && (TrailingBuy(s) ==> s.valley.Some? && s.valley.value <= last < s.trigger)
  }

  predicate TrailsInRange(b: Book) {
    forall s :: s in b.stops && s.typ == TrailingStopMarket ==> b.last.Some? && InRange(s, b.last.value)
  }

  lemma MarkFollows(b: Book, price: int)
    ensures AllFollow(Mark(b, price))
  {
  }

  lemma CycleFollows(b: Book, price: int, clock: Clock)
    requires WF(b) && Cycle(b, price, clock).error.None?
    ensures AllFollow(Cycle(b, price, clock).book)
  {
    hide WF, RunStops, EligibleStops, Waiting, Follows, LiveQueue;
    WFSane(b);
    CycleKeepsWF(b, price, clock);
    MarkKeepsWF(b, price);
    MarkFollows(b, price);
    var b1 := Mark(b, price);
    EligibleWaiting(b1, price);
    CycleParts(b, price, clock);
    RunStopsLeaves(b1, EligibleStops(b1.stops, price), clock);
  }

  lemma {:induction false} CyclesFollow(b: Book, latest: seq<Trade>, cycle: nat, clock: Clock)
    requires WF(b) && latest != [] && Cycles(b, latest, cycle, clock).error.None?
    ensures AllFollow(Cycles(b, latest, cycle, clock).book)
    decreases if cycle > MAX_CYCLES then 0 else MAX_CYCLES + 1 - cycle
  {
    hide WF, Cycle, AllFollow;
    WFSane(b);
    var price := LastPrice(latest);
    CycleKeepsWF(b, price, clock);
    CycleFollows(b, price, clock);
    var c := Cycle(b, price, clock);
    if c.trades != [] {
      CyclesFollow(c.book, c.trades, cycle + 1, clock);
    }
  }

  lemma QuietAndFollowing(b: Book)
    requires WF(b) && b.last.Some? && Quiet(b) && AllFollow(b)
    ensures TrailsInRange(b)
  {
  }

  lemma PlaceKeepsRange(b: Book, typ: OrderType, input: Input, clock: Clock)
    requires Good(b) && TrailsInRange(b) && |b.stops| < MAX_CYCLES && typ in {Limit, Market}
    ensures TrailsInRange(Place(b, typ, input, clock).book)
  {
    hide WF, Clean, Taken, Submit, Cycles, LiveQueue, Quiet, AllFollow, TrailsInRange;
    WFSane(b);
    PlaceIsAtomic(b, typ, input, clock);
    if Place(b, typ, input, clock).outcome.Ok? {
      var o := NewOrder(b.symbol, typ, input).value;
      SubmitKeepsWF(b, o);
      SubmitFrame(b, o);
      var r := Submit(b, o);
      if r.trades == [] {
        NoCycles(r.book, 1, clock);
      } else {
        CyclesKeepWF(r.book, r.trades, 1, clock);
        CyclesReachFixpoint(r.book, r.trades, 1, clock);
        CyclesFollow(r.book, r.trades, 1, clock);
        QuietAndFollowing(Cycles(r.book, r.trades, 1, clock).book);
      }
      SameStopsInRange(Cycles(r.book, r.trades, 1, clock).book, Place(b, typ, input, clock).book);
      SameStopsInRange(b, r.book);
    }
  }

  lemma SameStopsInRange(b: Book, b': Book)
    requires b'.stops == b.stops && b'.last == b.last
    ensures TrailsInRange(b) ==> TrailsInRange(b')
  {
  }

  /** Between commands: a sell trailing stop has trigger < last price <= peak,
      a buy trailing stop valley <= last price < trigger. */
  lemma NextKeepsRange(b: Book, r: Request)
    requires Good(b) && TrailsInRange(b) && CleanCommand(r.command) && Roomy(b, r.command)
    ensures TrailsInRange(Next(b, r).book)
  {
    hide Place, WF, Clean, LiveQueue;
    WFSane(b);
    match r.command
    case PlaceLimit(input) => PlaceKeepsRange(b, Limit, input, r.clock);
    case PlaceMarket(input) => PlaceKeepsRange(b, Market, input, r.clock);
    case Cancel(id) => WithoutInRange(b, id);
    case PlaceTrailingStopMarket(input) => TrailingStartsInRange(b, input);
    case _ =>
  }

  lemma WithoutInRange(b: Book, id: string)
    requires WF(b) && TrailsInRange(b)
    ensures TrailsInRange(CancelById(b, id).book)
  {
    WithoutStopParts(b.stops, id, b.symbol, b.last.Some?);
  }

  lemma TrailingStartsInRange(b: Book, input: Input)
    requires Sane(b) && TrailsInRange(b)
    ensures TrailsInRange(PlaceTrailing(b, input).book)
  {
    hide Sane, Taken;
  }

  lemma {:induction false} RunKeepsRange(b: Book, rs: seq<Request>)
    requires Good(b) && TrailsInRange(b) && Admissible(b, rs)
    ensures TrailsInRange(Run(b, rs))
    decreases |rs|
  {
    hide Good, Exec, Sane, TrailsInRange;
    GoodSane(b);
    if rs != [] {
      NextKeepsGood(b, rs[0]);
      NextKeepsRange(b, rs[0]);
      RunKeepsRange(Next(b, rs[0]).book, rs[1..]);
    }
  }

  // ------------------------------------------------------------- the ratchet

  /** A stop after a sequence of last prices. */
  function Ratchet(s: Stop, marks: seq<int>): Stop
    decreases |marks|
  {
    if marks == [] then s else Ratchet(Trail(s, marks[0]), marks[1..])
  }

  lemma {:induction false} RatchetAppend(s: Stop, ms: seq<int>, ns: seq<int>)
    ensures Ratchet(s, ms + ns) == Ratchet(Ratchet(s, ms), ns)
    decreases |ms|
  {
    if ms == [] {
      assert ms + ns == ns;
    } else {
      assert (ms + ns)[0] == ms[0] && (ms + ns)[1..] == ms[1..] + ns;
      RatchetAppend(Trail(s, ms[0]), ms[1..], ns);
    }
  }

  /** `x'` is the largest of `x` and the given prices. */
  predicate IsRunningMax(x: int, marks: seq<int>, x': int) {
    && x <= x'
    && (forall m :: m in marks ==> m <= x')
    && (x' == x || x' in marks)
  }

  predicate IsRunningMin(x: int, marks: seq<int>, x': int) {
    && x' <= x
    && (forall m :: m in marks ==> x' <= m)
    && (x' == x || x' in marks)
  }

  lemma {:induction false} RatchetIsRunningMax(s: Stop, marks: seq<int>, symbol: string)
    requires StopOk(s, symbol) && TrailingSell(s)
    ensures var s' := Ratchet(s, marks);
            && s'.peak.Some? && IsRunningMax(s.peak.value, marks, s'.peak.value)
            && s' == s.(peak := s'.peak, trigger := s'.peak.value - s.trailingAmount.value)
            && s.trigger <= s'.trigger
    decreases |marks|
  {
    if marks != [] {
      RatchetIsRunningMax(Trail(s, marks[0]), marks[1..], symbol);
      assert forall m :: m in marks <==> m == marks[0] || m in marks[1..];
    }
  }

  lemma {:induction false} RatchetIsRunningMin(s: Stop, marks: seq<int>, symbol: string)
    requires StopOk(s, symbol) && TrailingBuy(s)
    ensures var s' := Ratchet(s, marks);
            && s'.valley.Some? && IsRunningMin(s.valley.value, marks, s'.valley.value)
            && s' == s.(valley := s'.valley, trigger := s'.valley.value + s.trailingAmount.value)
            && s'.trigger <= s.trigger
    decreases |marks|
  {
    if marks != [] {
      RatchetIsRunningMin(Trail(s, marks[0]), marks[1..], symbol);
      assert forall m :: m in marks <==> m == marks[0] || m in marks[1..];
    }
  }

  /** Every stop still pending comes from one that was pending, ratcheted by the given prices. */
  predicate RatchetedFrom(before: seq<Stop>, after: seq<Stop>, marks: seq<int>) {
    forall s' :: s' in after ==> exists s :: s in before && s' == Ratchet(s, marks)
  }

  lemma RatchetedThen(a: seq<Stop>, b: seq<Stop>, c: seq<Stop>, ms: seq<int>, ns: seq<int>)
    requires RatchetedFrom(a, b, ms) && RatchetedFrom(b, c, ns)
    ensures RatchetedFrom(a, c, ms + ns)
  {
    forall s' | s' in c
      ensures exists s :: s in a && s' == Ratchet(s, ms + ns)
    {
      var m :| m in b && s' == Ratchet(m, ns);
      var s :| s in a && m == Ratchet(s, ms);
      RatchetAppend(s, ms, ns);
    }
  }

  lemma RatchetedNothing(stops: seq<Stop>)
    ensures RatchetedFrom(stops, stops, [])
  {
    forall s | s in stops
      ensures exists r :: r in stops && s == Ratchet(r, [])
    {
      assert s == Ratchet(s, []);
    }
  }

  lemma MarkRatchets(b: Book, price: int)
    ensures RatchetedFrom(b.stops, Mark(b, price).stops, [price])
  {
    forall s' | s' in Mark(b, price).stops
      ensures exists s :: s in b.stops && s' == Ratchet(s, [price])
    {
      var i :| 0 <= i < |b.stops| && s' == Trail(b.stops[i], price);
      assert Ratchet(b.stops[i], [price]) == Ratchet(Trail(b.stops[i], price), [price][1..]);
      assert b.stops[i] in b.stops;
    }
  }

  lemma CycleRatchets(b: Book, price: int, clock: Clock)
    requires WF(b) && Cycle(b, price, clock).error.None?
    ensures var c := Cycle(b, price, clock); RatchetedFrom(b.stops, c.book.stops, c.marks)
  {
    hide WF, RunStops, EligibleStops, Waiting, LiveQueue, Ratchet;
    WFSane(b);
    MarkKeepsWF(b, price);
    MarkRatchets(b, price);
    var b1 := Mark(b, price);
    EligibleWaiting(b1, price);
    CycleParts(b, price, clock);
    RunStopsLeaves(b1, EligibleStops(b1.stops, price), clock);
  }

  lemma {:induction false} CyclesRatchet(b: Book, latest: seq<Trade>, cycle: nat, clock: Clock)
    requires WF(b) && Cycles(b, latest, cycle, clock).error.None?
    ensures var c := Cycles(b, latest, cycle, clock); RatchetedFrom(b.stops, c.book.stops, c.marks)
    decreases if cycle > MAX_CYCLES then 0 else MAX_CYCLES + 1 - cycle
  {
    hide WF, Cycle, RatchetedFrom;
    WFSane(b);
    RatchetedNothing(b.stops);
    if latest != [] {
      var price := LastPrice(latest);
      CycleKeepsWF(b, price, clock);
      CycleRatchets(b, price, clock);
      var c := Cycle(b, price, clock);
      CyclesRatchet(c.book, c.trades, cycle + 1, clock);
      var d := Cycles(c.book, c.trades, cycle + 1, clock);
      RatchetedThen(b.stops, c.book.stops, d.book.stops, c.marks, d.marks);
    }
  }

  function MarksOf(s: Step): seq<int> {
    if s.outcome.Ok? then s.outcome.value.marks else []
  }

  lemma PlaceRatchets(b: Book, typ: OrderType, input: Input, clock: Clock)
    requires WF(b) && typ in {Limit, Market} && Place(b, typ, input, clock).outcome.Ok?
    ensures var s := Place(b, typ, input, clock); RatchetedFrom(b.stops, s.book.stops, MarksOf(s))
  {
    hide WF, Taken, Submit, Cycles, LiveQueue, RatchetedFrom;
    WFSane(b);
    var o := NewOrder(b.symbol, typ, input).value;
    SubmitKeepsWF(b, o);
    SubmitFrame(b, o);
    var r := Submit(b, o);
    CyclesRatchet(r.book, r.trades, 1, clock);
  }

  function StopAt(b: Book, id: string): Stop
    requires HoldsStop(b.stops, id)
  {
    b.stops[StopIndex(b.stops, id)]
  }

  /** A stop pending before and after a command has been ratcheted by exactly the last prices the command set. */
  lemma NextRatchets(b: Book, r: Request, id: string)
    requires Good(b) && CleanCommand(r.command) && Roomy(b, r.command)
    requires HoldsStop(b.stops, id) && HoldsStop(Next(b, r).book.stops, id)
    ensures StopAt(Next(b, r).book, id) == Ratchet(StopAt(b, id), MarksOf(Next(b, r)))
  {
    hide WF, Clean, Place, PlaceStop, CancelById, Ratchet, RatchetedFrom, StopIndex, LiveQueue;
    WFSane(b);
    NextKeepsGood(b, r);
    EmptyRatchet(StopAt(b, id));
    var s := Next(b, r);
    if s.outcome.Ok? {
      match r.command
      case PlaceLimit(input) =>
        PlaceRatchets(b, Limit, input, r.clock);
        SameStop(b, s.book, id, MarksOf(s));
      case PlaceMarket(input) =>
        PlaceRatchets(b, Market, input, r.clock);
        SameStop(b, s.book, id, MarksOf(s));
      case Cancel(other) =>
        CancelRatchets(b, other);
        SameStop(b, s.book, id, []);
      case PlaceStopMarket(input) => PlaceStopAppends(b, StopMarket, input, None, None, id);
      case PlaceStopLimit(input) => PlaceStopAppends(b, StopLimit, input, None, None, id);
      case PlaceTrailingStopMarket(input) => PlaceTrailingAppends(b, input, id);
    }
  }

  lemma PlaceStopAppends(b: Book, typ: OrderType, input: Input, peak: Option<int>, valley: Option<int>, id: string)
    requires Sane(b) && HoldsStop(b.stops, id)
    ensures var s := PlaceStop(b, typ, input, peak, valley);
            MarksOf(s) == [] && HoldsStop(s.book.stops, id) && StopAt(s.book, id) == StopAt(b, id)
  {
    hide StopIndex, Taken, Sane;
    AppendedStop(b.stops, PlaceStop(b, typ, input, peak, valley).book.stops, id);
  }

  lemma PlaceTrailingAppends(b: Book, input: Input, id: string)
    requires Sane(b) && HoldsStop(b.stops, id)
    ensures var s := PlaceTrailing(b, input);
            MarksOf(s) == [] && HoldsStop(s.book.stops, id) && StopAt(s.book, id) == StopAt(b, id)
  {
    hide StopIndex, Taken, Sane;
    AppendedStop(b.stops, PlaceTrailing(b, input).book.stops, id);
  }

  lemma AppendedStop(stops: seq<Stop>, more: seq<Stop>, id: string)
    requires stops <= more && HoldsStop(stops, id)
    ensures HoldsStop(more, id) && more[StopIndex(more, id)] == stops[StopIndex(stops, id)]
    decreases |stops|
  {
    if stops[0].id != id {
      AppendedStop(stops[1..], more[1..], id);
    }
  }

  lemma CancelRatchets(b: Book, id: string)
    requires WF(b)
    ensures RatchetedFrom(b.stops, CancelById(b, id).book.stops, [])
    ensures MarksOf(CancelById(b, id)) == []
  {
    RatchetedNothing(b.stops);
    WithoutStopParts(b.stops, id, b.symbol, b.last.Some?);
  }

  lemma {:induction false} RatchetKeepsId(s: Stop, marks: seq<int>)
    ensures Ratchet(s, marks).id == s.id
    decreases |marks|
  {
    if marks != [] {
      RatchetKeepsId(Trail(s, marks[0]), marks[1..]);
    }
  }

  lemma SameStop(b: Book, b': Book, id: string, marks: seq<int>)
    requires WF(b) && RatchetedFrom(b.stops, b'.stops, marks)
    requires HoldsStop(b.stops, id) && HoldsStop(b'.stops, id)
    ensures StopAt(b', id) == Ratchet(StopAt(b, id), marks)
  {
    assert StopAt(b', id) in b'.stops;
    var s :| s in b.stops && StopAt(b', id) == Ratchet(s, marks);
    RatchetKeepsId(s, marks);
    ListedStop(b, s);
  }

  // --------------------------------------------------------------------- runs

  /** All last prices that a run sets. */
  function RunMarks(b: Book, rs: seq<Request>): seq<int>
    requires Sane(b)
    decreases |rs|
  {
    if rs == [] then [] else MarksOf(Next(b, rs[0])) + RunMarks(Next(b, rs[0]).book, rs[1..])
  }

  /** The stop stays pending throughout: one life of it, not a later reuse of its id. */
  predicate Survives(b: Book, rs: seq<Request>, id: string)
    requires Sane(b)
    decreases |rs|
  {
    HoldsStop(b.stops, id) && (rs == [] || Survives(Next(b, rs[0]).book, rs[1..], id))
  }

  lemma {:induction false} RunRatchets(b: Book, rs: seq<Request>, id: string)
    requires Good(b) && Admissible(b, rs) && Survives(b, rs, id)
    ensures HoldsStop(Run(b, rs).stops, id)
    ensures StopAt(Run(b, rs), id) == Ratchet(StopAt(b, id), RunMarks(b, rs))
    decreases |rs|
  {
    hide Good, Exec, Sane, Ratchet, MarksOf, StopIndex;
    GoodSane(b);
    if rs == [] {
      EmptyRatchet(StopAt(b, id));
    } else {
      NextKeepsGood(b, rs[0]);
      NextRatchets(b, rs[0], id);
      var b' := Next(b, rs[0]).book;
      RunRatchets(b', rs[1..], id);
      RatchetAppend(StopAt(b, id), MarksOf(Next(b, rs[0])), RunMarks(b', rs[1..]));
    }
  }

  lemma EmptyRatchet(s: Stop)
    ensures Ratchet(s, []) == s
  {
  }

  /** Over any run that a trailing stop survives: its peak is the running
      maximum of the peak it had and all last prices set since, the trigger is
      the peak less the trailing amount and has not fallen; with the mirror
      image for buys. Everything else about the stop is unchanged. */
  lemma TrailingStopsRatchet(b: Book, rs: seq<Request>, id: string)
    requires Good(b) && Admissible(b, rs) && Survives(b, rs, id)
    requires StopAt(b, id).typ == TrailingStopMarket
    ensures HoldsStop(Run(b, rs).stops, id)
    ensures var s, s' := StopAt(b, id), StopAt(Run(b, rs), id);
            && s.trailingAmount.Some?
            && (s.side == Sell ==>
                  && s.peak.Some? && s'.peak.Some?
                  && IsRunningMax(s.peak.value, RunMarks(b, rs), s'.peak.value)
                  && s' == s.(peak := s'.peak, trigger := s'.peak.value - s.trailingAmount.value)
                  && s.trigger <= s'.trigger)
            && (s.side == Buy ==>
                  && s.valley.Some? && s'.valley.Some?
                  && IsRunningMin(s.valley.value, RunMarks(b, rs), s'.valley.value)
                  && s' == s.(valley := s'.valley, trigger := s'.valley.value + s.trailingAmount.value)
                  && s'.trigger <= s.trigger)
  {
    hide Exec, Sane, Ratchet, IsRunningMax, IsRunningMin, Clean;
    GoodSane(b);
    RunRatchets(b, rs, id);
    var s := StopAt(b, id);
    ListedStop(b, s);
    if s.side == Sell {
      RatchetIsRunningMax(s, RunMarks(b, rs), b.symbol);
    } else {
      RatchetIsRunningMin(s, RunMarks(b, rs), b.symbol);
    }
  }

  // ------------------------------------------------------------- trade prices

  function Joined(batches: seq<seq<Trade>>): seq<Trade> {
    if batches == [] then [] else batches[0] + Joined(batches[1..])
  }

  lemma {:induction false} JoinedAppend(a: seq<seq<Trade>>, b: seq<seq<Trade>>)
    ensures Joined(a + b) == Joined(a) + Joined(b)
  {
    if a == [] {
      assert a + b == b;
    } else {
      assert (a + b)[0] == a[0] && (a + b)[1..] == a[1..] + b;
      JoinedAppend(a[1..], b);
    }
  }

  /** The trades are these batches one after the other, none empty, and `marks` are the prices of their final trades. */
  predicate Marked(batches: seq<seq<Trade>>, ts: seq<Trade>, marks: seq<int>) {
    && Joined(batches) == ts && |batches| == |marks|
    && forall k :: 0 <= k < |batches| ==> batches[k] != [] && LastPrice(batches[k]) == marks[k]
  }

  lemma MarkedThen(a: seq<seq<Trade>>, s: seq<Trade>, ms: seq<int>, b: seq<seq<Trade>>, ts: seq<Trade>, ns: seq<int>)
    requires Marked(a, s, ms) && Marked(b, ts, ns)
    ensures Marked(a + b, s + ts, ms + ns)
  {
    hide Joined;
    JoinedAppend(a, b);
  }

  lemma OneBatch(batch: seq<Trade>)
    requires batch != []
    ensures Marked([batch], batch, [LastPrice(batch)])
  {
    assert Joined([batch]) == batch + Joined([]);
  }

  lemma NoBatches()
    ensures Marked([], [], [])
  {
  }

  /** The batches of a cascade: the trades that set it off, then those of each cycle that made some. */
  function CascadeBatches(b: Book, latest: seq<Trade>, cycle: nat, clock: Clock): seq<seq<Trade>>
    requires Sane(b)
    decreases if cycle > MAX_CYCLES then 0 else MAX_CYCLES + 1 - cycle
  {
    if latest == [] || cycle > MAX_CYCLES then []
    else
      var c := Cycle(b, LastPrice(latest), clock);
      [latest] + CascadeBatches(c.book, c.trades, cycle + 1, clock)
  }

  /** The last prices that a cascade sets are those of the final trades of its batches. */
  lemma {:induction false} CascadeMarks(b: Book, latest: seq<Trade>, cycle: nat, clock: Clock)
    requires WF(b) && Cycles(b, latest, cycle, clock).error.None?
    ensures var c := Cycles(b, latest, cycle, clock);
            Marked(CascadeBatches(b, latest, cycle, clock), latest + c.trades, c.marks)
    decreases if cycle > MAX_CYCLES then 0 else MAX_CYCLES + 1 - cycle
  {
    hide WF, Cycle, Marked, LiveQueue, RunStops;
    WFSane(b);
    NoBatches();
    if latest == [] {
      assert latest + [] == [];
    } else {
      var price := LastPrice(latest);
      CycleKeepsWF(b, price, clock);
      CycleParts(b, price, clock);
      var c := Cycle(b, price, clock);
      var d := Cycles(c.book, c.trades, cycle + 1, clock);
      ThenParts(c, d);
      CascadeMarks(c.book, c.trades, cycle + 1, clock);
      OneBatch(latest);
      MarkedThen([latest], latest, [price], CascadeBatches(c.book, c.trades, cycle + 1, clock), c.trades + d.trades, d.marks);
    }
  }

  lemma ThenParts(c: Cascade, d: Cascade)
    ensures Then(c, d).trades == c.trades + d.trades && Then(c, d).marks == c.marks + d.marks
    ensures Then(c, d).error == d.error
  {
  }

  function TradesOf(s: Step): seq<Trade> {
    if s.outcome.Ok? then s.outcome.value.trades else []
  }

  /** The batches of a placed order: its own trades, then those of each cycle of its cascade. */
  function PlacedBatches(b: Book, typ: OrderType, input: Input, clock: Clock): seq<seq<Trade>>
    requires Sane(b)
  {
    if Taken(b, input.orderId) then []
    else match NewOrder(b.symbol, typ, input)
      case Err(_) => []
      case Ok(o) => CascadeBatches(Submit(b, o).book, Submit(b, o).trades, 1, clock)
  }

  lemma PlacedMarks(b: Book, typ: OrderType, input: Input, clock: Clock)
    requires WF(b) && typ in {Limit, Market} && Place(b, typ, input, clock).outcome.Ok?
    ensures var s := Place(b, typ, input, clock); Marked(PlacedBatches(b, typ, input, clock), TradesOf(s), MarksOf(s))
  {
    hide WF, Taken, Submit, Cycles, LiveQueue, Marked, CascadeBatches;
    WFSane(b);
    var o := NewOrder(b.symbol, typ, input).value;
    SubmitKeepsWF(b, o);
    SubmitFrame(b, o);
    CascadeMarks(Submit(b, o).book, Submit(b, o).trades, 1, clock);
  }

  /** Only a limit or market order that is accepted trades. */
  function BatchesOf(b: Book, r: Request): seq<seq<Trade>>
    requires Sane(b)
  {
    if Next(b, r).outcome.Err? then []
    else match r.command
      case PlaceLimit(input) => PlacedBatches(b, Limit, input, r.clock)
      case PlaceMarket(input) => PlacedBatches(b, Market, input, r.clock)
      case _ => []
  }

  lemma NextMarks(b: Book, r: Request)
    requires Good(b)
    ensures Sane(b) && Marked(BatchesOf(b, r), TradesOf(Next(b, r)), MarksOf(Next(b, r)))
  {
    hide WF, Clean, Place, Marked, Taken, LiveQueue, PlacedBatches;
    WFSane(b);
    NoBatches();
    if Next(b, r).outcome.Ok? {
      match r.command
      case PlaceLimit(input) => PlacedMarks(b, Limit, input, r.clock);
      case PlaceMarket(input) => PlacedMarks(b, Market, input, r.clock);
      case _ =>
    }
  }

  /** All trades that a run reports. */
  function RunTrades(b: Book, rs: seq<Request>): seq<Trade>
    requires Sane(b)
    decreases |rs|
  {
    if rs == [] then [] else TradesOf(Next(b, rs[0])) + RunTrades(Next(b, rs[0]).book, rs[1..])
  }

  /** Their batches, order by order and cycle by cycle. */
  function RunBatches(b: Book, rs: seq<Request>): seq<seq<Trade>>
    requires Sane(b)
    decreases |rs|
  {
    if rs == [] then [] else BatchesOf(b, rs[0]) + RunBatches(Next(b, rs[0]).book, rs[1..])
  }

  /** The trades of a run are its batches one after the other, and it sets the last price once for each batch, to
      the price of its final trade. */
  lemma {:induction false} MarksAreTradePrices(b: Book, rs: seq<Request>)
    requires Good(b) && Admissible(b, rs)
    ensures Marked(RunBatches(b, rs), RunTrades(b, rs), RunMarks(b, rs))
    decreases |rs|
  {
    hide Good, Exec, Sane, MarksOf, TradesOf, BatchesOf, Marked;
    GoodSane(b);
    NoBatches();
    if rs != [] {
      NextKeepsGood(b, rs[0]);
      NextMarks(b, rs[0]);
      var s := Next(b, rs[0]);
      MarksAreTradePrices(s.book, rs[1..]);
      MarkedThen(BatchesOf(b, rs[0]), TradesOf(s), MarksOf(s),
                 RunBatches(s.book, rs[1..]), RunTrades(s.book, rs[1..]), RunMarks(s.book, rs[1..]));
    }
  }

  /** A trailing stop starts at the last price, at the trailing amount from its trigger. */
  lemma TrailingStartsAtLast(b: Book, input: Input)
    requires Good(b) && Sane(b) && PlaceTrailing(b, input).outcome.Ok?
    ensures b.last.Some? && input.side.Some? && input.trailingAmount.Some?
    ensures var b' := PlaceTrailing(b, input).book;
            && HoldsStop(b'.stops, input.orderId)
            && var s := StopAt(b', input.orderId);
               && s.typ == TrailingStopMarket && s.side == input.side.value && s.trailingAmount == input.trailingAmount
               && (s.side == Sell ==> s.peak == b.last && s.trigger == b.last.value - s.trailingAmount.value)
               && (s.side == Buy ==> s.valley == b.last && s.trigger == b.last.value + s.trailingAmount.value)
  {
    hide WF, Clean, StopIndex;
    var s := PlaceTrailing(b, input).outcome.value.placed.stop;
    LastStop(b.stops, s);
  }

  lemma LastStop(stops: seq<Stop>, s: Stop)
    requires !HoldsStop(stops, s.id)
    ensures StopIndex(stops + [s], s.id) == |stops|
  {
    hide StopIndex;
    assert (stops + [s])[|stops|] == s;
    assert forall i :: 0 <= i < |stops| ==> (stops + [s])[i].id == stops[i].id != s.id;
  }

  /** The whole life of a trailing stop, over trade prices: while it is pending, its peak is the running maximum
      of the last price at its placement and of the final trade price of every batch since, and its trigger is the
      peak less the trailing amount; with the mirror image for buys. */
  lemma LifeOfATrailingStop(b: Book, input: Input, clock: Clock, rs: seq<Request>)
    requires Good(b) && CleanCommand(PlaceTrailingStopMarket(input)) && Next(b, Request(PlaceTrailingStopMarket(input), clock)).outcome.Ok?
    requires var b' := Next(b, Request(PlaceTrailingStopMarket(input), clock)).book;
             Admissible(b', rs) && Survives(b', rs, input.orderId)
    ensures b.last.Some? && input.side.Some? && input.trailingAmount.Some?
    ensures var b' := Next(b, Request(PlaceTrailingStopMarket(input), clock)).book;
            && Marked(RunBatches(b', rs), RunTrades(b', rs), RunMarks(b', rs))
            && HoldsStop(Run(b', rs).stops, input.orderId)
            && var s := StopAt(Run(b', rs), input.orderId);
               && (input.side.value == Sell ==>
                     && s.peak.Some? && IsRunningMax(b.last.value, RunMarks(b', rs), s.peak.value)
                     && s.trigger == s.peak.value - input.trailingAmount.value)
               && (input.side.value == Buy ==>
                     && s.valley.Some? && IsRunningMin(b.last.value, RunMarks(b', rs), s.valley.value)
                     && s.trigger == s.valley.value + input.trailingAmount.value)
  {
    hide WF, Clean, PlaceTrailing, RunTrades, RunMarks, RunBatches, Marked, IsRunningMax, IsRunningMin, StopIndex, Admissible, Survives, Run;
    var r := Request(PlaceTrailingStopMarket(input), clock);
    GoodSane(b);
    NextKeepsGood(b, r);
    TrailingStartsAtLast(b, input);
    MarksAreTradePrices(Next(b, r).book, rs);
    TrailingStopsRatchet(Next(b, r).book, rs, input.orderId);
  }
}
