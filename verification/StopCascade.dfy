/** The stop cascade: it reaches a fixpoint, it needs at most one cycle more
    than there are pending stops, and rejections are atomic. */
module StopCascade {
  import opened Types
  import opened Matching
  import opened BookSpec
  import opened Invariant

  /** A market-type stop that carries a limit price: the one kind of stop whose execution fails. */
  predicate Poisoned(s: Stop) {
    s.typ != StopLimit && s.price.Some?
  }

  predicate Clean(b: Book) {
    forall s :: s in b.stops ==> !Poisoned(s)
  }

  /** A command that places no such stop. */
  predicate CleanCommand(c: Command) {
    match c
    case PlaceStopMarket(input) => input.price.None?
    case PlaceTrailingStopMarket(input) => input.price.None?
    case _ => true
  }

  /** Room for a cascade: only limit and market orders run one. */
  predicate Roomy(b: Book, c: Command) {
    c.PlaceLimit? || c.PlaceMarket? ==> |b.stops| < MAX_CYCLES
  }

  predicate AnyPoisoned(el: seq<Stop>) {
    exists i :: 0 <= i < |el| && Poisoned(el[i])
  }

  // ------------------------------------------------------------- one cycle

  /** Running the stops of a cycle fails exactly if one of them is poisoned. */
  lemma {:induction false} RunStopsFailsIff(b: Book, el: seq<Stop>, clock: Clock)
    requires WF(b) && Waiting(b, el)
    ensures RunStops(b, el, clock).error.Some? <==> AnyPoisoned(el)
    decreases |el|
  {
    hide WF, RunStop, Waiting, Poisoned;
    if el != [] {
      WFSane(b);
      HeadIsPending(b, el);
      FailsIff(b, el[0], clock(el[0].id));
      RunStopKeepsWF(b, el[0], clock(el[0].id));
      WaitingTail(b, el, clock(el[0].id));
      if !Poisoned(el[0]) {
        var b' := RunStop(b, el[0], clock(el[0].id)).book;
        RunStopsFailsIff(b', el[1..], clock);
        AnyPoisonedTail(el);
      }
    }
  }

  lemma HeadIsPending(b: Book, el: seq<Stop>)
    requires Waiting(b, el) && el != []
    ensures el[0] in b.stops
  {
  }

  lemma FailsIff(b: Book, s: Stop, now: nat)
    requires WF(b) && s in b.stops
    ensures RunStop(b, s, now).error.Some? <==> Poisoned(s)
  {
    RunStopFailsIff(b, s, now);
  }

  lemma AnyPoisonedTail(el: seq<Stop>)
    requires el != []
    ensures AnyPoisoned(el) <==> Poisoned(el[0]) || AnyPoisoned(el[1..])
  {
    if AnyPoisoned(el[1..]) {
      var i :| 0 <= i < |el[1..]| && Poisoned(el[1..][i]);
      assert Poisoned(el[i + 1]);
    }
    if AnyPoisoned(el) && !Poisoned(el[0]) {
      var i :| 0 <= i < |el| && Poisoned(el[i]);
      assert Poisoned(el[1..][i - 1]);
    }
  }

  /** What is still pending after the stops of a cycle have run: all the others. */
  lemma {:induction false} RunStopsLeaves(b: Book, el: seq<Stop>, clock: Clock)
    requires WF(b) && Waiting(b, el) && RunStops(b, el, clock).error.None?
    ensures forall s :: s in RunStops(b, el, clock).book.stops <==> s in b.stops && s !in el
    decreases |el|
  {
    if el != [] {
      var now := clock(el[0].id);
      var c := RunStop(b, el[0], now);
      RunStopKeepsWF(b, el[0], now);
      WaitingTail(b, el, now);
      LeftByOne(b, el[0]);
      RunStopsLeaves(c.book, el[1..], clock);
      assert forall s :: s in el <==> s == el[0] || s in el[1..];
    }
  }

  lemma LeftByOne(b: Book, s: Stop)
    requires WF(b) && s in b.stops
    ensures forall r :: r in WithoutStop(b.stops, s.id) <==> r in b.stops && r != s
  {
    WithoutStopParts(b.stops, s.id, b.symbol, b.last.Some?);
    forall r | r in b.stops && r.id == s.id
      ensures r == s
    {
      ListedStop(b, r);
      ListedStop(b, s);
    }
  }

  lemma {:induction false} EligibleExactly(stops: seq<Stop>, last: int, s: Stop)
    ensures s in EligibleStops(stops, last) <==> s in stops && Eligible(s, last)
  {
    if stops != [] {
      EligibleExactly(stops[1..], last, s);
      assert stops == [stops[0]] + stops[1..];
    }
  }

  /** No pending stop could fire at the last price. */
  predicate Quiet(b: Book) {
    b.last.Some? ==> forall s :: s in b.stops ==> !Eligible(s, b.last.value)
  }

  lemma CycleIsQuiet(b: Book, price: int, clock: Clock)
    requires WF(b) && Cycle(b, price, clock).error.None?
    ensures Quiet(Cycle(b, price, clock).book)
  {
    CycleKeepsWF(b, price, clock);
    MarkKeepsWF(b, price);
    var b1 := Mark(b, price);
    var el := EligibleStops(b1.stops, price);
    EligibleWaiting(b1, price);
    RunStopsLeaves(b1, el, clock);
    forall s | s in Cycle(b, price, clock).book.stops
      ensures !Eligible(s, price)
    {
      EligibleExactly(b1.stops, price, s);
    }
  }

  /** A cycle is its marked price followed by what its stops do. */
  lemma CycleParts(b: Book, price: int, clock: Clock)
    requires Sane(b)
    ensures var c, d := Cycle(b, price, clock),
                        RunStops(Mark(b, price), EligibleStops(Mark(b, price).stops, price), clock);
            && c.book == d.book && c.trades == d.trades && c.triggered == d.triggered
            && c.fills == d.fills && c.marks == [price] && c.error == d.error
  {
    hide RunStops, EligibleStops, LiveQueue;
    var b1 := Mark(b, price);
    RunStopsMarks(b1, EligibleStops(b1.stops, price), clock);
  }

  /** A stop that can be executed leaves the list and is submitted as a new order. */
  lemma RunStopSubmits(b: Book, s: Stop, now: nat) returns (o: Order)
    requires WF(b) && s in b.stops && RunStop(b, s, now).error.None?
    ensures o.id == s.id && o.user == s.user && o.symbol == b.symbol && o.side == s.side && o.timestamp == now
    ensures o.initial == o.remaining == s.remaining
    ensures s.typ == StopLimit ==> o.typ == Limit && o.price == s.price
    ensures s.typ != StopLimit ==> o.typ == Market && o.price == None
    ensures var b' := b.(stops := WithoutStop(b.stops, s.id));
            && WF(b') && Submittable(b', o)
            && var r, c := Submit(b', o), RunStop(b, s, now);
               c.book == r.book && c.trades == r.trades && c.triggered == [s.(status := Triggered)] && c.fills == [r.order]
  {
    hide WF, Submit, WithoutStop, LiveQueue, Taken;
    ListedStop(b, s);
    RunStopFailsIff(b, s, now);
    WithoutStopKeeps(b, s.id);
    WFSane(b);
    o := NewOrder(b.symbol, TriggeredType(s), StopInput(s, now)).value;
  }

  /** Trailing moves no stop to another place. */
  lemma MarkIndex(stops: seq<Stop>, price: int, id: string)
    ensures StopIndex(TrailAll(stops, price), id) == StopIndex(stops, id)
  {
  }

  /** A cascade that does not fail is its first cycle followed by the rest. */
  lemma CyclesParts(b: Book, latest: seq<Trade>, cycle: nat, clock: Clock)
    requires WF(b) && latest != [] && Cycles(b, latest, cycle, clock).error.None?
    ensures cycle <= MAX_CYCLES
    ensures var c := Cycle(b, LastPrice(latest), clock);
            var d := Cycles(c.book, c.trades, cycle + 1, clock);
            var e := Cycles(b, latest, cycle, clock);
            && WF(c.book) && c.error.None? && d.error.None? && e.book == d.book
            && e.trades == c.trades + d.trades && e.triggered == c.triggered + d.triggered && e.fills == c.fills + d.fills
            && e.marks == [LastPrice(latest)] + d.marks && e.events == c.events + d.events
  {
    hide Sane, Cycle, WF;
    WFSane(b);
    CycleKeepsWF(b, LastPrice(latest), clock);
    CycleParts(b, LastPrice(latest), clock);
  }

  lemma NoCycles(b: Book, cycle: nat, clock: Clock)
    requires Sane(b)
    ensures Cycles(b, [], cycle, clock) == Nothing(b)
  {
  }

  lemma NoStops(b: Book, clock: Clock)
    requires Sane(b)
    ensures RunStops(b, [], clock) == Nothing(b)
  {
  }

  /** Stops that all succeed are the first one followed by the rest. */
  lemma RunStopsParts(b: Book, el: seq<Stop>, clock: Clock)
    requires WF(b) && Waiting(b, el) && el != [] && RunStops(b, el, clock).error.None?
    ensures el[0] in b.stops
    ensures var c := RunStop(b, el[0], clock(el[0].id));
            var d := RunStops(c.book, el[1..], clock);
            var e := RunStops(b, el, clock);
            && WF(c.book) && Waiting(c.book, el[1..]) && c.error.None? && d.error.None? && e.book == d.book
            && e.trades == c.trades + d.trades && e.triggered == c.triggered + d.triggered && e.fills == c.fills + d.fills
            && e.events == c.events + d.events
  {
    hide Sane, RunStop, WF, Waiting;
    WFSane(b);
    HeadIsPending(b, el);
    RunStopKeepsWF(b, el[0], clock(el[0].id));
    WaitingTail(b, el, clock(el[0].id));
  }

  // ------------------------------------------------------------ the fixpoint

  /** A trading cascade that does not fail ends with no eligible stop pending,
      and with the last price at the price of the final trade made. */
  lemma {:induction false} CyclesReachFixpoint(b: Book, latest: seq<Trade>, cycle: nat, clock: Clock)
    requires WF(b) && latest != [] && Cycles(b, latest, cycle, clock).error.None?
    ensures var c := Cycles(b, latest, cycle, clock);
            Quiet(c.book) && c.book.last == Some(LastPrice(latest + c.trades))
    decreases if cycle > MAX_CYCLES then 0 else MAX_CYCLES + 1 - cycle
  {
    hide WF, Cycle, Quiet;
    WFSane(b);
    var price := LastPrice(latest);
    var c := Cycle(b, price, clock);
    CycleKeepsWF(b, price, clock);
    CycleIsQuiet(b, price, clock);
    if c.trades != [] {
      CyclesReachFixpoint(c.book, c.trades, cycle + 1, clock);
    }
  }

  // ------------------------------------------------------------- termination

  lemma CleanAfterMark(b: Book, price: int)
    requires Clean(b)
    ensures Clean(Mark(b, price))
  {
    forall s | s in Mark(b, price).stops
      ensures !Poisoned(s)
    {
      var i :| 0 <= i < |b.stops| && s == Trail(b.stops[i], price);
      assert !Poisoned(b.stops[i]);
    }
  }

  lemma RunStopsClean(b: Book, el: seq<Stop>, clock: Clock)
    requires WF(b) && Waiting(b, el) && Clean(b)
    ensures RunStops(b, el, clock).error.None? && Clean(RunStops(b, el, clock).book)
  {
    RunStopsFailsIff(b, el, clock);
    RunStopsLeaves(b, el, clock);
  }

  lemma CycleOfCleanBook(b: Book, price: int, clock: Clock)
    requires WF(b) && Clean(b)
    ensures Cycle(b, price, clock).error.None? && Clean(Cycle(b, price, clock).book)
    ensures var c := Cycle(b, price, clock);
            |c.marks| == 1 && (c.trades == [] || |c.book.stops| < |b.stops|)
  {
    hide WF, Waiting, Clean, EligibleStops;
    WFSane(b);
    MarkKeepsWF(b, price);
    CycleKeepsWF(b, price, clock);
    CleanAfterMark(b, price);
    var b1 := Mark(b, price);
    WFSane(b1);
    var el := EligibleStops(b1.stops, price);
    EligibleWaiting(b1, price);
    RunStopsClean(b1, el, clock);
    RunStopsMarks(b1, el, clock);
  }

  lemma RunStopsMarks(b: Book, el: seq<Stop>, clock: Clock)
    requires Sane(b)
    ensures RunStops(b, el, clock).marks == []
    decreases |el|
  {
    hide Sane, Submit, WithoutStop, NewOrder;
    if el != [] {
      var c := RunStop(b, el[0], clock(el[0].id));
      if c.error.None? {
        RunStopsMarks(c.book, el[1..], clock);
      }
    }
  }

  /** With the number of pending stops as measure: `n` stops need at most `n + 1`
      cycles, so the limit cannot fire with fewer stops than it. */
  lemma {:induction false} CyclesTerminate(b: Book, latest: seq<Trade>, cycle: nat, clock: Clock)
    requires WF(b) && Clean(b) && cycle + |b.stops| <= MAX_CYCLES
    ensures var c := Cycles(b, latest, cycle, clock);
            && c.error.None? && Clean(c.book)
            && |c.marks| <= |b.stops| - |c.book.stops| + 1
    decreases if cycle > MAX_CYCLES then 0 else MAX_CYCLES + 1 - cycle
  {
    hide WF, Clean, Cycle;
    WFSane(b);
    if latest != [] {
      CycleOfCleanBook(b, LastPrice(latest), clock);
      CycleKeepsWF(b, LastPrice(latest), clock);
      var c := Cycle(b, LastPrice(latest), clock);
      if c.trades != [] {
        CyclesTerminate(c.book, c.trades, cycle + 1, clock);
      }
    }
  }

  // ---------------------------------------------------------------- commands

  lemma PlaceIsAtomic(b: Book, typ: OrderType, input: Input, clock: Clock)
    requires WF(b) && Clean(b) && |b.stops| < MAX_CYCLES && typ in {Limit, Market}
    ensures var s := Place(b, typ, input, clock);
            && Clean(s.book)
            && (s.outcome.Err? ==> s.book == b)
            && (s.outcome.Ok? ==> |s.outcome.value.marks| <= |b.stops| + 1)
            && (s.outcome.Ok? && s.outcome.value.trades != [] ==>
                  Quiet(s.book) && s.book.last == Some(LastPrice(s.outcome.value.trades)))
  {
    hide WF, Taken, Submit, Cycles, LiveQueue;
    WFSane(b);
    if !Taken(b, input.orderId) && NewOrder(b.symbol, typ, input).Ok? {
      var o := NewOrder(b.symbol, typ, input).value;
      SubmitKeepsWF(b, o);
      SubmitFrame(b, o);
      var r := Submit(b, o);
      CyclesTerminate(r.book, r.trades, 1, clock);
      var c := Cycles(r.book, r.trades, 1, clock);
      if r.trades != [] {
        CyclesReachFixpoint(r.book, r.trades, 1, clock);
      } else {
        NoCycles(r.book, 1, clock);
      }
    }
  }

  /** Rejection is atomic: on a clean book with fewer than 1000 pending stops a
      command that returns an error leaves the book exactly as it was.  The
      book stays clean, the cascade runs at most one cycle more than there are
      pending stops, and after a command that traded nothing pending is
      eligible at the last price, the price of the final trade. */
  lemma RejectionIsAtomic(b: Book, c: Command, clock: Clock)
    requires WF(b) && Clean(b) && Roomy(b, c) && CleanCommand(c)
    ensures var s := Exec(b, c, clock);
            && Clean(s.book)
            && (s.outcome.Err? ==> s.book == b)
            && (s.outcome.Ok? ==> |s.outcome.value.marks| <= |b.stops| + 1)
            && (s.outcome.Ok? && s.outcome.value.trades != [] ==>
                  Quiet(s.book) && s.book.last == Some(LastPrice(s.outcome.value.trades)))
  {
    hide WF, Place, Taken;
    match c
    case PlaceLimit(input) => PlaceIsAtomic(b, Limit, input, clock);
    case PlaceMarket(input) => PlaceIsAtomic(b, Market, input, clock);
    case Cancel(id) => CancelStaysClean(b, id);
    case _ =>
  }

  lemma CancelStaysClean(b: Book, id: string)
    requires WF(b) && Clean(b)
    ensures Clean(CancelById(b, id).book)
  {
    WithoutStopParts(b.stops, id, b.symbol, b.last.Some?);
  }

  /** The discarded cancel error cannot occur either: whatever is left of an
      order after the matching loop, and whatever rests, can be cancelled. */
  lemma CancelNeverFails(o: Order)
    requires Incoming(o) && o.remaining > 0
    ensures CancelOrder(o) == Ok(o.(status := Cancelled))
  {
  }
}
