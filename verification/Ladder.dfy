/** The cycle limit is tight: for every n, clean commands lead from the empty
    book to one of n pending stops whose cascade takes n + 1 cycles.  Rejections
    are therefore atomic on books of n clean stops exactly if n is below 1000. */
module Ladder {
  import opened Types
  import opened Matching
  import opened BookSpec
  import opened Invariant
  import opened StopCascade
  import opened Runs
  import opened Atomicity

  function Name(c: char, j: nat): (s: string)
    ensures |s| == j + 1 && s[0] == c
  {
    seq(j + 1, _ => c)
  }

  /** One unit for sale at price `j`. */
  function AskAt(symbol: string, j: nat): Order {
    Order(Name('a', j), "u", symbol, Sell, Limit, Some(j), 1, 1, Open, 0)
  }

  /** A stop to buy one unit once the last price has reached `j - 1`. */
  function StopAt(symbol: string, j: nat): Stop {
    Stop(Name('s', j), "u", symbol, Buy, StopMarket, j - 1, None, None, None, None, 1, 1, Open, 0)
  }

  function AsksFrom(symbol: string, i: nat, m: nat): (q: seq<Order>)
    decreases m
    ensures |q| == m && forall k :: 0 <= k < m ==> q[k] == AskAt(symbol, i + 1 + k)
  {
    if m == 0 then [] else [AskAt(symbol, i + 1)] + AsksFrom(symbol, i + 1, m - 1)
  }

  function StopsFrom(symbol: string, i: nat, m: nat): (stops: seq<Stop>)
    decreases m
    ensures |stops| == m && forall k :: 0 <= k < m ==> stops[k] == StopAt(symbol, i + 1 + k)
  {
    if m == 0 then [] else [StopAt(symbol, i + 1)] + StopsFrom(symbol, i + 1, m - 1)
  }

  /** `m` stops, each triggered by the trade that the one before it makes. */
  predicate IsLadder(b: Book, i: nat, m: nat) {
    && b.symbol != "" && b.bids == []
    && b.asks == AsksFrom(b.symbol, i, m) && b.stops == StopsFrom(b.symbol, i, m)
  }

  lemma {:induction false} NoneTrails(symbol: string, i: nat, m: nat, price: int)
    ensures TrailAll(StopsFrom(symbol, i, m), price) == StopsFrom(symbol, i, m)
    decreases m
  {
    if m > 0 {
      NoneTrails(symbol, i + 1, m - 1, price);
    }
  }

  lemma {:induction false} NoneEligible(symbol: string, i: nat, m: nat, price: int)
    requires price < i
    ensures EligibleStops(StopsFrom(symbol, i, m), price) == []
    decreases m
  {
    if m > 0 {
      NoneEligible(symbol, i + 1, m - 1, price);
    }
  }

  lemma OneEligible(symbol: string, i: nat, m: nat)
    requires m > 0
    ensures EligibleStops(StopsFrom(symbol, i, m), i) == [StopAt(symbol, i + 1)]
  {
    hide Name;
    NoneEligible(symbol, i + 1, m - 1, i);
  }

  lemma OneTrade(inc: Order, q: seq<Order>)
    requires Incoming(inc) && inc.remaining == 1 && LiveQueue(q) && q != [] && q[0].remaining == 1
    ensures var m := Match(inc, q, true);
            |m.trades| == 1 && m.trades[0].price == Px(q[0]) && m.queue == q[1..] && m.incoming.remaining == 0
  {
    MatchStep(inc, q, true);
  }

  /** The next stop of the ladder buys the next unit. */
  lemma StepUp(b: Book, i: nat, m: nat, now: nat)
    requires Sane(b) && IsLadder(b, i, m) && m > 0
    ensures var c := RunStop(b, StopAt(b.symbol, i + 1), now);
            && c.error.None? && IsLadder(c.book, i + 1, m - 1)
            && |c.trades| == 1 && c.trades[0].price == i + 1
  {
    hide Match, Name, LiveQueue;
    var s := StopAt(b.symbol, i + 1);
    assert StopIndex(b.stops, s.id) == 0;
    assert WithoutStop(b.stops, s.id) == b.stops[1..];
    var o := NewOrder(b.symbol, Market, StopInput(s, now)).value;
    OneTrade(o, b.asks);
  }

  lemma LadderCycle(b: Book, i: nat, m: nat, clock: Clock)
    requires Sane(b) && IsLadder(b, i, m) && m > 0
    ensures var c := Cycle(b, i, clock);
            && c.error.None? && IsLadder(c.book, i + 1, m - 1)
            && c.trades != [] && LastPrice(c.trades) == i + 1 && |c.marks| == 1
  {
    hide RunStop, Name, LiveQueue, StopsFrom, AsksFrom;
    var b1 := Mark(b, i);
    var s := StopAt(b.symbol, i + 1);
    NoneTrails(b.symbol, i, m, i);
    OneEligible(b.symbol, i, m);
    StepUp(b1, i, m, clock(s.id));
    CycleParts(b, i, clock);
    RunStopsOne(b1, s, clock);
  }

  lemma RunStopsOne(b: Book, s: Stop, clock: Clock)
    requires Sane(b) && RunStop(b, s, clock(s.id)).error.None?
    ensures var c, d := RunStop(b, s, clock(s.id)), RunStops(b, [s], clock);
            d.book == c.book && d.trades == c.trades && d.error.None?
  {
    hide RunStop, LiveQueue;
    var c := RunStop(b, s, clock(s.id));
    assert RunStops(c.book, [s][1..], clock) == Nothing(c.book);
    assert c.trades + [] == c.trades;
  }

  lemma LastCycle(b: Book, i: nat, clock: Clock)
    requires Sane(b) && IsLadder(b, i, 0)
    ensures var c := Cycle(b, i, clock); c.error.None? && c.trades == [] && |c.marks| == 1
  {
    CycleParts(b, i, clock);
  }

  /** A ladder of `m` stops takes exactly `m + 1` cycles, or exceeds the limit. */
  lemma {:induction false} LadderCascade(b: Book, i: nat, m: nat, latest: seq<Trade>, cycle: nat, clock: Clock)
    requires Sane(b) && IsLadder(b, i, m) && latest != [] && LastPrice(latest) == i && cycle <= MAX_CYCLES + 1
    ensures var c := Cycles(b, latest, cycle, clock);
            if cycle + m <= MAX_CYCLES then c.error.None? && |c.marks| == m + 1 else c.error == Some(CycleLimit)
    decreases m
  {
    hide Cycle, IsLadder, LiveQueue;
    if cycle <= MAX_CYCLES {
      var c := Cycle(b, i, clock);
      if m == 0 {
        LastCycle(b, i, clock);
      } else {
        LadderCycle(b, i, m, clock);
        LadderCascade(c.book, i + 1, m - 1, c.trades, cycle + 1, clock);
      }
    }
  }

  /** `k` rungs of one unit for sale and `j` stops, as four and two events each have left them. */
  function Rungs(k: nat, j: nat): Book {
    Book("SYM", [], AsksFrom("SYM", 0, k), StopsFrom("SYM", 1, j), None, [], 4 * k + 2 * j)
  }

  /** A ladder with one more unit below it. */
  function FullLadder(n: nat): Book {
    Rungs(n + 1, n)
  }

  lemma FullLadderOk(n: nat)
    ensures WF(FullLadder(n)) && Clean(FullLadder(n)) && |FullLadder(n).stops| == n
  {
    hide Name, AsksFrom, StopsFrom;
    var b := FullLadder(n);
    assert !GoSpace("SYM"[0] as int);
    assert forall k :: 0 <= k < |b.stops| ==> StopOk(b.stops[k], "SYM");
    assert NoDup(b.asks) && NoDupStops(b.stops) by {
      NamesDiffer(b);
    }
    NamesApart(b, n);
  }

  lemma NamesDiffer(b: Book)
    requires exists n: nat :: b == FullLadder(n)
    ensures NoDup(b.asks) && NoDupStops(b.stops)
  {
    hide Name, AsksFrom, StopsFrom;
    forall i, j | 0 <= i < j < |b.asks|
      ensures b.asks[i].id != b.asks[j].id
    {
      assert |b.asks[i].id| < |b.asks[j].id|;
    }
    forall i, j | 0 <= i < j < |b.stops|
      ensures b.stops[i].id != b.stops[j].id
    {
      assert |b.stops[i].id| < |b.stops[j].id|;
    }
  }

  lemma NamesApart(b: Book, n: nat)
    requires b == FullLadder(n)
    ensures Apart(b)
  {
    hide Name, AsksFrom, StopsFrom;
    assert forall id :: id in Ids(b.asks) ==> id[0] == 'a';
    assert forall id :: id in StopIds(b.stops) ==> id[0] == 's';
  }

  // ------------------------------------------------------ how the ladder is built

  function PlaceAsk(j: nat): Request {
    Request(PlaceLimit(Input(Name('a', j), "u", Some(Sell), Some(j), None, None, 1, 0)), Zero())
  }

  function PlaceRung(j: nat): Request {
    Request(PlaceStopMarket(Input(Name('s', j), "u", Some(Buy), None, Some(j - 1), None, 1, 0)), Zero())
  }

  /** Sell one unit at each of the prices `i + 1` to `i + m`. */
  function PlaceAsks(i: nat, m: nat): seq<Request>
    decreases m
  {
    if m == 0 then [] else [PlaceAsk(i + 1)] + PlaceAsks(i + 1, m - 1)
  }

  function PlaceRungs(i: nat, m: nat): seq<Request>
    decreases m
  {
    if m == 0 then [] else [PlaceRung(i + 2)] + PlaceRungs(i + 1, m - 1)
  }

  function BuildLadder(n: nat): seq<Request> {
    PlaceAsks(0, n + 1) + PlaceRungs(0, n)
  }

  lemma RungsSane(k: nat, j: nat)
    ensures Sane(Rungs(k, j))
  {
    hide Name, AsksFrom, StopsFrom;
  }

  /** The names of the next rung are longer than all in use. */
  lemma NextNameFree(k: nat, j: nat, id: string)
    requires (id == Name('a', k + 1) && j == 0) || id == Name('s', j + 2)
    ensures !Taken(Rungs(k, j), id)
  {
    hide Name, AsksFrom, StopsFrom, Taken;
    var b := Rungs(k, j);
    TakenMeans(b, id);
    forall i | 0 <= i < |b.asks|
      ensures b.asks[i].id != id
    {
      assert b.asks[i].id[0] == 'a' && |b.asks[i].id| <= k + 1;
    }
    forall i | 0 <= i < |b.stops|
      ensures b.stops[i].id != id
    {
      assert |b.stops[i].id| < j + 3;
    }
  }

  lemma AskRests(k: nat)
    ensures Sane(Rungs(k, 0)) && Next(Rungs(k, 0), PlaceAsk(k + 1)).book == Rungs(k + 1, 0)
  {
    hide Name, AsksFrom, StopsFrom, Taken, LiveQueue, Slot;
    RungsSane(k, 0);
    var b, o := Rungs(k, 0), AskAt("SYM", k + 1);
    NextNameFree(k, 0, o.id);
    assert NewOrder("SYM", Limit, PlaceAsk(k + 1).command.input) == Ok(o);
    assert Match(o, [], false) == Matched(o, [], []);
    assert Slot(b.asks, o) == k;
    assert Insert(b.asks, o) == AsksFrom("SYM", 0, k + 1);
    NoCycles(Submit(b, o).book, 1, Zero());
  }

  lemma RungWaits(k: nat, j: nat)
    ensures Sane(Rungs(k, j)) && Next(Rungs(k, j), PlaceRung(j + 2)).book == Rungs(k, j + 1)
  {
    hide Name, AsksFrom, StopsFrom, Taken, LiveQueue;
    RungsSane(k, j);
    NextNameFree(k, j, Name('s', j + 2));
    assert StopsFrom("SYM", 1, j) + [StopAt("SYM", j + 2)] == StopsFrom("SYM", 1, j + 1);
  }

  lemma {:induction false} AsksRest(i: nat, m: nat)
    ensures Sane(Rungs(i, 0)) && Admissible(Rungs(i, 0), PlaceAsks(i, m)) && Run(Rungs(i, 0), PlaceAsks(i, m)) == Rungs(i + m, 0)
    decreases m
  {
    hide Exec, Sane, Name, AsksFrom;
    RungsSane(i, 0);
    if m > 0 {
      AskRests(i);
      AsksRest(i + 1, m - 1);
    }
  }

  lemma {:induction false} RungsWait(k: nat, j: nat, m: nat)
    ensures Sane(Rungs(k, j)) && Admissible(Rungs(k, j), PlaceRungs(j, m)) && Run(Rungs(k, j), PlaceRungs(j, m)) == Rungs(k, j + m)
    decreases m
  {
    hide Exec, Sane, Name, AsksFrom, StopsFrom;
    RungsSane(k, j);
    if m > 0 {
      RungWaits(k, j);
      RungsWait(k, j + 1, m - 1);
    }
  }

  lemma NoRungs()
    ensures Rungs(0, 0) == EmptyBook("SYM")
  {
  }

  /** The ladder is what these commands make of the empty book. */
  lemma LadderIsReached(n: nat)
    ensures Admissible(EmptyBook("SYM"), BuildLadder(n)) && Run(EmptyBook("SYM"), BuildLadder(n)) == FullLadder(n)
  {
    hide Exec, Sane, Rungs, Run, Admissible, PlaceAsks, PlaceRungs;
    NoRungs();
    AsksRest(0, n + 1);
    RungsWait(n + 1, 0, n);
    RunConcat(EmptyBook("SYM"), PlaceAsks(0, n + 1), PlaceRungs(0, n));
    AdmissibleConcat(EmptyBook("SYM"), PlaceAsks(0, n + 1), PlaceRungs(0, n));
  }

  // ----------------------------------------------------------- climbing the ladder

  const ONE := Input("x", "u", Some(Buy), None, None, None, 1, 0)

  /** Buying the lowest unit sets the ladder off. */
  lemma Bottom(n: nat)
    ensures Sane(FullLadder(n)) && Reaches(FullLadder(n), Market, ONE)
    ensures var o := NewOrder("SYM", Market, ONE).value;
            && Incoming(o)
            && var r := Submit(FullLadder(n), o);
               r.trades != [] && LastPrice(r.trades) == 1 && IsLadder(r.book, 1, n)
  {
    hide Match, Name, LiveQueue, Taken;
    var b := FullLadder(n);
    FullLadderOk(n);
    NamesStart(b, n);
    TakenMeans(b, "x");
    var o := NewOrder("SYM", Market, ONE).value;
    OneTrade(o, b.asks);
    assert b.asks[1..] == AsksFrom("SYM", 1, n);
  }

  /** On the ladder of n stops, buying one unit takes n + 1 cycles, or is rejected after the book has changed. */
  lemma LadderTakes(n: nat, clock: Clock)
    ensures WF(FullLadder(n)) && Clean(FullLadder(n)) && |FullLadder(n).stops| == n
    ensures var s := Exec(FullLadder(n), PlaceMarket(ONE), clock);
            if n < MAX_CYCLES then s.outcome.Ok? && |s.outcome.value.marks| == n + 1
            else s.outcome == Err(CycleLimit) && s.book != FullLadder(n)
  {
    hide FullLadder, Submit, Cycles, WF, Clean, Sane, Taken, IsLadder, NewOrder, Incoming;
    var b := FullLadder(n);
    FullLadderOk(n);
    Bottom(n);
    LadderSymbol(n);
    var r := Submit(b, NewOrder("SYM", Market, ONE).value);
    LadderCascade(r.book, 1, n, r.trades, 1, clock);
    if n >= MAX_CYCLES {
      PlaceErrorIff(b, Market, ONE, clock);
    }
  }

  /** After this run of clean commands, which leaves n stops pending, buying one unit takes n + 1 cycles; with 1000
      stops or more it is rejected for exceeding the limit, after the book has changed. */
  lemma LimitIsTight(n: nat, clock: Clock)
    ensures Admissible(EmptyBook("SYM"), BuildLadder(n))
    ensures var b := Run(EmptyBook("SYM"), BuildLadder(n));
            var s := Exec(b, PlaceMarket(ONE), clock);
            && |b.stops| == n
            && if n < MAX_CYCLES then s.outcome.Ok? && |s.outcome.value.marks| == n + 1
               else s.outcome == Err(CycleLimit) && s.book != b
  {
    hide FullLadder, BuildLadder, Exec, Run, Admissible, WF, Clean, Sane;
    LadderIsReached(n);
    LadderTakes(n, clock);
  }

  // ----------------------------------------------------- the exact bound on stops

  /** On every well-formed book of n clean stops, no clean command is rejected after it has changed the book. */
  ghost predicate AtomicOnBooks(n: nat) {
    forall b: Book, c: Command, clock: Clock :: Good(b) && |b.stops| == n && CleanCommand(c) ==>
      Exec(b, c, clock).outcome.Err? ==> Exec(b, c, clock).book == b
  }

  /** The same of the books that clean commands lead to from an empty one. */
  ghost predicate AtomicOnRuns(n: nat) {
    forall symbol: string, rs: seq<Request>, c: Command, clock: Clock ::
      !Blank(symbol) && Admissible(EmptyBook(symbol), rs) && |Run(EmptyBook(symbol), rs).stops| == n && CleanCommand(c) ==>
        var b := Run(EmptyBook(symbol), rs);
        Exec(b, c, clock).outcome.Err? ==> Exec(b, c, clock).book == b
  }

  /** Rejections are atomic on all books of n clean stops, whether reachable or not, exactly below the limit. */
  lemma AtomicIffBelowLimit(n: nat)
    ensures AtomicOnBooks(n) <==> n < MAX_CYCLES
    ensures AtomicOnRuns(n) <==> n < MAX_CYCLES
  {
    hide Clean, LiveQueue, SideOk, Apart, StopsOk, Exec, Run, Admissible, BuildLadder;
    if n < MAX_CYCLES {
      forall b: Book, c: Command, clock: Clock | Good(b) && |b.stops| == n && CleanCommand(c)
        ensures Exec(b, c, clock).outcome.Err? ==> Exec(b, c, clock).book == b
      {
        RejectionIsAtomic(b, c, clock);
      }
      RunsAreBooks(n);
    } else {
      LimitIsTight(n, Zero());
      LadderTakes(n, Zero());
      LadderIsReached(n);
      assert !GoSpace("SYM"[0] as int);
    }
  }

  lemma RunsAreBooks(n: nat)
    requires AtomicOnBooks(n)
    ensures AtomicOnRuns(n)
  {
    hide Clean, Exec, Run, Admissible;
    forall symbol: string, rs: seq<Request> | !Blank(symbol) && Admissible(EmptyBook(symbol), rs)
      ensures Good(Run(EmptyBook(symbol), rs))
    {
      EmptyBookGood(symbol);
      RunKeepsGood(EmptyBook(symbol), rs);
    }
  }

  lemma LadderSymbol(n: nat)
    ensures FullLadder(n).symbol == "SYM"
  {
  }

  lemma NamesStart(b: Book, n: nat)
    requires b == FullLadder(n)
    ensures "x" !in Ids(b.bids) + Ids(b.asks) + StopIds(b.stops)
  {
    hide Name, AsksFrom, StopsFrom;
    assert forall id :: id in Ids(b.asks) ==> id[0] == 'a';
    assert forall id :: id in StopIds(b.stops) ==> id[0] == 's';
    assert "x"[0] == 'x';
  }
}
