/** The order book as a value, and what each command does to it.

    A book side is one price-time queue (module `Matching`); pending stops are
    listed in the order of placement.  Every command yields a `Step`: the book
    it leaves behind and either a reply or an error.  The heap book, class
    `EngineBook` of module `GoBook`, is proved to do exactly this. */
module BookSpec {
  import opened Types
  import opened Matching

  /** Clock readings.  A pending stop is executed at most once in a command,
      so indexing the readings by stop id leaves every reading free. */
  type Clock = string -> nat

  /** The clock that always reads zero. */
  function Zero(): Clock {
    _ => 0
  }

  const MAX_CYCLES: nat := 1000

  datatype Book = Book(
    symbol: string,
    bids: seq<Order>,
    asks: seq<Order>,
    stops: seq<Stop>,
    last: Option<int>,
    trades: seq<Trade>,
    sequence: int)

  /** Nothing is left of the text after trimming: no symbol of the Go worker. */
  predicate Blank(s: string) {
    forall i :: 0 <= i < |s| ==> GoSpace(s[i] as int)
  }

  /** No symbol of the Node engine. */
  predicate NodeBlank(s: string) {
    forall i :: 0 <= i < |s| ==> NodeSpace(s[i] as int)
  }

  type Books = map<string, Book>

  function EmptyBook(symbol: string): Book {
    Book(symbol, [], [], [], None, [], 0)
  }

  /** The book of a symbol; a symbol that has none yet has the empty one. */
  function BookIn(m: Books, symbol: string): Book {
    if symbol in m then m[symbol] else EmptyBook(symbol)
  }

  // ------------------------------------------------------- queue operations

  /** The queue on which an order of this side rests. */
  function Own(b: Book, side: Side): seq<Order> {
    if side == Buy then b.bids else b.asks
  }

  /** The queue that an order of this side trades with. */
  function Opposite(b: Book, side: Side): seq<Order> {
    if side == Buy then b.asks else b.bids
  }

  /** Where a new order goes: behind everything at least as good. */
  function Slot(q: seq<Order>, o: Order): (k: nat)
    ensures k <= |q|
    ensures forall i :: 0 <= i < k ==> Rank(q[i]) <= Rank(o)
    ensures k < |q| ==> Rank(o) < Rank(q[k])
  {
    if q == [] || Rank(o) < Rank(q[0]) then 0 else 1 + Slot(q[1..], o)
  }

  function Insert(q: seq<Order>, o: Order): seq<Order> {
    var k := Slot(q, o);
    q[..k] + [o] + q[k..]
  }

  function IndexOf(q: seq<Order>, id: string): (k: nat)
    ensures k <= |q|
    ensures k < |q| ==> q[k].id == id
    ensures forall i :: 0 <= i < k ==> q[i].id != id
  {
    if q == [] || q[0].id == id then 0 else 1 + IndexOf(q[1..], id)
  }

  predicate Holds(q: seq<Order>, id: string) {
    IndexOf(q, id) < |q|
  }

  function Without(q: seq<Order>, id: string): seq<Order> {
    var k := IndexOf(q, id);
    if k < |q| then q[..k] + q[k + 1..] else q
  }

  function StopIndex(stops: seq<Stop>, id: string): (k: nat)
    ensures k <= |stops|
    ensures k < |stops| ==> stops[k].id == id
    ensures forall i :: 0 <= i < k ==> stops[i].id != id
  {
    if stops == [] || stops[0].id == id then 0 else 1 + StopIndex(stops[1..], id)
  }

  predicate HoldsStop(stops: seq<Stop>, id: string) {
    StopIndex(stops, id) < |stops|
  }

  function WithoutStop(stops: seq<Stop>, id: string): seq<Stop> {
    var k := StopIndex(stops, id);
    if k < |stops| then stops[..k] + stops[k + 1..] else stops
  }

  predicate Taken(b: Book, id: string) {
    Holds(b.bids, id) || Holds(b.asks, id) || HoldsStop(b.stops, id)
  }

  /** Both sides hold live orders only: what the matching loop needs to make progress. */
  predicate Sane(b: Book) {
    LiveQueue(b.bids) && LiveQueue(b.asks)
  }

  // ------------------------------------------------------ one order submitted

  datatype Submitted = Submitted(book: Book, order: Order, trades: seq<Trade>)

  function SetQueues(b: Book, side: Side, own: seq<Order>, opposite: seq<Order>): Book {
    if side == Buy then b.(bids := own, asks := opposite) else b.(bids := opposite, asks := own)
  }

  /** Match an order; then drop what is left of a market order, and rest what is left of a limit order. */
  function Submit(b: Book, o: Order): (r: Submitted)
    requires Sane(b) && Incoming(o)
    ensures Sane(r.book)
  {
    var m := Match(o, Opposite(b, o.side), o.typ != Limit);
    var own := Own(b, o.side);
    if o.typ == Limit && m.incoming.remaining > 0 then
      Submitted(SetQueues(b, o.side, Insert(own, m.incoming), m.queue).(trades := b.trades + m.trades),
                m.incoming, m.trades)
    else
      var order := if m.incoming.remaining > 0 then m.incoming.(status := Cancelled) else m.incoming;
      Submitted(SetQueues(b, o.side, own, m.queue).(trades := b.trades + m.trades), order, m.trades)
  }

  // ------------------------------------------------------------------- stops

  predicate Eligible(s: Stop, last: int) {
    if s.side == Buy then last >= s.trigger else last <= s.trigger
  }

  function EligibleStops(stops: seq<Stop>, last: int): (el: seq<Stop>)
    ensures forall i :: 0 <= i < |el| ==> el[i] in stops && Eligible(el[i], last)
  {
    if stops == [] then []
    else if Eligible(stops[0], last) then [stops[0]] + EligibleStops(stops[1..], last)
    else EligibleStops(stops[1..], last)
  }

  function Optional(o: Option<int>): int {
    if o.Some? then o.value else 0
  }

  /** A trailing stop follows the last price in its favourable direction only. */
  function Trail(s: Stop, last: int): Stop {
    if s.typ != TrailingStopMarket then s
    else if s.side == Sell && (s.peak.None? || last > s.peak.value) then
      s.(peak := Some(last), trigger := last - Optional(s.trailingAmount))
    else if s.side == Buy && (s.valley.None? || last < s.valley.value) then
      s.(valley := Some(last), trigger := last + Optional(s.trailingAmount))
    else s
  }

  function TrailAll(stops: seq<Stop>, last: int): (r: seq<Stop>)
    ensures |r| == |stops|
    ensures forall i :: 0 <= i < |stops| ==> r[i] == Trail(stops[i], last)
  {
    if stops == [] then [] else [Trail(stops[0], last)] + TrailAll(stops[1..], last)
  }

  function StopInput(s: Stop, now: nat): Input {
    Input(s.id, s.user, Some(s.side), s.price, None, None, s.remaining, now)
  }

  function TriggeredType(s: Stop): OrderType {
    if s.typ == StopLimit then Limit else Market
  }

  /** What a sequence of triggered stops has done so far. `fills` are the
      order snapshots carried by the fill events, `marks` the last prices set. */
  datatype Cascade = Cascade(
    book: Book,
    trades: seq<Trade>,
    triggered: seq<Stop>,
    fills: seq<Order>,
    events: nat,
    marks: seq<int>,
    error: Option<Error>)

  function Then(c: Cascade, d: Cascade): Cascade {
    Cascade(d.book, c.trades + d.trades, c.triggered + d.triggered, c.fills + d.fills,
            c.events + d.events, c.marks + d.marks, d.error)
  }

  function Nothing(b: Book): Cascade {
    Cascade(b, [], [], [], 0, [], None)
  }

  /** Take one stop off the list and submit it as a market or limit order. */
  function RunStop(b: Book, s: Stop, now: nat): (c: Cascade)
    requires Sane(b)
    ensures Sane(c.book)
  {
    var b' := b.(stops := WithoutStop(b.stops, s.id));
    match NewOrder(b.symbol, TriggeredType(s), StopInput(s, now))
    case Err(e) => Cascade(b', [], [], [], 0, [], Some(e))
    case Ok(o) =>
      var r := Submit(b', o);
      Cascade(r.book, r.trades, [s.(status := Triggered)], [r.order],
              2 + |r.trades| + (if r.order.status == Open && r.order.remaining > 0 then 1 else 0),
              [], None)
  }

  /** All stops that were eligible in one cycle, one after the other. */
  function RunStops(b: Book, eligible: seq<Stop>, clock: Clock): (c: Cascade)
    requires Sane(b)
    ensures Sane(c.book)
    decreases |eligible|
  {
    if eligible == [] then Nothing(b)
    else
      var c := RunStop(b, eligible[0], clock(eligible[0].id));
      if c.error.Some? then c else Then(c, RunStops(c.book, eligible[1..], clock))
  }

  /** The start of a cycle: the last price moves and trailing stops follow. */
  function Mark(b: Book, price: int): Book {
    b.(last := Some(price), stops := TrailAll(b.stops, price))
  }

  function LastPrice(ts: seq<Trade>): int
    requires ts != []
  {
    ts[|ts| - 1].price
  }

  /** One cycle: mark the price, then run everything eligible at it. */
  function Cycle(b: Book, price: int, clock: Clock): (c: Cascade)
    requires Sane(b)
    ensures Sane(c.book)
  {
    var b1 := Mark(b, price);
    Then(Nothing(b1).(marks := [price]), RunStops(b1, EligibleStops(b1.stops, price), clock))
  }

  /** The cycles of the stop cascade, from cycle number `cycle` on. A cycle
      without eligible stops makes no trades and is the last one. */
  function Cycles(b: Book, latest: seq<Trade>, cycle: nat, clock: Clock): (c: Cascade)
    requires Sane(b)
    ensures Sane(c.book)
    decreases if cycle > MAX_CYCLES then 0 else MAX_CYCLES + 1 - cycle
  {
    if latest == [] then Nothing(b)
    else if cycle > MAX_CYCLES then Nothing(b).(error := Some(CycleLimit))
    else
      var c := Cycle(b, LastPrice(latest), clock);
      if c.error.Some? then c else Then(c, Cycles(c.book, c.trades, cycle + 1, clock))
  }

  function ProcessStops(b: Book, initial: seq<Trade>, clock: Clock): (c: Cascade)
    requires Sane(b)
    ensures Sane(c.book)
  {
    Cycles(b, initial, 1, clock)
  }

  // ---------------------------------------------------------------- commands

  datatype Placed = OrderPlaced(order: Order) | StopPlaced(stop: Stop)

  /** A reply.  `events` is how many events it carries; those of a cancelled
      stop are not stamped with sequence numbers, all others are. */
  datatype Reply = Reply(
    placed: Placed,
    trades: seq<Trade>,
    triggered: seq<Stop>,
    fills: seq<Order>,
    marks: seq<int>,
    events: nat)

  datatype Step = Step(book: Book, outcome: Result<Reply, Error>)

  datatype Command =
    | PlaceLimit(input: Input)
    | PlaceMarket(input: Input)
    | PlaceStopMarket(input: Input)
    | PlaceStopLimit(input: Input)
    | PlaceTrailingStopMarket(input: Input)
    | Cancel(id: string)
    | Malformed
    | Unsupported

  /** The submitted order at the end of the command: stops that it triggered
      may have traded with what of it was resting. */
  function FinalOrder(b: Book, o: Order): Order {
    var q := Own(b, o.side);
    if !Live(o) then o
    else if Holds(q, o.id) then q[IndexOf(q, o.id)]
    else o.(remaining := 0, status := Filled)
  }

  function Place(b: Book, typ: OrderType, input: Input, clock: Clock): (s: Step)
    requires Sane(b)
    ensures Sane(s.book)
  {
    if Taken(b, input.orderId) then Step(b, Err(OrderExists))
    else match NewOrder(b.symbol, typ, input)
      case Err(e) => Step(b, Err(e))
      case Ok(o) =>
        var r := Submit(b, o);
        var c := ProcessStops(r.book, r.trades, clock);
        if c.error.Some? then Step(c.book, Err(c.error.value))
        else
          var rested := if typ == Limit && Live(r.order) then 1 else 0;
          var events := 3 + |r.trades| + rested + c.events;
          Step(c.book.(sequence := c.book.sequence + events),
               Ok(Reply(OrderPlaced(FinalOrder(c.book, r.order)), r.trades + c.trades, c.triggered,
                        [r.order] + c.fills, c.marks, events)))
  }

  function PlaceStop(b: Book, typ: OrderType, input: Input, peak: Option<int>, valley: Option<int>): (s: Step)
    requires Sane(b)
    ensures Sane(s.book)
  {
    if Taken(b, input.orderId) then Step(b, Err(OrderExists))
    else if input.orderId == "" then Step(b, Err(EmptyOrderId))
    else if input.userId == "" then Step(b, Err(EmptyUserId))
    else if input.side.None? then Step(b, Err(InvalidSide))
    else if input.trigger.None? then Step(b, Err(BadTrigger))
    else if input.quantity <= 0 then Step(b, Err(BadQuantity))
    else if typ == StopLimit && (input.price.None? || input.price.value <= 0) then Step(b, Err(BadPrice))
    else
      var stop := Stop(input.orderId, input.userId, b.symbol, input.side.value, typ, input.trigger.value,
                       input.price, input.trailingAmount, peak, valley, input.quantity, input.quantity,
                       Open, input.timestamp);
      Step(b.(stops := b.stops + [stop], sequence := b.sequence + 2),
           Ok(Reply(StopPlaced(stop), [], [], [], [], 2)))
  }

  function PlaceTrailing(b: Book, input: Input): (s: Step)
    requires Sane(b)
    ensures Sane(s.book)
  {
    if b.last.None? then Step(b, Err(NoTradeYet))
    else if input.trailingAmount.None? || input.trailingAmount.value <= 0 then Step(b, Err(BadTrailingAmount))
    else if input.side.None? then Step(b, Err(InvalidSide))
    else
      var last, amount := b.last.value, input.trailingAmount.value;
      if input.side.value == Sell
      then PlaceStop(b, TrailingStopMarket, input.(trigger := Some(last - amount)), Some(last), None)
      else PlaceStop(b, TrailingStopMarket, input.(trigger := Some(last + amount)), None, Some(last))
  }

  function CancelOnSide(b: Book, side: Side, id: string): (s: Step)
    requires Sane(b) && Holds(Own(b, side), id)
    ensures Sane(s.book)
  {
    var q := Own(b, side);
    var o := q[IndexOf(q, id)];
    Step(SetQueues(b, side, Without(q, id), Opposite(b, side)).(sequence := b.sequence + 2),
         Ok(Reply(OrderPlaced(o.(status := Cancelled)), [], [], [], [], 2)))
  }

  function CancelById(b: Book, id: string): (s: Step)
    requires Sane(b)
    ensures Sane(s.book)
  {
    if HoldsStop(b.stops, id) then
      var stop := b.stops[StopIndex(b.stops, id)].(status := Cancelled);
      Step(b.(stops := WithoutStop(b.stops, id)), Ok(Reply(StopPlaced(stop), [], [], [], [], 2)))
    else if Holds(b.bids, id) then CancelOnSide(b, Buy, id)
    else if Holds(b.asks, id) then CancelOnSide(b, Sell, id)
    else Step(b, Err(OrderNotFound))
  }

  /** One command. */
  function Exec(b: Book, c: Command, clock: Clock): (s: Step)
    requires Sane(b)
    ensures Sane(s.book)
  {
    match c
    case PlaceLimit(input) => Place(b, Limit, input, clock)
    case PlaceMarket(input) => Place(b, Market, input, clock)
    case PlaceStopMarket(input) => PlaceStop(b, StopMarket, input, None, None)
    case PlaceStopLimit(input) => PlaceStop(b, StopLimit, input, None, None)
    case PlaceTrailingStopMarket(input) => PlaceTrailing(b, input)
    case Cancel(id) => CancelById(b, id)
    case Malformed => Step(b, Err(MalformedPayload))
    case Unsupported => Step(b, Err(UnsupportedCommand))
  }
}
