/** Runs of one book: any number of commands, each with its own clock. */
module Runs {
  import opened Types
  import opened Matching
  import opened BookSpec
  import opened Invariant
  import opened StopCascade

  datatype Request = Request(command: Command, clock: Clock)

  function Next(b: Book, r: Request): (s: Step)
    requires Sane(b)
    ensures Sane(s.book)
  {
    Exec(b, r.command, r.clock)
  }

  function Run(b: Book, rs: seq<Request>): (b': Book)
    requires Sane(b)
    ensures Sane(b')
    decreases |rs|
  {
    if rs == [] then b else Run(Next(b, rs[0]).book, rs[1..])
  }

  lemma {:induction false} RunConcat(b: Book, rs: seq<Request>, ss: seq<Request>)
    requires Sane(b)
    ensures Run(b, rs + ss) == Run(Run(b, rs), ss)
    decreases |rs|
  {
    hide Sane, Exec;
    if rs == [] {
      assert rs + ss == ss;
    } else {
      assert (rs + ss)[0] == rs[0] && (rs + ss)[1..] == rs[1..] + ss;
      RunConcat(Next(b, rs[0]).book, rs[1..], ss);
    }
  }

  /** The run places no poisoned stop and never starts a command with 1000 stops pending. */
  predicate Admissible(b: Book, rs: seq<Request>)
    requires Sane(b)
    decreases |rs|
  {
    rs == [] ||
    (CleanCommand(rs[0].command) && Roomy(b, rs[0].command) && Admissible(Next(b, rs[0]).book, rs[1..]))
  }

  lemma {:induction false} AdmissibleConcat(b: Book, rs: seq<Request>, ss: seq<Request>)
    requires Sane(b) && Admissible(b, rs) && Admissible(Run(b, rs), ss)
    ensures Admissible(b, rs + ss)
    decreases |rs|
  {
    hide Sane, Exec;
    if rs == [] {
      assert rs + ss == ss;
    } else {
      assert (rs + ss)[0] == rs[0] && (rs + ss)[1..] == rs[1..] + ss;
      AdmissibleConcat(Next(b, rs[0]).book, rs[1..], ss);
    }
  }

  /** What holds of every book that an admissible run reaches. */
  predicate Good(b: Book) {
    WF(b) && Clean(b)
  }

  lemma GoodSane(b: Book)
    requires Good(b)
    ensures Sane(b)
  {
  }

  lemma NextKeepsGood(b: Book, r: Request)
    requires Good(b) && CleanCommand(r.command) && Roomy(b, r.command)
    ensures Good(Next(b, r).book)
    ensures Next(b, r).outcome.Err? ==> Next(b, r).book == b
  {
    hide WF, Clean, Exec;
    ExecKeepsWF(b, r.command, r.clock);
    RejectionIsAtomic(b, r.command, r.clock);
  }

  /** Every reachable book satisfies the invariant. */
  lemma {:induction false} RunKeepsGood(b: Book, rs: seq<Request>)
    requires Good(b) && Admissible(b, rs)
    ensures Good(Run(b, rs))
    decreases |rs|
  {
    hide Good, Exec, Sane;
    GoodSane(b);
    if rs != [] {
      NextKeepsGood(b, rs[0]);
      RunKeepsGood(Next(b, rs[0]).book, rs[1..]);
    }
  }

  lemma EmptyBookGood(symbol: string)
    requires !Blank(symbol)
    ensures Good(EmptyBook(symbol))
  {
    EmptyBookWF(symbol);
  }

  lemma NextKeepsSymbol(b: Book, r: Request)
    requires WF(b)
    ensures Sane(b) && Next(b, r).book.symbol == b.symbol
  {
    hide WF, Submit, Cycles, LiveQueue, NewOrder, Taken;
    WFSane(b);
    match r.command
    case PlaceLimit(input) => PlaceKeepsSymbol(b, Limit, input, r.clock);
    case PlaceMarket(input) => PlaceKeepsSymbol(b, Market, input, r.clock);
    case _ =>
  }

  lemma PlaceKeepsSymbol(b: Book, typ: OrderType, input: Input, clock: Clock)
    requires WF(b) && typ in {Limit, Market}
    ensures Place(b, typ, input, clock).book.symbol == b.symbol
  {
    hide WF, Submit, Cycles, LiveQueue, Taken;
    WFSane(b);
    if !Taken(b, input.orderId) && NewOrder(b.symbol, typ, input).Ok? {
      var o := NewOrder(b.symbol, typ, input).value;
      SubmitKeepsWF(b, o);
      SubmitFrame(b, o);
      CyclesKeepWF(Submit(b, o).book, Submit(b, o).trades, 1, clock);
    }
  }

  /** A book that later commands have moved on: more events numbered, or a stop cancelled. */
  predicate MovedOn(b: Book, b': Book) {
    b'.sequence > b.sequence || (b'.sequence == b.sequence && |b'.stops| < |b.stops|)
  }

  /** Every command that succeeds moves the book on. */
  lemma SuccessMovesOn(b: Book, r: Request)
    requires Good(b) && Next(b, r).outcome.Ok?
    ensures MovedOn(b, Next(b, r).book)
  {
    hide WF, Clean, Place, PlaceStop, CancelById;
    match r.command
    case PlaceLimit(input) => PlaceMovesOn(b, Limit, input, r.clock);
    case PlaceMarket(input) => PlaceMovesOn(b, Market, input, r.clock);
    case Cancel(id) => CancelMovesOn(b, id);
    case _ => StopMovesOn(b, r);
  }

  lemma PlaceMovesOn(b: Book, typ: OrderType, input: Input, clock: Clock)
    requires WF(b) && typ in {Limit, Market} && Place(b, typ, input, clock).outcome.Ok?
    ensures MovedOn(b, Place(b, typ, input, clock).book)
  {
    hide WF, Taken, Submit, Cycles, LiveQueue;
    WFSane(b);
    var o := NewOrder(b.symbol, typ, input).value;
    SubmitKeepsWF(b, o);
    SubmitFrame(b, o);
    CyclesKeepWF(Submit(b, o).book, Submit(b, o).trades, 1, clock);
  }

  lemma CancelMovesOn(b: Book, id: string)
    requires WF(b) && CancelById(b, id).outcome.Ok?
    ensures MovedOn(b, CancelById(b, id).book)
  {
    WithoutStopParts(b.stops, id, b.symbol, b.last.Some?);
  }

  lemma StopMovesOn(b: Book, r: Request)
    requires WF(b) && Next(b, r).outcome.Ok?
    requires !r.command.PlaceLimit? && !r.command.PlaceMarket? && !r.command.Cancel?
    ensures MovedOn(b, Next(b, r).book)
  {
    hide WF, Taken;
  }
}
