/** Delivery: a command that has been published is never lost and never logged
    twice, whatever the workers' books say, whatever the leadership checks
    answer, and wherever in a call a worker breaks down. */
module Delivery {
  import opened Types
  import opened BookSpec
  import opened Runs
  import opened Recovery
  import opened Failover
  import opened FailoverSafety
  import opened Independence
  import opened Processor

  /** The broker's side of the protocol: what has been published, what is still to be handled, and what has been given up
      as refused, by the worker for its partition or by the book. */
  datatype Desk = Desk(store: Store, published: set<Envelope>, waiting: set<Envelope>, refused: set<Envelope>)

  datatype Occasion =
    | Publish(e: Envelope)
    | Call(e: Envelope, books: Books, clock: Clock, mine: bool, first: bool, second: bool, third: bool)
    | Breakdown(e: Envelope, books: Books, clock: Clock, writes: nat)

  /** The first few of the three writes of a call that logs its command. */
  function Partly(st: Store, books: Books, e: Envelope, clock: Clock, writes: nat): Store
    requires AllSane(books)
  {
    if writes == 0 || e.commandId in ProcessedOf(st, e.symbol) || !Accepts(books, e, clock) then st
    else
      var books' := ExecuteIn(books, Ask(e.symbol, Request(e.command, clock))).0;
      var st1 := WithEntry(st, e);
      if writes == 1 then st1
      else WithSnapshot(st1, e.symbol, SnapshotOf(BookIn(books', e.symbol), Some(|LogOf(st1, e.symbol)|)))
  }

  predicate Possible(d: Desk, o: Occasion) {
    match o
    case Publish(_) => true
    case Call(e, books, _, _, _, _, _) => e in d.waiting && AllSane(books)
    case Breakdown(e, books, _, _) => e in d.waiting && AllSane(books)
  }

  /** A call takes the command off the queue unless it asks for it again; a worker that breaks down leaves it there. */
  function After(d: Desk, o: Occasion): Desk
    requires Possible(d, o)
  {
    match o
    case Publish(e) => d.(published := d.published + {e}, waiting := d.waiting + {e})
    case Call(e, books, clock, mine, first, second, third) =>
      var (st, _, h) := Handling(d.store, books, e, clock, mine, first, second, third);
      var given := h.disposition == Refused || (h.reply.Some? && h.reply.value.Err?);
      d.(store := st,
         waiting := if h.disposition == Requeued then d.waiting else d.waiting - {e},
         refused := if given then d.refused + {e} else d.refused)
    case Breakdown(e, books, clock, writes) => d.(store := Partly(d.store, books, e, clock, writes))
  }

  predicate PossibleRun(d: Desk, os: seq<Occasion>)
    decreases |os|
  {
    os == [] || (Possible(d, os[0]) && PossibleRun(After(d, os[0]), os[1..]))
  }

  function AfterAll(d: Desk, os: seq<Occasion>): Desk
    requires PossibleRun(d, os)
    decreases |os|
  {
    if os == [] then d else AfterAll(After(d, os[0]), os[1..])
  }

  const OPENED := Desk(Store(map[], map[], {}, map[], {}, None), {}, {}, {})

  /** The processed ids are those of the log, in which none is twice. */
  predicate LoggedOnce(st: Store, symbol: string) {
    UniqueIds(LogOf(st, symbol)) && ProcessedOf(st, symbol) == IdsOf(LogOf(st, symbol))
  }

  ghost predicate Kept(d: Desk) {
    && (forall symbol :: LoggedOnce(d.store, symbol))
    && (forall e :: e in d.published ==>
          e in d.waiting || e in d.refused || e.commandId in ProcessedOf(d.store, e.symbol))
    && d.waiting <= d.published
  }

  /** The store has either not changed in what is logged, or by this command, which was not in it. */
  predicate LogsAtMost(st: Store, st': Store, e: Envelope) {
    || (st'.log == st.log && st'.processed == st.processed)
    || (&& e.commandId !in ProcessedOf(st, e.symbol)
        && st'.log == st.log[e.symbol := LogOf(st, e.symbol) + [e]]
        && st'.processed == st.processed[e.symbol := ProcessedOf(st, e.symbol) + {e.commandId}])
  }

  lemma OnceMore(log: seq<Envelope>, e: Envelope)
    requires UniqueIds(log) && e.commandId !in IdsOf(log)
    ensures UniqueIds(log + [e]) && IdsOf(log + [e]) == IdsOf(log) + {e.commandId}
  {
    var log' := log + [e];
    assert log'[|log|] == e;
    assert forall i :: 0 <= i < |log| ==> log'[i] == log[i] && log[i].commandId in IdsOf(log);
  }

  lemma StillLoggedOnce(st: Store, st': Store, e: Envelope, symbol: string)
    requires LogsAtMost(st, st', e) && LoggedOnce(st, symbol) && LoggedOnce(st, e.symbol)
    ensures LoggedOnce(st', symbol) && ProcessedOf(st, symbol) <= ProcessedOf(st', symbol)
  {
    hide UniqueIds, IdsOf;
    if symbol == e.symbol && e.commandId !in ProcessedOf(st, symbol) {
      OnceMore(LogOf(st, symbol), e);
    }
  }

  lemma CallLogs(d: Desk, o: Occasion)
    requires Possible(d, o) && !o.Publish?
    ensures LogsAtMost(d.store, After(d, o).store, o.e)
  {
    hide ExecuteIn, SnapshotOf, AllSane;
  }

  lemma OccasionKeeps(d: Desk, o: Occasion)
    requires Kept(d) && Possible(d, o)
    ensures Kept(After(d, o))
  {
    hide LoggedOnce, LogsAtMost, Handling, Partly, AllSane;
    var d' := After(d, o);
    if !o.Publish? {
      CallLogs(d, o);
      forall symbol
        ensures LoggedOnce(d'.store, symbol) && ProcessedOf(d.store, symbol) <= ProcessedOf(d'.store, symbol)
      {
        StillLoggedOnce(d.store, d'.store, o.e, symbol);
      }
    }
    if o.Call? {
      AnswersAreRight(d.store, o.books, o.e, o.clock, o.mine, o.first, o.second, o.third);
    }
  }

  lemma {:induction false} RunKeeps(d: Desk, os: seq<Occasion>)
    requires Kept(d) && PossibleRun(d, os)
    ensures Kept(AfterAll(d, os))
    decreases |os|
  {
    hide Kept, After, Possible;
    if os != [] {
      OccasionKeeps(d, os[0]);
      RunKeeps(After(d, os[0]), os[1..]);
    }
  }

  /** How often an id is in a log. */
  function Times(log: seq<Envelope>, id: string): nat {
    if log == [] then 0 else (if log[0].commandId == id then 1 else 0) + Times(log[1..], id)
  }

  lemma {:induction false} TimesOnce(log: seq<Envelope>, id: string)
    requires UniqueIds(log)
    ensures Times(log, id) == if id in IdsOf(log) then 1 else 0
  {
    if log != [] {
      var rest := log[1..];
      assert forall i :: 0 <= i < |rest| ==> rest[i] == log[i + 1];
      TimesOnce(rest, id);
      assert id in IdsOf(log) <==> log[0].commandId == id || id in IdsOf(rest) by {
        assert forall i :: 0 < i < |log| ==> log[i] == rest[i - 1];
      }
    }
  }

  /** Exactly once: after any number of publications, calls and breakdowns, in any order, every published command is in
      the log of its symbol exactly once, or it is not in it and still with the broker or refused. */
  lemma NeverLostNorDoubled(os: seq<Occasion>, e: Envelope)
    requires PossibleRun(OPENED, os) && e in AfterAll(OPENED, os).published
    ensures var d := AfterAll(OPENED, os);
            var n := Times(LogOf(d.store, e.symbol), e.commandId);
            n == 1 || (n == 0 && (e in d.waiting || e in d.refused))
  {
    hide After, Possible;
    assert Kept(OPENED);
    RunKeeps(OPENED, os);
    var d := AfterAll(OPENED, os);
    assert LoggedOnce(d.store, e.symbol);
    TimesOnce(LogOf(d.store, e.symbol), e.commandId);
  }
}
