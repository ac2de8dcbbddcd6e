/** Handling one delivered command, as the worker's code does it, and that every
    call is a run of the protocol's state machine. */
module Processor {
  import opened Types
  import opened BookSpec
  import opened Invariant
  import opened StopCascade
  import opened Runs
  import opened Recovery
  import opened Failover
  import opened Independence
  import opened Partition
  import opened Standby
  import opened GoRecovery
  import opened GoRegistry

  datatype Disposition = Acked | Requeued | Refused

  /** What the worker tells the broker, and whether it stops because leadership is lost. */
  datatype Handled = Handled(disposition: Disposition, lost: bool, reply: Option<Result<Reply, Error>>)

  // ------------------------------------------------------------------ the store

  function WithEntry(st: Store, e: Envelope): Store {
    st.(log := st.log[e.symbol := LogOf(st, e.symbol) + [e]],
        processed := st.processed[e.symbol := ProcessedOf(st, e.symbol) + {e.commandId}],
        symbols := st.symbols + {e.symbol})
  }

  function WithSnapshot(st: Store, symbol: string, s: Snapshot): Store {
    st.(snapshots := st.snapshots[symbol := s])
  }

  function WithReport(st: Store, e: Envelope): Store {
    st.(reported := st.reported + {(e.symbol, e.commandId)})
  }

  /** The durable store as one client sees it during a call that nothing disturbs. */
  class StoreClient {
    var state: Store

    constructor (state: Store)
      ensures this.state == state
    {
      this.state := state;
    }

    predicate IsCommandProcessed(symbol: string, commandId: string)
      reads this
    {
      symbol in state.processed && commandId in state.processed[symbol]
    }

    /** The log entry, the processed id and the symbol are written in one transaction. */
    method AppendProcessedCommand(e: Envelope) returns (id: nat)
      modifies this
      ensures state == WithEntry(old(state), e) && id == |LogOf(state, e.symbol)|
    {
      state := WithEntry(state, e);
      id := |LogOf(state, e.symbol)|;
    }

    method SaveRecoverySnapshot(symbol: string, s: Snapshot)
      modifies this
      ensures state == WithSnapshot(old(state), symbol, s)
    {
      state := state.(snapshots := state.snapshots[symbol := s]);
    }

    /** Only the status PROCESSED is kept in the model. */
    method ReportProcessed(e: Envelope)
      modifies this
      ensures state == WithReport(old(state), e)
    {
      state := state.(reported := state.reported + {(e.symbol, e.commandId)});
    }
  }

  /** What a call leaves in the store and in memory, and what it tells the broker.  `first`, `second`
      and `third` are the answers to the leadership checks. */
  function Handling(st: Store, books: Books, e: Envelope, clock: Clock, mine: bool, first: bool, second: bool, third: bool)
    : (r: (Store, Books, Handled))
    requires AllSane(books)
  {
    var (books', outcome) := ExecuteIn(books, Ask(e.symbol, Request(e.command, clock)));
    if !mine then (st, books, Handled(Refused, false, None))
    else if !first then (st, books, Handled(Requeued, true, None))
    else if e.commandId in ProcessedOf(st, e.symbol) then (WithReport(st, e), books, Handled(Acked, false, None))
    else if outcome.Err? then (st, books', Handled(Acked, false, Some(outcome)))
    else if !second then (st, books', Handled(Requeued, true, None))
    else
      var st1 := WithEntry(st, e);
      var st2 := WithSnapshot(st1, e.symbol, SnapshotOf(BookIn(books', e.symbol), Some(|LogOf(st1, e.symbol)|)));
      (WithReport(st2, e), books', Handled(Acked, !third, Some(outcome)))
  }

  /** Whether the book accepts a command, as these books are. */
  predicate Accepts(books: Books, e: Envelope, clock: Clock)
    requires AllSane(books)
  {
    ExecuteIn(books, Ask(e.symbol, Request(e.command, clock))).1.Ok?
  }

  /** What the broker is told, read off the stores before and after and the reply.  Only a command of another partition
      is refused, and nothing is done for it.  A command goes back to the queue exactly if leadership is lost before it
      can be logged, and nothing is written then.  A command that is acknowledged is processed and reported, or the book
      has refused it and nothing is written. */
  lemma AnswersAreRight(st: Store, books: Books, e: Envelope, clock: Clock, mine: bool, first: bool, second: bool, third: bool)
    requires AllSane(books)
    ensures var (st', books', h) := Handling(st, books, e, clock, mine, first, second, third);
            var known := e.commandId in ProcessedOf(st, e.symbol);
            && (h.disposition == Refused <==> !mine)
            && (h.disposition == Refused ==> st' == st && books' == books)
            && (h.disposition == Requeued <==> mine && (!first || (!known && Accepts(books, e, clock) && !second)))
            && (h.disposition == Requeued ==> st' == st)
            && (h.lost <==> h.disposition == Requeued || (mine && !known && Accepts(books, e, clock) && !third))
            && (h.disposition == Acked ==>
                  || (e.commandId in ProcessedOf(st', e.symbol) && (e.symbol, e.commandId) in st'.reported)
                  || (!known && !Accepts(books, e, clock) && st' == st && h.reply.Some? && h.reply.value.Err?))
  {
    hide ExecuteIn, SnapshotOf;
  }

  /** What an acknowledged command that was not known before has left in the store, if the book accepted it: one more log
      entry, and a snapshot of the book after it that says so. */
  lemma AcceptedIsLogged(st: Store, books: Books, e: Envelope, clock: Clock, third: bool)
    requires AllSane(books) && e.commandId !in ProcessedOf(st, e.symbol) && Accepts(books, e, clock)
    ensures var (st', books', h) := Handling(st, books, e, clock, true, true, true, third);
            && h.disposition == Acked && h.lost == !third
            && LogOf(st', e.symbol) == LogOf(st, e.symbol) + [e]
            && (forall s :: s != e.symbol ==> LogOf(st', s) == LogOf(st, s) && ProcessedOf(st', s) == ProcessedOf(st, s))
            && ProcessedOf(st', e.symbol) == ProcessedOf(st, e.symbol) + {e.commandId}
            && e.symbol in st'.snapshots && st'.snapshots[e.symbol].lastCommandId == Some(|LogOf(st, e.symbol)| + 1)
            && st'.snapshots[e.symbol] == SnapshotOf(BookIn(books', e.symbol), Some(|LogOf(st, e.symbol)| + 1))
            && BookIn(books', e.symbol) == Next(BookIn(books, e.symbol), Request(e.command, clock)).book
            && st'.reported == st.reported + {(e.symbol, e.commandId)} && st'.lock == st.lock
  {
    hide Exec;
  }

  class CommandProcessor {
    const partitionId: int
    const partitionCount: int
    const registry: Registry
    const store: StoreClient

    ghost predicate Valid()
      reads this, registry, registry.Repr()
    {
      registry.Valid() && store !in registry.Repr() && this !in registry.Repr()
    }

    predicate Mine(symbol: string) {
      PartitionOf(Utf16(symbol), partitionCount) == Ok(partitionId)
    }

    constructor (partitionId: int, partitionCount: int, registry: Registry, store: StoreClient)
      requires registry.Valid() && store !in registry.Repr()
      ensures Valid() && this.registry == registry && this.store == store
      ensures this.partitionId == partitionId && this.partitionCount == partitionCount
    {
      this.partitionId, this.partitionCount := partitionId, partitionCount;
      this.registry, this.store := registry, store;
    }

    /** A snapshot of a book of the registry. */
    method TakeSnapshot(symbol: string, id: nat) returns (s: Snapshot)
      requires registry.Valid() && symbol in registry.books
      ensures registry.Valid() && registry.View() == old(registry.View()) && registry.Repr() == old(registry.Repr())
      ensures s == SnapshotOf(old(registry.View())[symbol], Some(id))
    {
      hide Housed, Value, Separate, WF, SnapshotOf;
      registry.BookIsValid(symbol);
      ghost var f := registry.Repr();
      s := RecoverySnapshot(registry.books[symbol], Some(id));
      registry.Untouched(f);
    }

    /** Make the command durable: log entry, recovery snapshot, status. */
    method Persist(e: Envelope)
      requires Valid() && e.symbol in registry.books
      modifies store
      ensures Valid() && registry.View() == old(registry.View())
      ensures var st := WithEntry(old(store.state), e);
              var s := SnapshotOf(registry.View()[e.symbol], Some(|LogOf(st, e.symbol)|));
              store.state == WithReport(WithSnapshot(st, e.symbol, s), e)
    {
      hide Registry.Valid, Registry.View, Registry.Repr, SnapshotOf;
      ghost var f := registry.Repr();
      var id := store.AppendProcessedCommand(e);
      registry.Untouched(f);
      var snapshot := TakeSnapshot(e.symbol, id);
      store.SaveRecoverySnapshot(e.symbol, snapshot);
      store.ReportProcessed(e);
      registry.Untouched(f);
    }

    /** Partition, leadership, dedup, execute, leadership, append, snapshot, report, leadership. */
    method Handle(e: Envelope, clock: Clock, first: bool, second: bool, third: bool) returns (h: Handled)
      requires Valid()
      modifies registry, registry.Repr(), store
      ensures Valid() && AllSane(old(registry.View()))
      ensures (store.state, registry.View(), h)
              == Handling(old(store.state), old(registry.View()), e, clock, Mine(e.symbol), first, second, third)
      ensures h.disposition == Refused <==> !Mine(e.symbol)
      ensures h.disposition != Acked ==> store.state == old(store.state)
      ensures h.disposition == Acked ==>
                || (e.commandId in ProcessedOf(store.state, e.symbol) && (e.symbol, e.commandId) in store.state.reported)
                || (store.state == old(store.state) && h.reply.Some? && h.reply.value.Err?)
    {
      hide Registry.Valid, Registry.View, PartitionOf, Utf16, AllSane, ExecuteIn, SnapshotOf;
      registry.ViewIsSane();
      AnswersAreRight(store.state, registry.View(), e, clock, Mine(e.symbol), first, second, third);
      if !Mine(e.symbol) {
        return Handled(Refused, false, None);
      }
      if !first {
        return Handled(Requeued, true, None);
      }
      if store.IsCommandProcessed(e.symbol, e.commandId) {
        ghost var f := registry.Repr();
        store.ReportProcessed(e);
        registry.Untouched(f);
        return Handled(Acked, false, None);
      }
      ExecutedIsThere(registry.View(), Ask(e.symbol, Request(e.command, clock)));
      var outcome := registry.Execute(e.symbol, Request(e.command, clock));
      if outcome.Err? {
        return Handled(Acked, false, Some(outcome));
      }
      if !second {
        return Handled(Requeued, true, None);
      }
      Persist(e);
      return Handled(Acked, !third, Some(outcome));
    }
  }

  // ---------------------------------------------------------- the state machine

  /** The steps of a call by worker `w`, after the deduplication.  At a leadership check that fails, the lock
      has expired meanwhile. */
  function LaterSteps(st: Store, books: Books, w: nat, e: Envelope, clock: Clock, second: bool, third: bool): seq<Event>
    requires AllSane(books)
  {
    if e.commandId in ProcessedOf(st, e.symbol) then []
    else if ExecuteIn(books, Ask(e.symbol, Request(e.command, clock))).1.Err? then [Event.Execute(w, clock)] + []
    else if !second then [Event.Execute(w, clock)] + Expiry(false)
    else [Event.Execute(w, clock)] + ([Append(w)] + ([SaveSnapshot(w)] + ([Event.Ack(w)] + Expiry(third))))
  }

  /** At a leadership check with this answer. */
  function Expiry(leader: bool): seq<Event> {
    if leader then [] else [Expire] + []
  }

  /** All steps of a call.  One that is not for this partition takes none. */
  function CallSteps(st: Store, books: Books, w: nat, e: Envelope, clock: Clock, mine: bool, first: bool, second: bool,
                     third: bool): seq<Event>
    requires AllSane(books)
  {
    if !mine then []
    else if !first then Expiry(false)
    else [Deliver(w, e)] + ([Dedup(w)] + LaterSteps(st, books, w, e, clock, second, third))
  }

  /** A worker in the middle of a call, about to execute. */
  predicate Ready(s: State, w: nat, e: Envelope) {
    && w < |s.workers| && s.workers[w].phase == Deduped(e) && s.store.lock == Some(w)
    && AllSane(s.workers[w].books) && Roomy(BookOf(s.workers[w], e.symbol), e.command)
  }

  lemma ReadySane(s: State, w: nat, e: Envelope)
    requires Ready(s, w, e)
    ensures Sane(BookOf(s.workers[w], e.symbol))
  {
  }

  lemma Expiring(s: State, leader: bool)
    ensures EnabledRun(s, Expiry(leader))
    ensures ApplyAll(s, Expiry(leader)) == if leader then s else s.(store := s.store.(lock := None))
  {
    if !leader {
      FirstStep(s, Expire, []);
    }
  }

  /** Executing, logging, saving and acknowledging. */
  lemma LoggedCall(s: State, w: nat, e: Envelope, clock: Clock, third: bool)
    requires Ready(s, w, e) && !Blank(e.symbol)
    requires ExecuteIn(s.workers[w].books, Ask(e.symbol, Request(e.command, clock))).1.Ok?
    ensures var evs := [Event.Execute(w, clock)] + ([Append(w)] + ([SaveSnapshot(w)] + ([Event.Ack(w)] + Expiry(third))));
            && EnabledRun(s, evs)
            && var s' := ApplyAll(s, evs);
               && w < |s'.workers| && s'.workers[w].phase.Idle?
               && s'.workers[w].books == ExecuteIn(s.workers[w].books, Ask(e.symbol, Request(e.command, clock))).0
               && var st1 := WithEntry(s.store, e);
                  var b := BookIn(s'.workers[w].books, e.symbol);
                  var st2 := WithReport(WithSnapshot(st1, e.symbol, SnapshotOf(b, Some(|LogOf(st1, e.symbol)|))), e);
                  s'.store == if third then st2 else st2.(lock := None)
  {
    hide Exec, Sane, SnapshotOf, Apply, Enabled, AllSane;
    ReadySane(s, w, e);
    StepOf(s, w, Event.Execute(w, clock));
    var s1 := Apply(s, Event.Execute(w, clock));
    StepOf(s1, w, Append(w));
    var s2 := Apply(s1, Append(w));
    StepOf(s2, w, SaveSnapshot(w));
    var s3 := Apply(s2, SaveSnapshot(w));
    StepOf(s3, w, Event.Ack(w));
    var s4 := Apply(s3, Event.Ack(w));
    Expiring(s4, third);
    FirstStep(s3, Event.Ack(w), Expiry(third));
    FirstStep(s2, SaveSnapshot(w), [Event.Ack(w)] + Expiry(third));
    FirstStep(s1, Append(w), [SaveSnapshot(w)] + ([Event.Ack(w)] + Expiry(third)));
    FirstStep(s, Event.Execute(w, clock), [Append(w)] + ([SaveSnapshot(w)] + ([Event.Ack(w)] + Expiry(third))));
  }

  /** A command that the book rejects: executed, and nothing written. */
  lemma RejectedCall(s: State, w: nat, e: Envelope, clock: Clock)
    requires Ready(s, w, e) && !Blank(e.symbol)
    requires ExecuteIn(s.workers[w].books, Ask(e.symbol, Request(e.command, clock))).1.Err?
    ensures var evs := [Event.Execute(w, clock)] + [];
            && EnabledRun(s, evs)
            && var s' := ApplyAll(s, evs);
               && w < |s'.workers| && s'.workers[w].phase.Idle? && s'.store == s.store
               && s'.workers[w].books == ExecuteIn(s.workers[w].books, Ask(e.symbol, Request(e.command, clock))).0
  {
    hide Exec, Sane, SnapshotOf, Apply, Enabled, AllSane;
    ReadySane(s, w, e);
    StepOf(s, w, Event.Execute(w, clock));
    FirstStep(s, Event.Execute(w, clock), []);
  }

  /** A call that ends at the second leadership check: executed, and nothing written. */
  lemma LostCall(s: State, w: nat, e: Envelope, clock: Clock)
    requires Ready(s, w, e) && !Blank(e.symbol)
    requires ExecuteIn(s.workers[w].books, Ask(e.symbol, Request(e.command, clock))).1.Ok?
    ensures var evs := [Event.Execute(w, clock)] + Expiry(false);
            && EnabledRun(s, evs)
            && var s' := ApplyAll(s, evs);
               && w < |s'.workers| && s'.store == s.store.(lock := None)
               && s'.workers[w].books == ExecuteIn(s.workers[w].books, Ask(e.symbol, Request(e.command, clock))).0
  {
    hide Exec, Sane, AllSane;
    ReadySane(s, w, e);
    StepOf(s, w, Event.Execute(w, clock));
    var s1 := Apply(s, Event.Execute(w, clock));
    Expiring(s1, false);
    FirstStep(s, Event.Execute(w, clock), Expiry(false));
  }

  /** What a call and its run of the state machine have in common at the end.  A worker that was told that it lost
      leadership has lost the lock; any other is idle again. */
  predicate Ends(s': State, w: nat, st: Store, books: Books, h: Handled) {
    && w < |s'.workers| && s'.workers[w].books == books
    && if h.lost then s'.store == st.(lock := None) else s'.store == st && s'.workers[w].phase.Idle?
  }

  /** From the deduplication on. */
  lemma RestOfCall(s: State, w: nat, e: Envelope, clock: Clock, second: bool, third: bool)
    requires Ready(s, w, e) && !Blank(e.symbol) && e.commandId !in ProcessedOf(s.store, e.symbol)
    ensures var books := s.workers[w].books;
            var evs := LaterSteps(s.store, books, w, e, clock, second, third);
            var (st, books', h) := Handling(s.store, books, e, clock, true, true, second, third);
            EnabledRun(s, evs) && Ends(ApplyAll(s, evs), w, st, books', h)
  {
    hide ExecuteIn, SnapshotOf, ApplyAll, EnabledRun, WithEntry, WithSnapshot, WithReport, BookIn;
    if ExecuteIn(s.workers[w].books, Ask(e.symbol, Request(e.command, clock))).1.Err? {
      RejectedCall(s, w, e, clock);
    } else if second {
      LoggedCall(s, w, e, clock, third);
    } else {
      LostCall(s, w, e, clock);
    }
  }

  /** Every call of an idle worker that holds the lock is a run of the state machine, whatever the leadership checks
      answer: the same store and the same books, and either the worker is idle again or the lock has expired. */
  lemma CallIsARun(s: State, w: nat, e: Envelope, clock: Clock, mine: bool, first: bool, second: bool, third: bool)
    requires w < |s.workers| && s.workers[w].phase.Idle? && s.store.lock == Some(w) && WellFormed(e)
    requires AllSane(s.workers[w].books) && Roomy(BookOf(s.workers[w], e.symbol), e.command)
    ensures var books := s.workers[w].books;
            var evs := CallSteps(s.store, books, w, e, clock, mine, first, second, third);
            var (st, books', h) := Handling(s.store, books, e, clock, mine, first, second, third);
            EnabledRun(s, evs) && Ends(ApplyAll(s, evs), w, st, books', h)
  {
    hide LaterSteps, ExecuteIn, SnapshotOf, WithEntry, WithSnapshot, AllSane, CleanCommand;
    if mine && first {
      DeliveredCall(s, w, e, clock, second, third);
    } else if mine {
      Expiring(s, false);
    }
  }

  lemma DeliveredCall(s: State, w: nat, e: Envelope, clock: Clock, second: bool, third: bool)
    requires w < |s.workers| && s.workers[w].phase.Idle? && s.store.lock == Some(w) && WellFormed(e)
    requires AllSane(s.workers[w].books) && Roomy(BookOf(s.workers[w], e.symbol), e.command)
    ensures var books := s.workers[w].books;
            var evs := [Deliver(w, e)] + ([Dedup(w)] + LaterSteps(s.store, books, w, e, clock, second, third));
            var (st, books', h) := Handling(s.store, books, e, clock, true, true, second, third);
            EnabledRun(s, evs) && Ends(ApplyAll(s, evs), w, st, books', h)
  {
    hide ExecuteIn, SnapshotOf, Apply, Enabled, WithEntry, WithSnapshot, AllSane, CleanCommand;
    var later := LaterSteps(s.store, s.workers[w].books, w, e, clock, second, third);
    StepOf(s, w, Deliver(w, e));
    var s1 := Apply(s, Deliver(w, e));
    StepOf(s1, w, Dedup(w));
    var s2 := Apply(s1, Dedup(w));
    if e.commandId !in ProcessedOf(s.store, e.symbol) {
      RestOfCall(s2, w, e, clock, second, third);
    }
    FirstStep(s1, Dedup(w), later);
    FirstStep(s, Deliver(w, e), [Dedup(w)] + later);
  }

  /** A first worker can start, acquire the lock, find nothing to recover, and consume. */
  lemma FirstWorkerConsumes(s: State)
    requires Initial(s) && |s.workers| > 0
    ensures var evs := [Start(0, false)] + ([Acquire(0)] + ([ListSymbols(0)] + ([BeginConsuming(0)] + [])));
            && EnabledRun(s, evs)
            && var s' := ApplyAll(s, evs);
               0 < |s'.workers| && s'.workers[0].phase.Idle? && s'.store.lock == Some(0)
  {
    hide Apply, Enabled;
    StepOf(s, 0, Start(0, false));
    var s1 := Apply(s, Start(0, false));
    StepOf(s1, 0, Acquire(0));
    var s2 := Apply(s1, Acquire(0));
    StepOf(s2, 0, ListSymbols(0));
    var s3 := Apply(s2, ListSymbols(0));
    StepOf(s3, 0, BeginConsuming(0));
    FirstStep(s3, BeginConsuming(0), []);
    FirstStep(s2, ListSymbols(0), [BeginConsuming(0)] + []);
    FirstStep(s1, Acquire(0), [ListSymbols(0)] + ([BeginConsuming(0)] + []));
    FirstStep(s, Start(0, false), [Acquire(0)] + ([ListSymbols(0)] + ([BeginConsuming(0)] + [])));
  }
}
