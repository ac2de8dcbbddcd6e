/** The worker protocol of one partition, as a state machine over its steps.

    Any number of workers share a store: one append-only command log per
    symbol, the sets of processed command ids, one recovery snapshot per
    symbol and one lock with expiry.  Workers may crash between any two steps,
    the lock may expire at any time, and any command may be delivered to any
    consuming worker at any time and any number of times, which covers
    redelivery.  A stream id is the number of entries up to and including it. */
module Failover {
  import opened Types
  import opened BookSpec
  import opened StopCascade
  import opened Recovery

  datatype Envelope = Envelope(commandId: string, symbol: string, command: Command)

  datatype Store = Store(
    log: map<string, seq<Envelope>>,
    processed: map<string, set<string>>,
    symbols: set<string>,
    snapshots: map<string, Snapshot>,
    reported: set<(string, string)>,
    lock: Option<nat>)

  /** Where a worker is.  `Waiting` holds nothing in memory; `Standby` keeps a
      warm replica; from `Acquired` on the worker has once obtained the lock. */
  datatype Phase =
    | Down
    | Waiting
    | Standby
    | Acquired
    | Recovering(todo: set<string>)
    | Idle
    | Checked(e: Envelope)
    | Deduped(e: Envelope)
    | Executed(e: Envelope)
    | Logged(e: Envelope, id: nat)
    | Saved(e: Envelope)

  /** `seen` is, per tracked symbol, how much of the log the book reflects.

      A `node` is a worker of the Node engine, which keeps a warm replica and can
      return to it; the others are Go workers, which exit instead.  A node that
      has started its consumer is on `trial` until it has confirmed that it still
      holds the lock.  `replica` are the positions that its replica recorded
      before the consumer started: consuming does not advance them.  `touched`
      are the symbols for which a command has succeeded since then. */
  datatype Worker = Worker(
    phase: Phase,
    books: Books,
    seen: map<string, nat>,
    node: bool,
    trial: bool,
    replica: map<string, nat>,
    touched: set<string>)

  datatype State = State(store: Store, workers: seq<Worker>)

  // -------------------------------------------------------------- components

  function LogOf(st: Store, symbol: string): seq<Envelope> {
    if symbol in st.log then st.log[symbol] else []
  }

  function ProcessedOf(st: Store, symbol: string): set<string> {
    if symbol in st.processed then st.processed[symbol] else {}
  }

  function Seen(wk: Worker, symbol: string): nat {
    if symbol in wk.seen then wk.seen[symbol] else 0
  }

  /** The position that the replica of a consuming worker recorded. */
  function Recorded(wk: Worker, symbol: string): nat {
    if symbol in wk.replica then wk.replica[symbol] else 0
  }

  function BookOf(wk: Worker, symbol: string): Book {
    BookIn(wk.books, symbol)
  }

  const FRESH := Worker(Down, map[], map[], false, false, map[], {})

  /** The first `k` commands of a log replayed from an empty book. */
  function ReplayTo(symbol: string, log: seq<Envelope>, k: nat): (b: Book)
    requires k <= |log|
    ensures Sane(b)
  {
    if k == 0 then EmptyBook(symbol) else Exec(ReplayTo(symbol, log, k - 1), log[k - 1].command, Zero()).book
  }

  // ------------------------------------------------------------------- events

  datatype Event =
    | Start(w: nat, node: bool)
    | Crash(w: nat)
    | Exit(w: nat)
    | Expire
    | Acquire(w: nat)
    | ListSymbols(w: nat)
    | Load(w: nat, symbol: string)
    | ReplayOne(w: nat, symbol: string, clock: Clock)
    | CaughtUp(w: nat, symbol: string)
    | BeginConsuming(w: nat)
    | Confirm(w: nat)
    | Abandon(w: nat)
    | Demote(w: nat)
    | Reset(w: nat)
    | Deliver(w: nat, envelope: Envelope)
    | Dedup(w: nat)
    | Execute(w: nat, clock: Clock)
    | Append(w: nat)
    | SaveSnapshot(w: nat)
    | Ack(w: nat)

  predicate Replaying(p: Phase) {
    p.Standby? || p.Acquired? || p.Recovering?
  }

  predicate Consuming(p: Phase) {
    p.Idle? || p.Checked? || p.Deduped? || p.Executed? || p.Logged? || p.Saved?
  }

  /** A command the API can send, for a symbol that has a partition. */
  predicate WellFormed(e: Envelope) {
    !Blank(e.symbol) && !NodeBlank(e.symbol) && CleanCommand(e.command)
  }

  predicate HasSnapshot(st: Store, symbol: string) {
    symbol in st.snapshots && st.snapshots[symbol].lastCommandId.Some?
  }

  /** When a worker can take a step, given the store. */
  predicate CanStep(st: Store, id: nat, wk: Worker, ev: Event) {
    match ev
    case Start(_, _) => wk.phase.Down?
    case Crash(_) => true
    case Exit(_) => true
    case Expire => false
    case Acquire(_) => (wk.phase.Waiting? || wk.phase.Standby?) && st.lock.None?
    case ListSymbols(_) => wk.phase.Acquired?
    case Load(_, symbol) =>
      Replaying(wk.phase) && symbol !in wk.seen && !Blank(symbol)
      && (HasSnapshot(st, symbol) ==> Restore(st.snapshots[symbol]).Ok?)
    case ReplayOne(_, symbol, clock) =>
      // A command that fails stops the replay, which is tried again later.
      Replaying(wk.phase) && !Blank(symbol) && symbol in wk.seen && wk.seen[symbol] < |LogOf(st, symbol)|
      && Sane(BookOf(wk, symbol))
      && Exec(BookOf(wk, symbol), LogOf(st, symbol)[wk.seen[symbol]].command, clock).outcome.Ok?
    case CaughtUp(_, symbol) =>
      // A worker that has lost the lock may take an old end of the log for the end.
      wk.phase.Recovering? && symbol in wk.seen
      && (wk.seen[symbol] == |LogOf(st, symbol)| || st.lock != Some(id))
    case BeginConsuming(_) => wk.phase.Recovering? && wk.phase.todo == {}
    case Confirm(_) => Consuming(wk.phase) && wk.trial && st.lock == Some(id)
    case Abandon(_) => Consuming(wk.phase) && wk.trial && st.lock != Some(id)
    case Demote(_) => wk.node && (wk.phase.Acquired? || wk.phase.Recovering?)
    case Reset(_) => wk.node && !wk.trial && Consuming(wk.phase)
    case Deliver(_, e) => wk.phase.Idle? && st.lock == Some(id) && WellFormed(e)
    case Dedup(_) => wk.phase.Checked?
    case Execute(_, _) =>
      wk.phase.Deduped? && Sane(BookOf(wk, wk.phase.e.symbol))
      && Roomy(BookOf(wk, wk.phase.e.symbol), wk.phase.e.command)
    case Append(_) => wk.phase.Executed? && st.lock == Some(id)
    case SaveSnapshot(_) => wk.phase.Logged?
    case Ack(_) => wk.phase.Saved?
  }

  /** What the step makes of the worker. */
  function StepWorker(st: Store, id: nat, wk: Worker, ev: Event): Worker
    requires CanStep(st, id, wk, ev)
  {
    match ev
    case Start(_, node) => FRESH.(phase := if node then Standby else Waiting, node := node)
    case Crash(_) => FRESH
    case Exit(_) => FRESH
    case Acquire(_) => wk.(phase := Acquired)
    case ListSymbols(_) => wk.(phase := Recovering(st.symbols))
    case Load(_, symbol) =>
      if HasSnapshot(st, symbol) then
        wk.(books := wk.books[symbol := Restore(st.snapshots[symbol]).value],
            seen := wk.seen[symbol := st.snapshots[symbol].lastCommandId.value])
      else
        wk.(seen := wk.seen[symbol := 0])
    case ReplayOne(_, symbol, clock) =>
      var n := wk.seen[symbol];
      wk.(books := wk.books[symbol := Exec(BookOf(wk, symbol), LogOf(st, symbol)[n].command, clock).book],
          seen := wk.seen[symbol := n + 1])
    case CaughtUp(_, symbol) => wk.(phase := Recovering(wk.phase.todo - {symbol}))
    case BeginConsuming(_) => wk.(phase := Idle, trial := wk.node, replica := wk.seen, touched := {})
    case Confirm(_) => wk.(trial := false)
    // Back to the replica without rebuilding: the books stay, the positions are those of the replica.
    case Abandon(_) => wk.(phase := Standby, trial := false, seen := wk.replica)
    case Demote(_) => wk.(phase := Standby)
    case Reset(_) => FRESH.(phase := Standby, node := true)
    case Deliver(_, e) => wk.(phase := Checked(e))
    case Dedup(_) =>
      wk.(phase := if wk.phase.e.commandId in ProcessedOf(st, wk.phase.e.symbol) then Idle else Deduped(wk.phase.e))
    case Execute(_, clock) =>
      var e := wk.phase.e;
      var s := Exec(BookOf(wk, e.symbol), e.command, clock);
      wk.(books := wk.books[e.symbol := s.book],
          phase := if s.outcome.Ok? then Executed(e) else Idle,
          touched := if s.outcome.Ok? then wk.touched + {e.symbol} else wk.touched)
    case Append(_) =>
      var e := wk.phase.e;
      var n := |LogOf(st, e.symbol)| + 1;
      wk.(phase := Logged(e, n), seen := wk.seen[e.symbol := n])
    case SaveSnapshot(_) => wk.(phase := Saved(wk.phase.e))
    case Ack(_) => wk.(phase := Idle)
  }

  /** What the step makes of the store. */
  function StepStore(st: Store, id: nat, wk: Worker, ev: Event): Store
    requires CanStep(st, id, wk, ev)
  {
    match ev
    case Exit(_) => if st.lock == Some(id) then st.(lock := None) else st
    case Acquire(_) => st.(lock := Some(id))
    case Demote(_) => if st.lock == Some(id) then st.(lock := None) else st
    case Dedup(_) =>
      var e := wk.phase.e;
      if e.commandId in ProcessedOf(st, e.symbol)
      then st.(reported := st.reported + {(e.symbol, e.commandId)}) else st
    case Append(_) =>
      var e := wk.phase.e;
      st.(log := st.log[e.symbol := LogOf(st, e.symbol) + [e]],
          processed := st.processed[e.symbol := ProcessedOf(st, e.symbol) + {e.commandId}],
          symbols := st.symbols + {e.symbol})
    case SaveSnapshot(_) =>
      var e := wk.phase.e;
      st.(snapshots := st.snapshots[e.symbol := SnapshotOf(BookOf(wk, e.symbol), Some(wk.phase.id))])
    case Ack(_) =>
      var e := wk.phase.e;
      st.(reported := st.reported + {(e.symbol, e.commandId)})
    case _ => st
  }

  predicate Enabled(s: State, ev: Event) {
    ev.Expire? || (ev.w < |s.workers| && CanStep(s.store, ev.w, s.workers[ev.w], ev))
  }

  function Apply(s: State, ev: Event): (s': State)
    requires Enabled(s, ev)
    ensures |s'.workers| == |s.workers|
  {
    if ev.Expire? then s.(store := s.store.(lock := None))
    else
      var wk := s.workers[ev.w];
      State(StepStore(s.store, ev.w, wk, ev), s.workers[ev.w := StepWorker(s.store, ev.w, wk, ev)])
  }

  predicate Initial(s: State) {
    && s.store == Store(map[], map[], {}, map[], {}, None)
    && forall i :: 0 <= i < |s.workers| ==> s.workers[i] == FRESH
  }

  predicate EnabledRun(s: State, evs: seq<Event>)
    decreases |evs|
  {
    evs == [] || (Enabled(s, evs[0]) && EnabledRun(Apply(s, evs[0]), evs[1..]))
  }

  function ApplyAll(s: State, evs: seq<Event>): State
    requires EnabledRun(s, evs)
    decreases |evs|
  {
    if evs == [] then s else ApplyAll(Apply(s, evs[0]), evs[1..])
  }

  /** The step does not abandon a trial in which a command has succeeded. */
  predicate CleanStep(s: State, ev: Event)
    requires Enabled(s, ev)
  {
    ev.Abandon? ==> s.workers[ev.w].touched == {}
  }

  /** The run never abandons such a trial. */
  predicate CleanRun(s: State, evs: seq<Event>)
    requires EnabledRun(s, evs)
    decreases |evs|
  {
    evs == [] ||
    (CleanStep(s, evs[0]) && CleanRun(Apply(s, evs[0]), evs[1..]))
  }

  // -------------------------------------------------------- composing runs

  lemma FirstStep(s: State, ev: Event, rest: seq<Event>)
    requires Enabled(s, ev) && EnabledRun(Apply(s, ev), rest)
    ensures EnabledRun(s, [ev] + rest) && ApplyAll(s, [ev] + rest) == ApplyAll(Apply(s, ev), rest)
  {
    hide Apply, Enabled;
    assert ([ev] + rest)[0] == ev && ([ev] + rest)[1..] == rest;
  }

  /** One step of worker `w`, as a change of the store and of that worker. */
  lemma StepOf(s: State, w: nat, ev: Event)
    requires w < |s.workers| && !ev.Expire? && ev.w == w && CanStep(s.store, w, s.workers[w], ev)
    ensures Enabled(s, ev)
    ensures var s' := Apply(s, ev);
            && w < |s'.workers| && s'.store == StepStore(s.store, w, s.workers[w], ev)
            && s'.workers[w] == StepWorker(s.store, w, s.workers[w], ev)
  {
  }

  lemma {:induction false} EventsConcat(s: State, a: seq<Event>, b: seq<Event>)
    requires EnabledRun(s, a) && EnabledRun(ApplyAll(s, a), b)
    ensures EnabledRun(s, a + b) && ApplyAll(s, a + b) == ApplyAll(ApplyAll(s, a), b)
    decreases |a|
  {
    hide Apply, Enabled;
    if a == [] {
      assert a + b == b;
    } else {
      EventsConcat(Apply(s, a[0]), a[1..], b);
      FirstStep(s, a[0], a[1..] + b);
      assert a + b == [a[0]] + (a[1..] + b);
    }
  }

  /** Worker `w` and the store. */
  predicate Has(s: State, w: nat, wk: Worker, st: Store) {
    w < |s.workers| && s.workers[w] == wk && s.store == st
  }

  lemma StepAt(s: State, w: nat, wk: Worker, st: Store, ev: Event, rest: seq<Event>)
    requires Has(s, w, wk, st) && !ev.Expire? && ev.w == w && CanStep(st, w, wk, ev)
    ensures Enabled(s, ev) && Has(Apply(s, ev), w, StepWorker(st, w, wk, ev), StepStore(st, w, wk, ev))
    ensures EnabledRun(Apply(s, ev), rest) ==>
              EnabledRun(s, [ev] + rest) && ApplyAll(s, [ev] + rest) == ApplyAll(Apply(s, ev), rest)
  {
    StepOf(s, w, ev);
    if EnabledRun(Apply(s, ev), rest) {
      FirstStep(s, ev, rest);
    }
  }
}
