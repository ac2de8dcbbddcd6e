/** Safety of the worker protocol: over every clean run, and exactly which
    steps make a run unclean. */
module FailoverSafety {
  import opened Types
  import opened Matching
  import opened BookSpec
  import opened Invariant
  import opened StopCascade
  import opened Runs
  import opened Likeness
  import opened Recovery
  import opened Failover

  // --------------------------------------------------------------- the store

  /** Entry `k` of a log can be executed on the replay of what precedes it. */
  predicate Executable(symbol: string, log: seq<Envelope>, k: nat)
    requires k < |log|
  {
    && log[k].symbol == symbol && CleanCommand(log[k].command)
    && Roomy(ReplayTo(symbol, log, k), log[k].command)
    && Exec(ReplayTo(symbol, log, k), log[k].command, Zero()).outcome.Ok?
  }

  predicate SoundLog(symbol: string, log: seq<Envelope>) {
    forall k :: 0 <= k < |log| ==> Executable(symbol, log, k)
  }

  predicate UniqueIds(log: seq<Envelope>) {
    forall i, j :: 0 <= i < j < |log| ==> log[i].commandId != log[j].commandId
  }

  function IdsOf(log: seq<Envelope>): set<string> {
    set i | 0 <= i < |log| :: log[i].commandId
  }

  /** The saved snapshot is the state after the log prefix ending at its recorded id. */
  predicate SnapshotOk(symbol: string, log: seq<Envelope>, snap: Snapshot) {
    && snap.lastCommandId.Some? && snap.lastCommandId.value <= |log|
    && Restore(snap).Ok? && Good(Restore(snap).value) && snap == SnapshotOf(Restore(snap).value, snap.lastCommandId)
    && Alike(Restore(snap).value, ReplayTo(symbol, log, snap.lastCommandId.value))
  }

  /** What the store holds for one symbol. */
  ghost predicate SymbolOk(st: Store, symbol: string) {
    && SoundLog(symbol, LogOf(st, symbol))
    && UniqueIds(LogOf(st, symbol))
    && ProcessedOf(st, symbol) == IdsOf(LogOf(st, symbol))
    && (symbol !in st.symbols ==> LogOf(st, symbol) == [])
    && (symbol in st.snapshots ==> SnapshotOk(symbol, LogOf(st, symbol), st.snapshots[symbol]))
    && forall id :: (symbol, id) in st.reported ==> id in ProcessedOf(st, symbol)
  }

  ghost predicate StoreOk(st: Store) {
    forall symbol :: !Blank(symbol) ==> SymbolOk(st, symbol)
  }

  // ------------------------------------------------------------- the workers

  /** The state a worker's book stands for: the replay of what it has seen of
      the log, plus the one command it has executed but not yet logged. */
  predicate BookOk(st: Store, wk: Worker, symbol: string) {
    var log, n, b := LogOf(st, symbol), Seen(wk, symbol), BookOf(wk, symbol);
    && n <= |log| && Good(b)
    && if wk.phase.Executed? && wk.phase.e.symbol == symbol
       then Alike(b, Exec(ReplayTo(symbol, log, n), wk.phase.e.command, Zero()).book)
            && Exec(ReplayTo(symbol, log, n), wk.phase.e.command, Zero()).outcome.Ok?
            && Roomy(ReplayTo(symbol, log, n), wk.phase.e.command)
       else Alike(b, ReplayTo(symbol, log, n))
  }

  predicate UpToDate(st: Store, wk: Worker, symbol: string) {
    Seen(wk, symbol) == |LogOf(st, symbol)|
  }

  /** What a worker that holds the lock may rely on. */
  ghost predicate Synced(st: Store, wk: Worker) {
    && (wk.phase.Recovering? ==> forall s :: !Blank(s) && s !in wk.phase.todo ==> UpToDate(st, wk, s))
    && (Consuming(wk.phase) ==> forall s :: !Blank(s) ==> UpToDate(st, wk, s))
    && (wk.phase.Deduped? || wk.phase.Executed? ==>
          wk.phase.e.commandId !in ProcessedOf(st, wk.phase.e.symbol))
  }

  predicate PhaseOk(st: Store, wk: Worker) {
    && (wk.phase.Checked? || wk.phase.Deduped? || wk.phase.Executed? || wk.phase.Logged? || wk.phase.Saved? ==>
          WellFormed(wk.phase.e))
    && (wk.phase.Logged? ==> wk.phase.id == Seen(wk, wk.phase.e.symbol))
    && (wk.phase.Logged? || wk.phase.Saved? ==> wk.phase.e.commandId in ProcessedOf(st, wk.phase.e.symbol))
  }

  /** Since its consumer started, a worker's book of a symbol has stayed at the recorded position of the
      log, unless a command for the symbol has succeeded: then it is beyond that position. */
  predicate SinceStart(st: Store, wk: Worker, symbol: string) {
    var log, n := LogOf(st, symbol), Recorded(wk, symbol);
    n <= |log| && if symbol in wk.touched then MovedOn(ReplayTo(symbol, log, n), BookOf(wk, symbol)) else Seen(wk, symbol) == n
  }

  ghost predicate ConsumedOk(st: Store, wk: Worker) {
    Consuming(wk.phase) ==>
      && (forall s :: !Blank(s) ==> SinceStart(st, wk, s))
      && (wk.phase.Executed? || wk.phase.Logged? || wk.phase.Saved? ==> wk.phase.e.symbol in wk.touched)
      && (forall s :: s in wk.touched ==> !Blank(s))
  }

  ghost predicate WorkerOk(st: Store, id: nat, wk: Worker) {
    && (forall s :: !Blank(s) ==> BookOk(st, wk, s))
    && PhaseOk(st, wk) && ConsumedOk(st, wk)
    && (st.lock == Some(id) ==> Synced(st, wk))
  }

  ghost predicate Inv(s: State) {
    StoreOk(s.store) && forall i :: 0 <= i < |s.workers| ==> WorkerOk(s.store, i, s.workers[i])
  }

  // ------------------------------------------------------------------ replay

  lemma {:induction false} ReplayPrefix(symbol: string, a: seq<Envelope>, b: seq<Envelope>, k: nat)
    requires k <= |a| && k <= |b| && a[..k] == b[..k]
    ensures ReplayTo(symbol, a, k) == ReplayTo(symbol, b, k)
  {
    hide Exec, Sane;
    if k > 0 {
      assert a[..k - 1] == a[..k][..k - 1] && b[..k - 1] == b[..k][..k - 1];
      assert a[k - 1] == a[..k][k - 1] && b[k - 1] == b[..k][k - 1];
      ReplayPrefix(symbol, a, b, k - 1);
    }
  }

  lemma {:induction false} ReplayGood(symbol: string, log: seq<Envelope>, k: nat)
    requires !Blank(symbol) && SoundLog(symbol, log) && k <= |log|
    ensures Good(ReplayTo(symbol, log, k))
  {
    hide Good, Exec, Sane;
    if k == 0 {
      EmptyBookGood(symbol);
    } else {
      ReplayGood(symbol, log, k - 1);
      assert Executable(symbol, log, k - 1);
      NextKeepsGood(ReplayTo(symbol, log, k - 1), Request(log[k - 1].command, Zero()));
    }
  }

  lemma {:induction false} ReplaySymbol(symbol: string, log: seq<Envelope>, k: nat)
    requires !Blank(symbol) && SoundLog(symbol, log) && k <= |log|
    ensures ReplayTo(symbol, log, k).symbol == symbol
  {
    hide WF, Clean, Exec, Sane;
    if k > 0 {
      ReplaySymbol(symbol, log, k - 1);
      ReplayGood(symbol, log, k - 1);
      NextKeepsSymbol(ReplayTo(symbol, log, k - 1), Request(log[k - 1].command, Zero()));
    }
  }

  /** Executing the same command on two good books that are alike, at different
      times: the same outcome, and books that are good and alike. */
  lemma ExecBoth(a: Book, b: Book, c: Command, k: Clock, l: Clock)
    requires Good(a) && Good(b) && Alike(a, b) && CleanCommand(c)
    requires Roomy(a, c) || Roomy(b, c)
    ensures Sane(a) && Sane(b)
    ensures Good(Exec(a, c, k).book) && Alike(Exec(a, c, k).book, Exec(b, c, l).book)
    ensures Exec(a, c, k).outcome.Ok? <==> Exec(b, c, l).outcome.Ok?
    ensures Exec(a, c, k).outcome.Err? ==> Exec(a, c, k).book == a
    ensures Roomy(a, c) && Roomy(b, c)
  {
    hide WF, Clean, Exec, SameOrders;
    GoodSane(a);
    GoodSane(b);
    NextKeepsGood(a, Request(c, k));
    ExecAlike(a, b, c, k, l);
  }

  // ------------------------------------------------------- store-level changes

  lemma AppendedLog(symbol: string, log: seq<Envelope>, e: Envelope)
    requires SoundLog(symbol, log) && UniqueIds(log) && e.commandId !in IdsOf(log)
    requires Executable(symbol, log + [e], |log|)
    ensures SoundLog(symbol, log + [e]) && UniqueIds(log + [e])
    ensures IdsOf(log + [e]) == IdsOf(log) + {e.commandId}
  {
    hide Exec, ReplayTo;
    var log' := log + [e];
    forall k | 0 <= k < |log'|
      ensures Executable(symbol, log', k)
    {
      if k < |log| {
        assert Executable(symbol, log, k);
        assert log'[..k] == log[..k];
        ReplayPrefix(symbol, log, log', k);
      }
    }
    forall i | 0 <= i < |log|
      ensures log'[i].commandId in IdsOf(log)
    {
      assert log[i] == log'[i];
    }
    assert log'[|log|] == e;
    assert forall i :: 0 <= i < |log| ==> log[i] == log'[i];
  }

  /** A longer log says the same about a shorter prefix. */
  lemma ReplayStable(symbol: string, log: seq<Envelope>, more: seq<Envelope>, k: nat)
    requires k <= |log|
    ensures ReplayTo(symbol, log, k) == ReplayTo(symbol, log + more, k)
  {
    assert (log + more)[..k] == log[..k];
    ReplayPrefix(symbol, log, log + more, k);
  }

  lemma SnapshotStaysOk(symbol: string, log: seq<Envelope>, e: Envelope, snap: Snapshot)
    requires SnapshotOk(symbol, log, snap)
    ensures SnapshotOk(symbol, log + [e], snap)
  {
    hide Restore, Good, Alike, ReplayTo;
    ReplayStable(symbol, log, [e], snap.lastCommandId.value);
  }

  /** Books of workers other than the appending one stand for the same states. */
  lemma BookStaysOk(st: Store, st': Store, wk: Worker, symbol: string, more: seq<Envelope>)
    requires BookOk(st, wk, symbol) && LogOf(st', symbol) == LogOf(st, symbol) + more
    ensures BookOk(st', wk, symbol)
  {
    hide Good, Alike, ReplayTo, Exec;
    ReplayStable(symbol, LogOf(st, symbol), more, Seen(wk, symbol));
  }

  lemma SinceStartStays(st: Store, st': Store, wk: Worker, symbol: string, more: seq<Envelope>)
    requires SinceStart(st, wk, symbol) && LogOf(st', symbol) == LogOf(st, symbol) + more
    ensures SinceStart(st', wk, symbol)
  {
    hide ReplayTo, MovedOn;
    ReplayStable(symbol, LogOf(st, symbol), more, Recorded(wk, symbol));
  }

  // --------------------------------------------------- steps that keep the log

  /** The store changed in nothing a worker's book depends on. */
  predicate SameLogs(st: Store, st': Store) {
    st'.log == st.log && st'.processed == st.processed && st'.symbols == st.symbols
  }

  lemma ConsumedStays(st: Store, st': Store, wk: Worker)
    requires ConsumedOk(st, wk) && SameLogs(st, st')
    ensures ConsumedOk(st', wk)
  {
    hide Blank, MovedOn, ReplayTo;
    assert forall s :: SinceStart(st, wk, s) <==> SinceStart(st', wk, s);
  }

  lemma WorkerStaysOk(st: Store, st': Store, id: nat, wk: Worker)
    requires WorkerOk(st, id, wk) && SameLogs(st, st')
    requires st'.lock == Some(id) ==> st.lock == Some(id)
    ensures WorkerOk(st', id, wk)
  {
    hide Good, Alike, ReplayTo, Exec, ConsumedOk;
    ConsumedStays(st, st', wk);
    forall s | !Blank(s)
      ensures BookOk(st', wk, s)
    {
      assert BookOk(st, wk, s);
    }
    if st'.lock == Some(id) {
      SyncedStays(st, st', wk);
    }
  }

  lemma SyncedStays(st: Store, st': Store, wk: Worker)
    requires Synced(st, wk) && SameLogs(st, st')
    ensures Synced(st', wk)
  {
    assert forall s :: UpToDate(st, wk, s) <==> UpToDate(st', wk, s);
  }

  lemma StoreStaysOk(st: Store, st': Store)
    requires StoreOk(st) && SameLogs(st, st') && st'.snapshots == st.snapshots && st'.reported == st.reported
    ensures StoreOk(st')
  {
    hide SoundLog, UniqueIds, IdsOf, SnapshotOk;
    forall s | !Blank(s)
      ensures SymbolOk(st', s)
    {
      assert SymbolOk(st, s);
    }
  }

  lemma ReportedOk(st: Store, e: Envelope)
    requires StoreOk(st) && WellFormed(e) && e.commandId in ProcessedOf(st, e.symbol)
    ensures StoreOk(st.(reported := st.reported + {(e.symbol, e.commandId)}))
  {
    hide SoundLog, UniqueIds, IdsOf, SnapshotOk;
    var st' := st.(reported := st.reported + {(e.symbol, e.commandId)});
    forall s | !Blank(s)
      ensures SymbolOk(st', s)
    {
      assert SymbolOk(st, s);
    }
  }

  // --------------------------------------------------- the worker that steps

  lemma FreshOk(st: Store, id: nat, p: Phase, node: bool)
    requires p.Down? || p.Waiting? || p.Standby?
    ensures WorkerOk(st, id, FRESH.(phase := p, node := node))
  {
    hide Exec, WF, Clean, SameOrders;
    forall s | !Blank(s)
      ensures BookOk(st, FRESH.(phase := p, node := node), s)
    {
      EmptyBookGood(s);
      AlikeIsEquivalence(EmptyBook(s), EmptyBook(s), EmptyBook(s));
    }
  }

  lemma SameBooks(st: Store, wk: Worker, wk': Worker)
    requires wk'.books == wk.books && wk'.seen == wk.seen
    requires (!wk.phase.Executed? && !wk'.phase.Executed?) || wk'.phase == wk.phase
    requires forall s :: !Blank(s) ==> BookOk(st, wk, s)
    ensures forall s :: !Blank(s) ==> BookOk(st, wk', s)
  {
    hide Good, Alike, ReplayTo, Exec;
    forall s | !Blank(s)
      ensures BookOk(st, wk', s)
    {
      assert BookOk(st, wk, s);
    }
  }

  lemma BooksSameLogs(st: Store, st': Store, wk: Worker)
    requires SameLogs(st, st') && forall s :: !Blank(s) ==> BookOk(st, wk, s)
    ensures forall s :: !Blank(s) ==> BookOk(st', wk, s)
  {
    hide Good, Alike, ReplayTo, Exec;
    forall s | !Blank(s)
      ensures BookOk(st', wk, s)
    {
      assert BookOk(st, wk, s);
    }
  }

  predicate PlainStep(ev: Event) {
    ev.Acquire? || ev.ListSymbols? || ev.CaughtUp? || ev.BeginConsuming? || ev.Confirm? || ev.Demote? || ev.Deliver?
    || ev.Dedup? || ev.Ack?
  }

  lemma ListedSymbols(st: Store, wk: Worker)
    requires StoreOk(st) && forall s :: !Blank(s) ==> BookOk(st, wk, s)
    ensures forall s :: !Blank(s) && s !in st.symbols ==> UpToDate(st, wk, s)
  {
    hide Good, Alike, ReplayTo, Exec, SoundLog, UniqueIds, IdsOf, SnapshotOk;
    forall s | !Blank(s) && s !in st.symbols
      ensures UpToDate(st, wk, s)
    {
      assert SymbolOk(st, s) && BookOk(st, wk, s);
    }
  }

  /** Starting the consumer records the positions; the other plain steps change nothing that was recorded. */
  lemma PlainConsumed(st: Store, id: nat, wk: Worker, ev: Event)
    requires WorkerOk(st, id, wk) && CanStep(st, id, wk, ev) && PlainStep(ev)
    ensures ConsumedOk(st, StepWorker(st, id, wk, ev))
  {
    hide Good, Alike, ReplayTo, Exec, MovedOn, Synced, Blank, Restore, Sane, SnapshotOf, PhaseOk;
    var wk' := StepWorker(st, id, wk, ev);
    if Consuming(wk'.phase) {
      forall s | !Blank(s)
        ensures SinceStart(st, wk', s)
      {
        assert BookOk(st, wk, s);
        assert !ev.BeginConsuming? ==> SinceStart(st, wk, s);
      }
    }
  }

  lemma PlainStepSynced(st: Store, id: nat, wk: Worker, ev: Event)
    requires StoreOk(st) && WorkerOk(st, id, wk) && CanStep(st, id, wk, ev) && PlainStep(ev)
    requires StepStore(st, id, wk, ev).lock == Some(id)
    ensures Synced(StepStore(st, id, wk, ev), StepWorker(st, id, wk, ev))
  {
    hide StoreOk, BookOk, PhaseOk, ConsumedOk, Blank, SinceStart, CleanCommand, Exec, Restore, Sane;
    ListedSymbols(st, wk);
    var st', wk' := StepStore(st, id, wk, ev), StepWorker(st, id, wk, ev);
    assert forall s :: UpToDate(st', wk', s) <==> UpToDate(st, wk, s);
  }

  /** Acquiring, giving up, waiting for the next command: only the phase changes. */
  lemma PlainStepOk(st: Store, id: nat, wk: Worker, ev: Event)
    requires StoreOk(st) && WorkerOk(st, id, wk) && CanStep(st, id, wk, ev) && PlainStep(ev)
    ensures WorkerOk(StepStore(st, id, wk, ev), id, StepWorker(st, id, wk, ev))
  {
    hide StoreOk, BookOk, Blank, Synced, ConsumedOk;
    var st', wk' := StepStore(st, id, wk, ev), StepWorker(st, id, wk, ev);
    SameBooks(st, wk, wk');
    BooksSameLogs(st, st', wk');
    PlainConsumed(st, id, wk, ev);
    ConsumedStays(st, st', wk');
    if st'.lock == Some(id) {
      PlainStepSynced(st, id, wk, ev);
    }
  }

  // ------------------------------------------------------- loading, replaying

  /** Changing the book of one symbol. */
  lemma OneBookChanges(st: Store, wk: Worker, wk': Worker, symbol: string)
    requires forall s :: !Blank(s) ==> BookOk(st, wk, s)
    requires forall s :: s != symbol ==> Seen(wk', s) == Seen(wk, s) && BookOf(wk', s) == BookOf(wk, s)
    requires wk.phase.Executed? ==> wk.phase.e.symbol == symbol
    requires wk'.phase.Executed? ==> wk'.phase.e.symbol == symbol
    requires BookOk(st, wk', symbol)
    ensures forall s :: !Blank(s) ==> BookOk(st, wk', s)
  {
    hide Good, Alike, ReplayTo, Exec;
    forall s | !Blank(s)
      ensures BookOk(st, wk', s)
    {
      assert BookOk(st, wk, s);
    }
  }

  /** What is loaded stands for the log up to the recorded position. */
  lemma LoadedBookOk(st: Store, id: nat, wk: Worker, symbol: string)
    requires SymbolOk(st, symbol) && BookOk(st, wk, symbol) && CanStep(st, id, wk, Load(id, symbol))
    ensures BookOk(st, StepWorker(st, id, wk, Load(id, symbol)), symbol)
  {
    hide Good, Alike, ReplayTo, Exec, SoundLog, UniqueIds, IdsOf, Restore, SnapshotOf, Sane;
  }

  lemma LoadOk(st: Store, id: nat, wk: Worker, symbol: string)
    requires StoreOk(st) && WorkerOk(st, id, wk) && CanStep(st, id, wk, Load(id, symbol))
    ensures WorkerOk(st, id, StepWorker(st, id, wk, Load(id, symbol)))
  {
    hide BookOk, SymbolOk, Exec, Restore, SnapshotOf, Sane, SinceStart;
    var wk' := StepWorker(st, id, wk, Load(id, symbol));
    assert BookOk(st, wk, symbol) && SymbolOk(st, symbol);
    LoadedBookOk(st, id, wk, symbol);
    LoadedPosition(st, id, wk, symbol);
    OneBookChanges(st, wk, wk', symbol);
    if st.lock == Some(id) {
      LoadSynced(st, wk, wk', symbol);
    }
  }

  lemma LoadedPosition(st: Store, id: nat, wk: Worker, symbol: string)
    requires SymbolOk(st, symbol) && CanStep(st, id, wk, Load(id, symbol))
    ensures Seen(StepWorker(st, id, wk, Load(id, symbol)), symbol) <= |LogOf(st, symbol)|
  {
    hide Good, Alike, ReplayTo, Exec, SoundLog, UniqueIds, IdsOf, Restore, SnapshotOf, Sane;
  }

  lemma LoadSynced(st: Store, wk: Worker, wk': Worker, symbol: string)
    requires Synced(st, wk) && Replaying(wk.phase) && wk'.phase == wk.phase
    requires Seen(wk, symbol) == 0 && Seen(wk', symbol) <= |LogOf(st, symbol)|
    requires forall s :: s != symbol ==> Seen(wk', s) == Seen(wk, s)
    ensures Synced(st, wk')
  {
    assert forall s :: s != symbol ==> (UpToDate(st, wk, s) <==> UpToDate(st, wk', s));
  }

  lemma ReplayOneOk(st: Store, id: nat, wk: Worker, symbol: string, clock: Clock)
    requires StoreOk(st) && WorkerOk(st, id, wk) && CanStep(st, id, wk, ReplayOne(id, symbol, clock))
    ensures WorkerOk(st, id, StepWorker(st, id, wk, ReplayOne(id, symbol, clock)))
  {
    hide Good, Alike, Exec, UniqueIds, IdsOf, SnapshotOk, Sane, Blank;
    var wk' := StepWorker(st, id, wk, ReplayOne(id, symbol, clock));
    ReplayedBookOk(st, wk, symbol, clock);
    OneBookChanges(st, wk, wk', symbol);
    if st.lock == Some(id) {
      ReplaySynced(st, wk, wk', symbol);
    }
  }

  lemma ReplaySynced(st: Store, wk: Worker, wk': Worker, symbol: string)
    requires Synced(st, wk) && Replaying(wk.phase) && wk'.phase == wk.phase
    requires Seen(wk, symbol) < |LogOf(st, symbol)|
    requires forall s :: s != symbol ==> Seen(wk', s) == Seen(wk, s)
    requires !Blank(symbol)
    ensures Synced(st, wk')
  {
    assert forall s :: s != symbol ==> (UpToDate(st, wk, s) <==> UpToDate(st, wk', s));
    assert !UpToDate(st, wk, symbol);
  }

  /** Replaying the next entry never fails, and brings the book to the replay of one entry more. */
  lemma ReplayedBookOk(st: Store, wk: Worker, symbol: string, clock: Clock)
    requires !Blank(symbol) && SymbolOk(st, symbol) && BookOk(st, wk, symbol) && !wk.phase.Executed?
    requires symbol in wk.seen && wk.seen[symbol] < |LogOf(st, symbol)|
    ensures Sane(BookOf(wk, symbol))
    ensures var n, b := wk.seen[symbol], BookOf(wk, symbol);
            var s := Exec(b, LogOf(st, symbol)[n].command, clock);
            && s.outcome.Ok?
            && BookOk(st, wk.(books := wk.books[symbol := s.book], seen := wk.seen[symbol := n + 1]), symbol)
  {
    hide Good, Alike, Exec, UniqueIds, IdsOf, SnapshotOk, Sane, Blank;
    var log, n := LogOf(st, symbol), wk.seen[symbol];
    assert Executable(symbol, log, n);
    ReplayGood(symbol, log, n);
    ExecBoth(BookOf(wk, symbol), ReplayTo(symbol, log, n), log[n].command, clock, Zero());
  }

  // ------------------------------------------------------ executing, logging

  lemma ExecutedFrom(b0: Book, b: Book, r: Request)
    requires Good(b) && CleanCommand(r.command) && Roomy(b, r.command) && (Alike(b, b0) || MovedOn(b0, b))
    ensures Sane(b)
    ensures if Next(b, r).outcome.Ok? then MovedOn(b0, Next(b, r).book) else Next(b, r).book == b
  {
    hide Good, Alike, MovedOn, Exec, Sane, Roomy, CleanCommand;
    GoodSane(b);
    NextKeepsGood(b, r);
    if Next(b, r).outcome.Ok? {
      SuccessMovesOn(b, r);
      MovedFrom(b0, b, Next(b, r).book);
    }
  }

  lemma ExecuteStep(st: Store, id: nat, wk: Worker, clock: Clock)
    requires CanStep(st, id, wk, Execute(id, clock))
    ensures wk.phase.Deduped? && Sane(BookOf(wk, wk.phase.e.symbol))
    ensures Roomy(BookOf(wk, wk.phase.e.symbol), wk.phase.e.command)
    ensures var e := wk.phase.e;
            var s := Exec(BookOf(wk, e.symbol), e.command, clock);
            StepWorker(st, id, wk, Execute(id, clock))
            == wk.(books := wk.books[e.symbol := s.book], phase := if s.outcome.Ok? then Executed(e) else Idle,
                   touched := if s.outcome.Ok? then wk.touched + {e.symbol} else wk.touched)
  {
    hide Exec, Sane, Restore, SnapshotOf;
  }

  /** A command that succeeds takes its symbol's book beyond the recorded position; one that fails changes nothing. */
  lemma ExecuteConsumed(st: Store, id: nat, wk: Worker, clock: Clock)
    requires StoreOk(st) && WorkerOk(st, id, wk) && CanStep(st, id, wk, Execute(id, clock))
    ensures ConsumedOk(st, StepWorker(st, id, wk, Execute(id, clock)))
  {
    hide Good, Alike, Exec, Sane, ReplayTo, MovedOn, StoreOk, Roomy, Synced, CanStep, StepWorker, Blank;
    ExecuteStep(st, id, wk, clock);
    var wk' := StepWorker(st, id, wk, Execute(id, clock));
    var e := wk.phase.e;
    assert BookOk(st, wk, e.symbol) && SinceStart(st, wk, e.symbol);
    ExecutedFrom(ReplayTo(e.symbol, LogOf(st, e.symbol), Recorded(wk, e.symbol)), BookOf(wk, e.symbol), Request(e.command, clock));
    forall s | !Blank(s)
      ensures SinceStart(st, wk', s)
    {
      assert SinceStart(st, wk, s);
    }
  }

  lemma ExecuteOk(st: Store, id: nat, wk: Worker, clock: Clock)
    requires StoreOk(st) && WorkerOk(st, id, wk) && CanStep(st, id, wk, Execute(id, clock))
    ensures WorkerOk(st, id, StepWorker(st, id, wk, Execute(id, clock)))
  {
    hide Good, Alike, Exec, SoundLog, UniqueIds, IdsOf, SnapshotOk, Sane, Blank, ReplayTo, ConsumedOk, Roomy;
    var wk' := StepWorker(st, id, wk, Execute(id, clock));
    var e := wk.phase.e;
    assert BookOk(st, wk, e.symbol) && SymbolOk(st, e.symbol);
    ReplayGood(e.symbol, LogOf(st, e.symbol), Seen(wk, e.symbol));
    ExecBoth(BookOf(wk, e.symbol), ReplayTo(e.symbol, LogOf(st, e.symbol), Seen(wk, e.symbol)), e.command, clock, Zero());
    OneBookChanges(st, wk, wk', e.symbol);
    ExecuteConsumed(st, id, wk, clock);
    if st.lock == Some(id) {
      assert forall s :: UpToDate(st, wk, s) <==> UpToDate(st, wk', s);
    }
  }

  /** The executed command can be logged: it is executable after everything logged so far. */
  lemma AppendExecutable(st: Store, wk: Worker)
    requires wk.phase.Executed? && WellFormed(wk.phase.e)
    requires BookOk(st, wk, wk.phase.e.symbol) && UpToDate(st, wk, wk.phase.e.symbol)
    ensures var e, log := wk.phase.e, LogOf(st, wk.phase.e.symbol);
            && Executable(e.symbol, log + [e], |log|)
            && Good(BookOf(wk, e.symbol))
            && Alike(BookOf(wk, e.symbol), ReplayTo(e.symbol, log + [e], |log| + 1))
  {
    hide Good, Alike, Exec;
    var e, log := wk.phase.e, LogOf(st, wk.phase.e.symbol);
    ReplayStable(e.symbol, log, [e], |log|);
  }

  lemma AppendStoreOk(st: Store, id: nat, wk: Worker)
    requires StoreOk(st) && WorkerOk(st, id, wk) && CanStep(st, id, wk, Append(id))
    ensures StoreOk(StepStore(st, id, wk, Append(id)))
  {
    hide Good, Alike, Exec, SoundLog, UniqueIds, IdsOf, SnapshotOk, ReplayTo;
    var e, st' := wk.phase.e, StepStore(st, id, wk, Append(id));
    var log := LogOf(st, e.symbol);
    assert BookOk(st, wk, e.symbol) && SymbolOk(st, e.symbol) && UpToDate(st, wk, e.symbol);
    AppendExecutable(st, wk);
    AppendedLog(e.symbol, log, e);
    forall s | !Blank(s)
      ensures SymbolOk(st', s)
    {
      assert SymbolOk(st, s);
      if s == e.symbol {
        if s in st.snapshots {
          SnapshotStaysOk(s, log, e, st.snapshots[s]);
        }
      } else {
        assert LogOf(st', s) == LogOf(st, s);
      }
    }
  }

  lemma AppendConsumed(st: Store, st': Store, wk: Worker, e: Envelope)
    requires ConsumedOk(st, wk)
    requires forall s :: LogOf(st', s) == LogOf(st, s) + (if s == e.symbol then [e] else [])
    ensures ConsumedOk(st', wk)
  {
    hide Blank, MovedOn, ReplayTo;
    forall s | Consuming(wk.phase) && !Blank(s)
      ensures SinceStart(st', wk, s)
    {
      assert SinceStart(st, wk, s);
      SinceStartStays(st, st', wk, s, if s == e.symbol then [e] else []);
    }
  }

  lemma AppendOthersOk(st: Store, id: nat, wk: Worker, other: nat, wo: Worker)
    requires WorkerOk(st, id, wk) && CanStep(st, id, wk, Append(id)) && other != id && WorkerOk(st, other, wo)
    ensures WorkerOk(StepStore(st, id, wk, Append(id)), other, wo)
  {
    hide Good, Alike, Exec, ReplayTo, Synced, ConsumedOk;
    var e, st' := wk.phase.e, StepStore(st, id, wk, Append(id));
    forall s | !Blank(s)
      ensures BookOk(st', wo, s)
    {
      assert BookOk(st, wo, s);
      assert LogOf(st', s) == LogOf(st, s) + (if s == e.symbol then [e] else []);
      BookStaysOk(st, st', wo, s, if s == e.symbol then [e] else []);
    }
    AppendConsumed(st, st', wo, e);
  }

  /** Logging moves a position that a successful command has already left behind. */
  lemma AppendOwnConsumed(st: Store, id: nat, wk: Worker)
    requires ConsumedOk(st, wk) && CanStep(st, id, wk, Append(id))
    ensures ConsumedOk(StepStore(st, id, wk, Append(id)), StepWorker(st, id, wk, Append(id)))
  {
    hide Blank, MovedOn, ReplayTo, Restore, Sane, SnapshotOf, Exec;
    var e := wk.phase.e;
    var st', wk' := StepStore(st, id, wk, Append(id)), StepWorker(st, id, wk, Append(id));
    AppendConsumed(st, st', wk, e);
    forall s | !Blank(s)
      ensures SinceStart(st', wk', s)
    {
      assert SinceStart(st', wk, s);
    }
  }

  lemma AppendOwnOk(st: Store, id: nat, wk: Worker)
    requires WorkerOk(st, id, wk) && CanStep(st, id, wk, Append(id))
    ensures WorkerOk(StepStore(st, id, wk, Append(id)), id, StepWorker(st, id, wk, Append(id)))
  {
    hide Good, Alike, Exec, ReplayTo, ConsumedOk;
    var e := wk.phase.e;
    var st', wk' := StepStore(st, id, wk, Append(id)), StepWorker(st, id, wk, Append(id));
    assert UpToDate(st, wk, e.symbol) && BookOk(st, wk, e.symbol);
    AppendExecutable(st, wk);
    AppendOwnConsumed(st, id, wk);
    forall s | !Blank(s)
      ensures BookOk(st', wk', s) && UpToDate(st', wk', s)
    {
      assert BookOk(st, wk, s) && UpToDate(st, wk, s);
      if s != e.symbol {
        assert LogOf(st', s) == LogOf(st, s);
      }
    }
  }

  /** The snapshot saved is the state after the prefix ending at the recorded id, even if other commands have been logged since. */
  lemma SaveStoreOk(st: Store, id: nat, wk: Worker)
    requires StoreOk(st) && WorkerOk(st, id, wk) && CanStep(st, id, wk, SaveSnapshot(id))
    ensures StoreOk(StepStore(st, id, wk, SaveSnapshot(id)))
  {
    hide Good, Alike, Exec, SoundLog, UniqueIds, IdsOf, SnapshotOk, ReplayTo;
    var e, st' := wk.phase.e, StepStore(st, id, wk, SaveSnapshot(id));
    assert BookOk(st, wk, e.symbol);
    SavedSnapshotOk(e.symbol, LogOf(st, e.symbol), wk.phase.id, BookOf(wk, e.symbol));
    forall s | !Blank(s)
      ensures SymbolOk(st', s)
    {
      assert SymbolOk(st, s);
    }
  }

  lemma SavedSnapshotOk(symbol: string, log: seq<Envelope>, k: nat, b: Book)
    requires k <= |log| && Good(b) && Alike(b, ReplayTo(symbol, log, k))
    ensures SnapshotOk(symbol, log, SnapshotOf(b, Some(k)))
  {
    hide Clean, Alike, ReplayTo, Restore, SideOk, StopsOk, Ids, StopIds;
    GoodSane(b);
    SnapshotRoundTrip(b, Some(k));
    TradesAside(b);
    GoodAside(b);
    AlikeIsEquivalence(b, b.(trades := []), b);
    AlikeIsEquivalence(b.(trades := []), b, ReplayTo(symbol, log, k));
  }

  lemma GoodAside(b: Book)
    requires Good(b)
    ensures Good(b.(trades := []))
  {
    hide SideOk, StopsOk, Ids, StopIds, LiveQueue;
  }

  // ------------------------------------------------------- an abandoned trial

  /** Without a successful command the recorded positions are those that the books reflect. */
  lemma AbandonOk(st: Store, id: nat, wk: Worker)
    requires WorkerOk(st, id, wk) && CanStep(st, id, wk, Abandon(id)) && wk.touched == {}
    ensures WorkerOk(st, id, StepWorker(st, id, wk, Abandon(id)))
  {
    hide Good, Alike, ReplayTo, Exec, MovedOn, Synced, Blank;
    var wk' := StepWorker(st, id, wk, Abandon(id));
    forall s | !Blank(s)
      ensures BookOk(st, wk', s)
    {
      assert BookOk(st, wk, s) && SinceStart(st, wk, s);
    }
  }

  /** A worker's book of a symbol is the replay of the log up to the worker's position. */
  predicate IsReplay(st: Store, wk: Worker, symbol: string) {
    var log, n := LogOf(st, symbol), Seen(wk, symbol);
    n <= |log| && Alike(BookOf(wk, symbol), ReplayTo(symbol, log, n))
  }

  /** The exact condition, symbol by symbol: when a node abandons its trial, the book of a symbol is the replay
      of its recorded prefix if and only if no command for the symbol has succeeded since the consumer started. */
  lemma AbandonKeepsReplayIff(s: State, w: nat, symbol: string)
    requires Inv(s) && Enabled(s, Abandon(w)) && !Blank(symbol)
    ensures var s' := Apply(s, Abandon(w));
            IsReplay(s'.store, s'.workers[w], symbol) <==> symbol !in s.workers[w].touched
  {
    hide Good, Alike, ReplayTo, Exec, MovedOn, StoreOk, Blank;
    var st, wk := s.store, s.workers[w];
    assert WorkerOk(st, w, wk);
    assert BookOk(st, wk, symbol) && SinceStart(st, wk, symbol);
    if symbol in wk.touched {
      MovedOnIsUnlike(ReplayTo(symbol, LogOf(st, symbol), Recorded(wk, symbol)), BookOf(wk, symbol));
    }
  }

  /** And for all symbols together. */
  lemma AbandonIsCleanIff(s: State, w: nat)
    requires Inv(s) && Enabled(s, Abandon(w))
    ensures var s' := Apply(s, Abandon(w));
            (forall symbol :: !Blank(symbol) ==> IsReplay(s'.store, s'.workers[w], symbol)) <==> s.workers[w].touched == {}
  {
    hide IsReplay, Apply, Blank, StoreOk, BookOk, PhaseOk, Synced, SinceStart;
    var touched := s.workers[w].touched;
    forall symbol | !Blank(symbol)
      ensures IsReplay(Apply(s, Abandon(w)).store, Apply(s, Abandon(w)).workers[w], symbol) <==> symbol !in touched
    {
      AbandonKeepsReplayIff(s, w, symbol);
    }
    assert WorkerOk(s.store, w, s.workers[w]);
  }

  // ------------------------------------------------------------------- safety

  lemma StepStoreOk(st: Store, id: nat, wk: Worker, ev: Event)
    requires StoreOk(st) && WorkerOk(st, id, wk) && !ev.Expire? && ev.w == id && CanStep(st, id, wk, ev)
    ensures StoreOk(StepStore(st, id, wk, ev))
  {
    hide BookOk, Synced, SymbolOk, Blank;
    if ev.Append? {
      AppendStoreOk(st, id, wk);
    } else if ev.SaveSnapshot? {
      SaveStoreOk(st, id, wk);
    } else if ev.Ack? || (ev.Dedup? && wk.phase.e.commandId in ProcessedOf(st, wk.phase.e.symbol)) {
      ReportedOk(st, wk.phase.e);
    } else {
      StoreStaysOk(st, StepStore(st, id, wk, ev));
    }
  }

  lemma StepOwnOk(st: Store, id: nat, wk: Worker, ev: Event)
    requires StoreOk(st) && WorkerOk(st, id, wk) && !ev.Expire? && ev.w == id && CanStep(st, id, wk, ev)
    requires ev.Abandon? ==> wk.touched == {}
    ensures WorkerOk(StepStore(st, id, wk, ev), id, StepWorker(st, id, wk, ev))
  {
    hide BookOk, Synced, SymbolOk, Blank, StoreOk, WorkerOk, CanStep;
    match ev
    case Start(_, node) => FreshOk(st, id, if node then Standby else Waiting, node);
    case Crash(_) => FreshOk(st, id, Down, false);
    case Exit(_) => FreshOk(StepStore(st, id, wk, ev), id, Down, false);
    case Reset(_) => FreshOk(st, id, Standby, true);
    case Abandon(_) => AbandonOk(st, id, wk);
    case Load(_, symbol) => LoadOk(st, id, wk, symbol);
    case ReplayOne(_, symbol, clock) => ReplayOneOk(st, id, wk, symbol, clock);
    case Execute(_, clock) => ExecuteOk(st, id, wk, clock);
    case Append(_) => AppendOwnOk(st, id, wk);
    case SaveSnapshot(_) => SaveOwnOk(st, id, wk);
    case _ => PlainStepOk(st, id, wk, ev);
  }

  lemma SavedConsumed(st: Store, id: nat, wk: Worker)
    requires ConsumedOk(st, wk) && CanStep(st, id, wk, SaveSnapshot(id))
    ensures ConsumedOk(st, StepWorker(st, id, wk, SaveSnapshot(id)))
  {
    hide Blank, MovedOn, ReplayTo;
    var wk' := StepWorker(st, id, wk, SaveSnapshot(id));
    assert forall s :: SinceStart(st, wk, s) <==> SinceStart(st, wk', s);
  }

  lemma SaveOwnOk(st: Store, id: nat, wk: Worker)
    requires WorkerOk(st, id, wk) && CanStep(st, id, wk, SaveSnapshot(id))
    ensures WorkerOk(StepStore(st, id, wk, SaveSnapshot(id)), id, StepWorker(st, id, wk, SaveSnapshot(id)))
  {
    hide Blank, BookOk, ConsumedOk;
    var st', wk' := StepStore(st, id, wk, SaveSnapshot(id)), StepWorker(st, id, wk, SaveSnapshot(id));
    SameBooks(st, wk, wk');
    BooksSameLogs(st, st', wk');
    SavedConsumed(st, id, wk);
    ConsumedStays(st, st', wk');
    assert forall s :: UpToDate(st', wk', s) <==> UpToDate(st, wk, s);
  }

  lemma StepOthersOk(st: Store, id: nat, wk: Worker, ev: Event, other: nat, wo: Worker)
    requires WorkerOk(st, id, wk) && CanStep(st, id, wk, ev) && other != id && WorkerOk(st, other, wo)
    ensures WorkerOk(StepStore(st, id, wk, ev), other, wo)
  {
    hide WorkerOk, Blank;
    if ev.Append? {
      AppendOthersOk(st, id, wk, other, wo);
    } else {
      WorkerStaysOk(st, StepStore(st, id, wk, ev), other, wo);
    }
  }

  lemma ExpireOk(s: State)
    requires Inv(s)
    ensures Inv(Apply(s, Expire))
  {
    hide StoreOk, WorkerOk;
    var st' := s.store.(lock := None);
    StoreStaysOk(s.store, st');
    forall i | 0 <= i < |s.workers|
      ensures WorkerOk(st', i, s.workers[i])
    {
      WorkerStaysOk(s.store, st', i, s.workers[i]);
    }
  }

  /** Every step of every worker keeps the invariant, but for abandoning a trial in which a command succeeded. */
  lemma StepKeepsInv(s: State, ev: Event)
    requires Inv(s) && Enabled(s, ev) && CleanStep(s, ev)
    ensures Inv(Apply(s, ev))
  {
    hide StoreOk, WorkerOk, CanStep, StepStore, StepWorker;
    if ev.Expire? {
      ExpireOk(s);
    } else {
      var wk, s' := s.workers[ev.w], Apply(s, ev);
      StepStoreOk(s.store, ev.w, wk, ev);
      StepOwnOk(s.store, ev.w, wk, ev);
      forall i | 0 <= i < |s.workers|
        ensures WorkerOk(s'.store, i, s'.workers[i])
      {
        if i != ev.w {
          StepOthersOk(s.store, ev.w, wk, ev, i, s.workers[i]);
        }
      }
    }
  }

  lemma InitialInv(s: State)
    requires Initial(s)
    ensures Inv(s)
  {
    forall symbol | !Blank(symbol)
      ensures SymbolOk(s.store, symbol)
    {
    }
    forall i | 0 <= i < |s.workers|
      ensures WorkerOk(s.store, i, s.workers[i])
    {
      FreshOk(s.store, i, Down, false);
    }
  }

  lemma {:induction false} RunKeepsInv(s: State, evs: seq<Event>)
    requires Inv(s) && EnabledRun(s, evs) && CleanRun(s, evs)
    ensures Inv(ApplyAll(s, evs))
    decreases |evs|
  {
    hide Inv, Apply, Enabled;
    if evs != [] {
      StepKeepsInv(s, evs[0]);
      RunKeepsInv(Apply(s, evs[0]), evs[1..]);
    }
  }

  predicate ListsSymbols(st: Store) {
    forall s :: s in st.symbols ==> !Blank(s) && !NodeBlank(s)
  }

  /** Only logging lists a symbol, and what is logged was well formed. */
  lemma StepLists(s: State, ev: Event)
    requires Inv(s) && Enabled(s, ev) && ListsSymbols(s.store)
    ensures ListsSymbols(Apply(s, ev).store)
  {
    hide StoreOk, BookOk, Synced, ConsumedOk, Blank, NodeBlank, Restore, SnapshotOf, Exec, Sane, Roomy;
    assert !ev.Expire? ==> WorkerOk(s.store, ev.w, s.workers[ev.w]);
  }

  lemma {:induction false} RunLists(s: State, evs: seq<Event>)
    requires Inv(s) && EnabledRun(s, evs) && CleanRun(s, evs) && ListsSymbols(s.store)
    ensures ListsSymbols(ApplyAll(s, evs).store)
    decreases |evs|
  {
    hide Inv, Apply, Enabled, ListsSymbols;
    if evs != [] {
      StepKeepsInv(s, evs[0]);
      StepLists(s, evs[0]);
      RunLists(Apply(s, evs[0]), evs[1..]);
    }
  }

  /** Failover safety: after any clean run of any number of workers, a worker that is
      consuming, holds the lock and is not between executing and logging a
      command has, for every symbol, the book that replaying the whole log gives. */
  lemma FailoverIsSafe(s: State, evs: seq<Event>, i: nat, symbol: string)
    requires Initial(s) && EnabledRun(s, evs) && CleanRun(s, evs) && !Blank(symbol)
    requires i < |ApplyAll(s, evs).workers|
    requires var s' := ApplyAll(s, evs);
             && s'.store.lock == Some(i)
             && Consuming(s'.workers[i].phase) && !s'.workers[i].phase.Executed?
    ensures var s' := ApplyAll(s, evs);
            var log := LogOf(s'.store, symbol);
            Good(BookOf(s'.workers[i], symbol))
            && Alike(BookOf(s'.workers[i], symbol), ReplayTo(symbol, log, |log|))
  {
    hide Good, Alike, ReplayTo, Exec, StoreOk, Apply, Enabled, ApplyAll;
    InitialInv(s);
    RunKeepsInv(s, evs);
    var s' := ApplyAll(s, evs);
    assert WorkerOk(s'.store, i, s'.workers[i]);
    assert BookOk(s'.store, s'.workers[i], symbol) && UpToDate(s'.store, s'.workers[i], symbol);
  }

  /** Crash consistency with exactly-once effect: after any clean run no command id
      is in a symbol's log twice, the processed ids are those of the log, every
      command reported as processed is in the log, the saved snapshot is the
      state after the log prefix ending at its recorded id, and every entry of
      the log executes successfully on the replay of those before it. */
  lemma CrashesAreConsistent(s: State, evs: seq<Event>, symbol: string)
    requires Initial(s) && EnabledRun(s, evs) && CleanRun(s, evs) && !Blank(symbol)
    ensures var st := ApplyAll(s, evs).store;
            var log := LogOf(st, symbol);
            && UniqueIds(log)
            && ProcessedOf(st, symbol) == IdsOf(log)
            && (forall id :: (symbol, id) in st.reported ==> id in IdsOf(log))
            && (symbol in st.snapshots ==> SnapshotOk(symbol, log, st.snapshots[symbol]))
            && SoundLog(symbol, log)
  {
    hide UniqueIds, IdsOf, SnapshotOk, SoundLog, Apply, Enabled, ApplyAll;
    InitialInv(s);
    RunKeepsInv(s, evs);
    assert SymbolOk(ApplyAll(s, evs).store, symbol);
  }

  /** Recovery never hits a failing command and never meets a snapshot it
      cannot restore: after any clean run, whatever a worker loads or replays next succeeds. */
  lemma RecoveryNeverFails(s: State, evs: seq<Event>, i: nat, symbol: string, clock: Clock)
    requires Initial(s) && EnabledRun(s, evs) && CleanRun(s, evs) && !Blank(symbol)
    requires i < |ApplyAll(s, evs).workers|
    ensures var s' := ApplyAll(s, evs);
            && (HasSnapshot(s'.store, symbol) ==> Restore(s'.store.snapshots[symbol]).Ok?)
            && var wk := s'.workers[i];
               (Replaying(wk.phase) && symbol in wk.seen && wk.seen[symbol] < |LogOf(s'.store, symbol)| ==>
                  && Sane(BookOf(wk, symbol))
                  && Exec(BookOf(wk, symbol), LogOf(s'.store, symbol)[wk.seen[symbol]].command, clock).outcome.Ok?)
  {
    hide Good, Alike, ReplayTo, Exec, Apply, Enabled, ApplyAll, SoundLog, UniqueIds, IdsOf, Restore, Sane;
    InitialInv(s);
    RunKeepsInv(s, evs);
    var s' := ApplyAll(s, evs);
    assert SymbolOk(s'.store, symbol);
    var wk := s'.workers[i];
    assert WorkerOk(s'.store, i, wk) && BookOk(s'.store, wk, symbol);
    if Replaying(wk.phase) && symbol in wk.seen && wk.seen[symbol] < |LogOf(s'.store, symbol)| {
      ReplayedBookOk(s'.store, wk, symbol, clock);
    }
  }

  /** The standby prefix invariant: after any clean run every worker that is not
      between executing and logging has, for each symbol, the book that
      replaying the log up to its recorded position gives. */
  lemma ReplicaIsPrefix(s: State, evs: seq<Event>, i: nat, symbol: string)
    requires Initial(s) && EnabledRun(s, evs) && CleanRun(s, evs) && !Blank(symbol)
    requires i < |ApplyAll(s, evs).workers| && !ApplyAll(s, evs).workers[i].phase.Executed?
    ensures var s' := ApplyAll(s, evs);
            var n := Seen(s'.workers[i], symbol);
            && n <= |LogOf(s'.store, symbol)|
            && Alike(BookOf(s'.workers[i], symbol), ReplayTo(symbol, LogOf(s'.store, symbol), n))
  {
    hide Good, Alike, ReplayTo, Exec, Apply, Enabled, ApplyAll, StoreOk;
    InitialInv(s);
    RunKeepsInv(s, evs);
    var s' := ApplyAll(s, evs);
    assert WorkerOk(s'.store, i, s'.workers[i]) && BookOk(s'.store, s'.workers[i], symbol);
  }

  predicate DropsMemory(ev: Event) {
    ev.Start? || ev.Crash? || ev.Exit? || ev.Reset?
  }

  lemma OwnPosition(st: Store, id: nat, wk: Worker, ev: Event, symbol: string)
    requires CanStep(st, id, wk, ev) && !Blank(symbol) && WorkerOk(st, id, wk)
    requires !DropsMemory(ev) && (ev.Abandon? ==> wk.touched == {})
    ensures Seen(wk, symbol) <= Seen(StepWorker(st, id, wk, ev), symbol)
  {
    hide Good, Alike, ReplayTo, Exec, Restore, SnapshotOf, Sane, MovedOn, Synced, Roomy, PhaseOk, Blank;
    assert BookOk(st, wk, symbol);
    assert ev.Abandon? ==> SinceStart(st, wk, symbol);
  }

  lemma LogsGrow(st: Store, id: nat, wk: Worker, ev: Event, symbol: string)
    requires CanStep(st, id, wk, ev)
    ensures LogOf(st, symbol) <= LogOf(StepStore(st, id, wk, ev), symbol)
  {
    hide Exec, Restore, SnapshotOf, Sane, Roomy;
  }

  /** A position never moves back unless the worker drops its memory. */
  lemma PositionsAdvance(s: State, ev: Event, i: nat, symbol: string)
    requires Inv(s) && Enabled(s, ev) && CleanStep(s, ev) && i < |s.workers| && !Blank(symbol)
    requires ev.Expire? || ev.w != i || !DropsMemory(ev)
    ensures var s' := Apply(s, ev);
            && Seen(s.workers[i], symbol) <= Seen(s'.workers[i], symbol)
            && LogOf(s.store, symbol) <= LogOf(s'.store, symbol)
  {
    hide CanStep, StepWorker, StepStore, StoreOk, WorkerOk, Blank;
    if !ev.Expire? {
      var wk := s.workers[ev.w];
      LogsGrow(s.store, ev.w, wk, ev, symbol);
      if ev.w == i {
        OwnPosition(s.store, i, wk, ev, symbol);
      }
    }
  }
}
