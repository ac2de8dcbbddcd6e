/** Recovery of a Go worker: each symbol of its partition from snapshot and log
    into the registry, on the heap, and that this is a run of the protocol's
    state machine. */
module Restart {
  import opened Types
  import opened BookSpec
  import opened Invariant
  import opened Runs
  import opened Recovery
  import opened Failover
  import opened FailoverSafety
  import opened Independence
  import opened Partition
  import opened Standby
  import opened GoBook
  import opened GoRecovery
  import opened GoRegistry
  import opened Processor

  lemma HousedThere(b: EngineBook, f: set<object>, symbol: string, v: Book)
    requires b.Valid() && b.State() == v && v.symbol == symbol && f == {b, b.bids, b.asks} + b.Footprint()
    ensures Housed(b, f, symbol) && Value(b, f, symbol) == v
  {
    hide EngineBook.Valid, EngineBook.Footprint, WF;
  }

  lemma RestoredSymbol(s: Snapshot)
    requires Restore(s).Ok?
    ensures Restore(s).value.symbol == s.symbol && !Blank(s.symbol)
  {
  }

  /** A snapshot as its own book gives it, of a good book. */
  predicate Restorable(s: Snapshot) {
    Restore(s).Ok? && Good(Restore(s).value) && s == SnapshotOf(Restore(s).value, s.lastCommandId)
  }

  /** A restored book, in a new region of the heap. */
  method RestoreBook(snapshot: Snapshot) returns (book: EngineBook, ghost f: set<object>)
    requires Restorable(snapshot)
    ensures Housed(book, f, snapshot.symbol) && Value(book, f, snapshot.symbol) == Restore(snapshot).value
    ensures forall x :: x in f ==> fresh(x)
  {
    hide Restore, SnapshotOf, Sound, Housed, Value, EngineBook.Valid, EngineBook.State, WF, EngineBook.Members;
    RestoredSymbol(snapshot);
    SavedIsSound(Restore(snapshot).value, snapshot.lastCommandId);
    var r := FromRecoverySnapshot(snapshot);
    book := r.value;
    f := {book, book.bids, book.asks} + book.Footprint();
    HousedThere(book, f, snapshot.symbol, Restore(snapshot).value);
  }

  /** Take a restored book into the registry. */
  method Load(r: Registry, snapshot: Snapshot)
    requires r.Valid() && Restorable(snapshot)
    modifies r
    ensures r.Valid() && r.View() == old(r.View())[snapshot.symbol := Restore(snapshot).value]
    ensures forall x :: x in r.Repr() ==> x in old(r.Repr()) || fresh(x)
  {
    hide Registry.Valid, Registry.View, Registry.Repr, Restorable, Restore, Housed, Value;
    ghost var repr := r.Repr();
    var book, f := RestoreBook(snapshot);
    r.Untouched(repr);
    r.RegionsApart(f);
    HousedSymbol(book, f, snapshot.symbol);
    var ok := r.Set(snapshot.symbol, book, f);
  }

  lemma HousedSymbol(b: EngineBook, f: set<object>, symbol: string)
    requires Housed(b, f, symbol)
    ensures b.symbol == symbol
  {
  }

  lemma SavedIsRestorable(st: Store, symbol: string)
    requires Source(st) && symbol in st.symbols && HasSnapshot(st, symbol)
    ensures var s := st.snapshots[symbol];
            && Restorable(s) && s.symbol == symbol && s.lastCommandId.Some? && s.lastCommandId.value <= |LogOf(st, symbol)|
            && Follows(symbol, LogOf(st, symbol), s.lastCommandId.value, Restore(s).value)
  {
    hide Good, ReplayTo, SoundLog;
    var s := st.snapshots[symbol];
    ReplaySymbol(symbol, LogOf(st, symbol), s.lastCommandId.value);
  }

  /** One logged command: it succeeds, and only the book of its symbol changes. */
  lemma ReplayedIn(m: Books, symbol: string, log: seq<Envelope>, n: nat, clock: Clock)
    requires AllSane(m) && !Blank(symbol) && SoundLog(symbol, log) && n < |log|
    requires Follows(symbol, log, n, BookIn(m, symbol))
    ensures var (m', outcome) := ExecuteIn(m, Ask(symbol, Request(log[n].command, clock)));
            outcome.Ok? && m' - {symbol} == m - {symbol} && Follows(symbol, log, n + 1, BookIn(m', symbol))
  {
    hide SoundLog, Follows, Next, Sane;
    FollowsOneMore(symbol, log, n, BookIn(m, symbol), clock);
  }

  // ---------------------------------------------------- recovery as a function

  /** The books after the rest of a log has been replayed, entry `n` at the time `clocks(n)`. */
  function ReplayIn(m: Books, symbol: string, log: seq<Envelope>, n: nat, clocks: nat -> Clock): (m': Books)
    requires AllSane(m) && n <= |log|
    ensures AllSane(m')
    decreases |log| - n
  {
    if n == |log| then m
    else ReplayIn(ExecuteIn(m, Ask(symbol, Request(log[n].command, clocks(n)))).0, symbol, log, n + 1, clocks)
  }

  /** Where the replay of a symbol starts, and from which books. */
  function StartOf(st: Store, symbol: string): nat {
    if HasSnapshot(st, symbol) then st.snapshots[symbol].lastCommandId.value else 0
  }

  ghost function LoadIn(m: Books, st: Store, symbol: string): (m': Books)
    requires AllSane(m) && Source(st) && symbol in st.symbols
    ensures AllSane(m') && StartOf(st, symbol) <= |LogOf(st, symbol)|
  {
    if HasSnapshot(st, symbol) then m[symbol := Restore(st.snapshots[symbol]).value] else m
  }

  /** The books after a symbol has been recovered. */
  ghost function RecoverIn(m: Books, st: Store, symbol: string, clocks: nat -> Clock): (m': Books)
    requires AllSane(m) && Source(st) && symbol in st.symbols
    ensures AllSane(m')
  {
    ReplayIn(LoadIn(m, st, symbol), symbol, LogOf(st, symbol), StartOf(st, symbol), clocks)
  }

  predicate Mine(symbol: string, partitionId: int, partitionCount: int) {
    PartitionOf(Utf16(symbol), partitionCount) == Ok(partitionId)
  }

  /** The books after all of these symbols have been recovered, but for those of other partitions. */
  ghost function RecoverAll(m: Books, st: Store, listed: seq<string>, partitionId: int, partitionCount: int,
                            clocks: nat -> Clock): (m': Books)
    requires AllSane(m) && Source(st) && forall s :: s in listed ==> s in st.symbols
    ensures AllSane(m')
    decreases |listed|
  {
    if listed == [] then m
    else
      var m' := if Mine(listed[0], partitionId, partitionCount) then RecoverIn(m, st, listed[0], clocks) else m;
      RecoverAll(m', st, listed[1..], partitionId, partitionCount, clocks)
  }

  // ------------------------------------------------------- recovery on the heap

  /** The registry follows a symbol's log up to a position, and has grown by new objects at most. */
  ghost predicate Replayed(r: Registry, symbol: string, log: seq<Envelope>, n: nat, others: Books)
    reads r, r.Repr()
  {
    r.Valid() && Follows(symbol, log, n, BookIn(r.View(), symbol)) && r.View() - {symbol} == others
  }

  /** Execute one logged command; the worker stops at a command that fails, but none does. */
  method ReplayEntry(r: Registry, symbol: string, log: seq<Envelope>, n: nat, clock: Clock, ghost others: Books)
    requires !Blank(symbol) && SoundLog(symbol, log) && n < |log| && Replayed(r, symbol, log, n, others)
    modifies r, r.Repr()
    ensures Replayed(r, symbol, log, n + 1, others)
    ensures AllSane(old(r.View())) && r.View() == ExecuteIn(old(r.View()), Ask(symbol, Request(log[n].command, clock))).0
    ensures forall x :: x in r.Repr() ==> x in old(r.Repr()) || fresh(x)
  {
    hide Registry.Valid, Registry.View, Registry.Repr, SoundLog, Follows, ExecuteIn, AllSane, BookIn;
    r.ViewIsSane();
    ReplayedIn(r.View(), symbol, log, n, clock);
    var outcome := r.Execute(symbol, Request(log[n].command, clock));
    assert outcome.Ok?;
  }

  /** The snapshot of a symbol, if there is one. */
  method LoadSymbol(r: Registry, store: StoreClient, symbol: string) returns (last: nat)
    requires r.Valid() && store !in r.Repr() && symbol !in r.books
    requires Source(store.state) && symbol in store.state.symbols
    modifies r
    ensures last == StartOf(store.state, symbol) <= |LogOf(store.state, symbol)|
    ensures Replayed(r, symbol, LogOf(store.state, symbol), last, old(r.View()) - {symbol})
    ensures AllSane(old(r.View())) && r.View() == LoadIn(old(r.View()), store.state, symbol)
    ensures forall x :: x in r.Repr() ==> x in old(r.Repr()) || fresh(x)
  {
    hide Registry.Valid, Registry.View, Registry.Repr, SoundLog, Follows, Restore, Restorable, ReplayTo, SnapshotOk;
    var st := store.state;
    r.ViewIsSane();
    last := 0;
    EmptyFollows(symbol, LogOf(st, symbol));
    if HasSnapshot(st, symbol) {
      SavedIsRestorable(st, symbol);
      Load(r, st.snapshots[symbol]);
      last := st.snapshots[symbol].lastCommandId.value;
    }
  }

  /** Rebuild a symbol from its snapshot and the log after it, or from the whole log. */
  method RecoverSymbol(r: Registry, store: StoreClient, symbol: string, clocks: nat -> Clock) returns (last: nat)
    requires r.Valid() && store !in r.Repr() && symbol !in r.books
    requires Source(store.state) && symbol in store.state.symbols
    modifies r, r.Repr()
    ensures last == |LogOf(store.state, symbol)|
    ensures Replayed(r, symbol, LogOf(store.state, symbol), last, old(r.View()) - {symbol})
    ensures AllSane(old(r.View())) && r.View() == RecoverIn(old(r.View()), store.state, symbol, clocks)
    ensures forall x :: x in r.Repr() ==> x in old(r.Repr()) || fresh(x)
  {
    hide Registry.Valid, Registry.View, Registry.Repr, SoundLog, Follows, LoadIn, SnapshotOk, ExecuteIn, AllSane, BookIn;
    var log := LogOf(store.state, symbol);
    r.ViewIsSane();
    ghost var others := r.View() - {symbol};
    ghost var all := RecoverIn(r.View(), store.state, symbol, clocks);
    last := LoadSymbol(r, store, symbol);
    while last < |log|
      invariant last <= |log| && Replayed(r, symbol, log, last, others)
      invariant AllSane(r.View()) && all == ReplayIn(r.View(), symbol, log, last, clocks)
      invariant forall x :: x in r.Repr() ==> x in old(r.Repr()) || fresh(x)
    {
      ReplayEntry(r, symbol, log, last, clocks(last), others);
      last := last + 1;
    }
  }

  /** Recovery before consuming: every listed symbol of the partition has the book that replaying its whole
      log gives, and there are no other books. */
  method RecoverPartition(r: Registry, store: StoreClient, listed: seq<string>, partitionId: int, partitionCount: int,
                          clocks: nat -> Clock)
    requires r.Valid() && r.View() == map[] && store !in r.Repr() && Source(store.state)
    requires forall s :: s in listed <==> s in store.state.symbols
    requires forall i, j :: 0 <= i < j < |listed| ==> listed[i] != listed[j]
    modifies r, r.Repr()
    ensures r.Valid() && r.View() == RecoverAll(map[], store.state, listed, partitionId, partitionCount, clocks)
    ensures forall s :: s in r.View() ==> s in store.state.symbols && Mine(s, partitionId, partitionCount)
    ensures forall s :: s in store.state.symbols && Mine(s, partitionId, partitionCount) ==>
              Follows(s, LogOf(store.state, s), |LogOf(store.state, s)|, BookIn(r.View(), s))
  {
    hide Registry.Valid, Registry.View, Registry.Repr, Source, Follows, PartitionOf, Utf16, Mine, BookIn;
    ghost var all := RecoverAll(map[], store.state, listed, partitionId, partitionCount, clocks);
    assert listed[0..] == listed;
    for i := 0 to |listed|
      invariant r.Valid() && store.state == old(store.state) && AllSane(r.View())
      invariant all == RecoverAll(r.View(), store.state, listed[i..], partitionId, partitionCount, clocks)
      invariant forall x :: x in r.Repr() ==> x in old(r.Repr()) || fresh(x)
      invariant forall s :: s in r.View() ==> s in listed[..i] && Mine(s, partitionId, partitionCount)
      invariant forall s :: s in listed[..i] && Mine(s, partitionId, partitionCount) ==>
                  Follows(s, LogOf(store.state, s), |LogOf(store.state, s)|, BookIn(r.View(), s))
    {
      assert listed[i..][1..] == listed[i + 1..];
      if Mine(listed[i], partitionId, partitionCount) {
        assert listed[i] !in listed[..i];
        ghost var before := r.View();
        var _ := RecoverSymbol(r, store, listed[i], clocks);
        OthersKept(before, r.View(), listed[i]);
      }
    }
    assert listed[..|listed|] == listed;
  }

  // ---------------------------------------------------------- the state machine

  function ReplaySteps(w: nat, symbol: string, n: nat, end: nat, clocks: nat -> Clock): seq<Event>
    decreases end - n
  {
    if n >= end then [] else [ReplayOne(w, symbol, clocks(n))] + ReplaySteps(w, symbol, n + 1, end, clocks)
  }

  /** The rest of a log is replayed without a failing command. */
  lemma {:induction false} ReplayRun(s: State, w: nat, wk: Worker, st: Store, symbol: string, n: nat, clocks: nat -> Clock)
    requires Has(s, w, wk, st) && wk.phase.Recovering? && AllSane(wk.books) && Source(st) && symbol in st.symbols
    requires n <= |LogOf(st, symbol)| && symbol in wk.seen && wk.seen[symbol] == n
    requires Follows(symbol, LogOf(st, symbol), n, BookOf(wk, symbol))
    ensures var log := LogOf(st, symbol);
            var evs := ReplaySteps(w, symbol, n, |log|, clocks);
            && EnabledRun(s, evs)
            && Has(ApplyAll(s, evs), w,
                   wk.(books := ReplayIn(wk.books, symbol, log, n, clocks), seen := wk.seen[symbol := |log|]), st)
    decreases |LogOf(st, symbol)| - n
  {
    hide Apply, Enabled, Exec, Sane, SoundLog, SnapshotOk, AllSane, Follows;
    var log := LogOf(st, symbol);
    if n < |log| {
      var ev := ReplayOne(w, symbol, clocks(n));
      FollowsOneMore(symbol, log, n, BookOf(wk, symbol), clocks(n));
      StepAt(s, w, wk, st, ev, ReplaySteps(w, symbol, n + 1, |log|, clocks));
      var m := ExecuteIn(wk.books, Ask(symbol, Request(log[n].command, clocks(n)))).0;
      var wk' := wk.(books := m, seen := wk.seen[symbol := n + 1]);
      assert StepWorker(st, w, wk, ev) == wk';
      ReplayRun(Apply(s, ev), w, wk', st, symbol, n + 1, clocks);
      assert wk'.seen[symbol := |log|] == wk.seen[symbol := |log|];
    } else {
      assert wk.seen[symbol := n] == wk.seen;
    }
  }

  /** Load, replay, and see that the end of the log is reached. */
  function SymbolSteps(st: Store, w: nat, symbol: string, clocks: nat -> Clock): seq<Event> {
    [Event.Load(w, symbol)]
    + (ReplaySteps(w, symbol, StartOf(st, symbol), |LogOf(st, symbol)|, clocks) + ([CaughtUp(w, symbol)] + []))
  }

  lemma SymbolLoads(m: Books, st: Store, symbol: string)
    requires AllSane(m) && Source(st) && symbol in st.symbols && symbol !in m
    ensures !Blank(symbol) && (HasSnapshot(st, symbol) ==> Restore(st.snapshots[symbol]).Ok?)
    ensures Follows(symbol, LogOf(st, symbol), StartOf(st, symbol), BookIn(LoadIn(m, st, symbol), symbol))
  {
    hide Restore, Follows, SoundLog;
    EmptyFollows(symbol, LogOf(st, symbol));
    if HasSnapshot(st, symbol) {
      SavedIsRestorable(st, symbol);
    }
  }

  /** A run of one step. */
  lemma OneStep(s: State, w: nat, wk: Worker, st: Store, ev: Event)
    requires Has(s, w, wk, st) && !ev.Expire? && ev.w == w && CanStep(st, w, wk, ev)
    ensures EnabledRun(s, [ev] + [])
    ensures Has(ApplyAll(s, [ev] + []), w, StepWorker(st, w, wk, ev), StepStore(st, w, wk, ev))
  {
    StepAt(s, w, wk, st, ev, []);
  }

  lemma Loading(st: Store, w: nat, wk: Worker, symbol: string)
    requires wk.phase.Recovering? && AllSane(wk.books) && Source(st) && symbol in st.symbols
    requires symbol !in wk.seen && symbol !in wk.books
    ensures CanStep(st, w, wk, Event.Load(w, symbol)) && StepStore(st, w, wk, Event.Load(w, symbol)) == st
    ensures StepWorker(st, w, wk, Event.Load(w, symbol))
            == wk.(books := LoadIn(wk.books, st, symbol), seen := wk.seen[symbol := StartOf(st, symbol)])
    ensures Follows(symbol, LogOf(st, symbol), StartOf(st, symbol), BookIn(LoadIn(wk.books, st, symbol), symbol))
  {
    hide Follows, Restore, Source, AllSane, Blank;
    SymbolLoads(wk.books, st, symbol);
  }

  lemma CatchingUp(st: Store, w: nat, wk: Worker, symbol: string)
    requires wk.phase.Recovering? && symbol in wk.seen && wk.seen[symbol] == |LogOf(st, symbol)|
    ensures CanStep(st, w, wk, CaughtUp(w, symbol)) && StepStore(st, w, wk, CaughtUp(w, symbol)) == st
    ensures StepWorker(st, w, wk, CaughtUp(w, symbol)) == wk.(phase := Recovering(wk.phase.todo - {symbol}))
  {
  }

  lemma SymbolRun(s: State, w: nat, wk: Worker, st: Store, symbol: string, clocks: nat -> Clock)
    requires Has(s, w, wk, st) && wk.phase.Recovering? && AllSane(wk.books) && Source(st) && symbol in st.symbols
    requires symbol !in wk.seen && symbol !in wk.books
    ensures var evs := SymbolSteps(st, w, symbol, clocks);
            && EnabledRun(s, evs)
            && Has(ApplyAll(s, evs), w,
                   wk.(phase := Recovering(wk.phase.todo - {symbol}), books := RecoverIn(wk.books, st, symbol, clocks),
                       seen := wk.seen[symbol := |LogOf(st, symbol)|]), st)
  {
    hide Apply, Enabled, Source, AllSane, Follows, ReplayIn, LoadIn, EnabledRun, ApplyAll, ReplaySteps, CanStep, StepWorker, StepStore;
    var log, start, end := LogOf(st, symbol), StartOf(st, symbol), [CaughtUp(w, symbol)] + [];
    var replays := ReplaySteps(w, symbol, start, |log|, clocks);
    Loading(st, w, wk, symbol);
    var m := LoadIn(wk.books, st, symbol);
    var wk1 := wk.(books := m, seen := wk.seen[symbol := start]);
    StepAt(s, w, wk, st, Event.Load(w, symbol), []);
    var s1 := Apply(s, Event.Load(w, symbol));
    ReplayRun(s1, w, wk1, st, symbol, start, clocks);
    var s2, wk2 := ApplyAll(s1, replays), wk1.(books := ReplayIn(m, symbol, log, start, clocks), seen := wk1.seen[symbol := |log|]);
    CatchingUp(st, w, wk2, symbol);
    OneStep(s2, w, wk2, st, CaughtUp(w, symbol));
    EventsConcat(s1, replays, end);
    FirstStep(s, Event.Load(w, symbol), replays + end);
    assert wk2.seen == wk.seen[symbol := |log|];
  }

  function AllSteps(st: Store, w: nat, listed: seq<string>, clocks: nat -> Clock): seq<Event> {
    if listed == [] then [] else SymbolSteps(st, w, listed[0], clocks) + AllSteps(st, w, listed[1..], clocks)
  }

  lemma {:induction false} ReplayInOthers(m: Books, symbol: string, log: seq<Envelope>, n: nat, clocks: nat -> Clock)
    requires AllSane(m) && n <= |log|
    ensures forall s :: s != symbol ==> (s in ReplayIn(m, symbol, log, n, clocks) <==> s in m)
    decreases |log| - n
  {
    hide Next, Sane;
    if n < |log| {
      ReplayInOthers(ExecuteIn(m, Ask(symbol, Request(log[n].command, clocks(n)))).0, symbol, log, n + 1, clocks);
    }
  }

  /** Symbols still to be recovered, of which the worker holds nothing. */
  predicate Pending(wk: Worker, st: Store, listed: seq<string>, partitionId: int, partitionCount: int) {
    && wk.phase == Recovering(set s | s in listed)
    && (forall i, j :: 0 <= i < j < |listed| ==> listed[i] != listed[j])
    && forall s :: s in listed ==>
         s in st.symbols && Mine(s, partitionId, partitionCount) && s !in wk.seen && s !in wk.books
  }

  lemma PendingNext(wk: Worker, st: Store, listed: seq<string>, partitionId: int, partitionCount: int, clocks: nat -> Clock)
    requires AllSane(wk.books) && Source(st) && listed != [] && Pending(wk, st, listed, partitionId, partitionCount)
    ensures var symbol := listed[0];
            Pending(wk.(phase := Recovering(wk.phase.todo - {symbol}), books := RecoverIn(wk.books, st, symbol, clocks),
                        seen := wk.seen[symbol := |LogOf(st, symbol)|]), st, listed[1..], partitionId, partitionCount)
  {
    hide Source, AllSane, Mine, ReplayIn, Restore;
    var symbol := listed[0];
    ReplayInOthers(LoadIn(wk.books, st, symbol), symbol, LogOf(st, symbol), StartOf(st, symbol), clocks);
    assert listed == [symbol] + listed[1..];
    assert symbol !in listed[1..];
    assert (set s | s in listed) - {symbol} == set s | s in listed[1..];
  }

  /** All symbols, one after the other. */
  lemma {:induction false} PartitionRun(s: State, w: nat, wk: Worker, st: Store, listed: seq<string>,
                                        partitionId: int, partitionCount: int, clocks: nat -> Clock)
    requires Has(s, w, wk, st) && AllSane(wk.books) && Source(st) && Pending(wk, st, listed, partitionId, partitionCount)
    ensures forall x :: x in listed ==> x in st.symbols
    ensures var evs := AllSteps(st, w, listed, clocks);
            && EnabledRun(s, evs)
            && var s' := ApplyAll(s, evs);
               && w < |s'.workers|
               && Has(s', w, wk.(phase := Recovering({}), seen := s'.workers[w].seen,
                                 books := RecoverAll(wk.books, st, listed, partitionId, partitionCount, clocks)), st)
    decreases |listed|
  {
    hide Apply, Enabled, Source, AllSane, RecoverIn, SymbolSteps, Mine;
    if listed != [] {
      var symbol, rest := listed[0], listed[1..];
      var wk' := wk.(phase := Recovering(wk.phase.todo - {symbol}), books := RecoverIn(wk.books, st, symbol, clocks),
                     seen := wk.seen[symbol := |LogOf(st, symbol)|]);
      SymbolRun(s, w, wk, st, symbol, clocks);
      PendingNext(wk, st, listed, partitionId, partitionCount, clocks);
      var s1 := ApplyAll(s, SymbolSteps(st, w, symbol, clocks));
      PartitionRun(s1, w, wk', st, rest, partitionId, partitionCount, clocks);
      EventsConcat(s, SymbolSteps(st, w, symbol, clocks), AllSteps(st, w, rest, clocks));
    }
  }

  /** The steps of a Go worker from the lock to the first delivery. */
  function StartUp(st: Store, w: nat, listed: seq<string>, clocks: nat -> Clock): seq<Event> {
    [Acquire(w)] + ([ListSymbols(w)] + (AllSteps(st, w, listed, clocks) + ([BeginConsuming(w)] + [])))
  }

  /** Recovery is a run of the state machine: a waiting worker that finds the lock free acquires it, lists the symbols of
      its partition, recovers them, and consumes with exactly the books that `RecoverPartition` leaves in the registry. */
  lemma RecoveryIsARun(s: State, w: nat, listed: seq<string>, partitionId: int, partitionCount: int, clocks: nat -> Clock)
    requires w < |s.workers| && s.workers[w] == FRESH.(phase := Waiting) && s.store.lock == None
    requires var st := s.store.(lock := Some(w));
             && Source(st) && (forall x :: x in listed <==> x in st.symbols)
             && (forall i, j :: 0 <= i < j < |listed| ==> listed[i] != listed[j])
             && forall x :: x in listed ==> Mine(x, partitionId, partitionCount)
    ensures var st := s.store.(lock := Some(w));
            var evs := StartUp(st, w, listed, clocks);
            && EnabledRun(s, evs)
            && var s' := ApplyAll(s, evs);
               && w < |s'.workers| && s'.store == st && s'.workers[w].phase.Idle?
               && s'.workers[w].books == RecoverAll(map[], st, listed, partitionId, partitionCount, clocks)
  {
    hide Apply, Enabled, Source, RecoverAll, Mine, ApplyAll, EnabledRun, AllSteps;
    var st, all, end := s.store.(lock := Some(w)), AllSteps(s.store.(lock := Some(w)), w, listed, clocks), [BeginConsuming(w)] + [];
    StepAt(s, w, s.workers[w], s.store, Acquire(w), []);
    var s1 := Apply(s, Acquire(w));
    StepAt(s1, w, FRESH.(phase := Acquired), st, ListSymbols(w), []);
    var s2, wk2 := Apply(s1, ListSymbols(w)), FRESH.(phase := Recovering(st.symbols));
    assert st.symbols == set x | x in listed;
    PartitionRun(s2, w, wk2, st, listed, partitionId, partitionCount, clocks);
    var s3 := ApplyAll(s2, all);
    OneStep(s3, w, s3.workers[w], st, BeginConsuming(w));
    EventsConcat(s2, all, end);
    FirstStep(s1, ListSymbols(w), all + end);
    FirstStep(s, Acquire(w), [ListSymbols(w)] + (all + end));
  }
}
