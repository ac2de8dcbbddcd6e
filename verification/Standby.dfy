/** The standby replica of the Node engine: it discovers the symbols of its
    partition, rebuilds each from snapshot and log, and then follows the log in
    batches.  Its books are values here; a stream id is a number of log entries. */
module Standby {
  import opened Types
  import opened BookSpec
  import opened Runs
  import opened Likeness
  import opened Recovery
  import opened Failover
  import opened FailoverSafety
  import opened Partition

  /** The UTF-16 units of a code point. */
  function Units(c: char): seq<Unit> {
    var u := c as int;
    if u < 0x1_0000 then [u] else [0xD800 + ((u - 0x1_0000) / 0x400) % 0x400, 0xDC00 + u % 0x400]
  }

  /** The UTF-16 units of a text. */
  function Utf16(s: string): seq<Unit> {
    if s == [] then [] else Units(s[0]) + Utf16(s[1..])
  }

  /** A code point is one unit that is no surrogate, or a high and a low surrogate that carry its bits. */
  lemma UnitsDecode(c: char)
    ensures var us, u := Units(c), c as int;
            if u < 0x1_0000 then |us| == 1 && us[0] == u && !(0xD800 <= us[0] < 0xE000)
            else && |us| == 2 && 0xD800 <= us[0] < 0xDC00 && 0xDC00 <= us[1] < 0xE000
                 && u == 0x1_0000 + (us[0] as int - 0xD800) * 0x400 + (us[1] as int - 0xDC00)
  {
  }

  /** A book of a symbol that stands for the first `n` commands of its log. */
  ghost predicate Follows(symbol: string, log: seq<Envelope>, n: nat, b: Book) {
    n <= |log| && Good(b) && Alike(b, ReplayTo(symbol, log, n))
  }

  lemma EmptyFollows(symbol: string, log: seq<Envelope>)
    requires !Blank(symbol)
    ensures Follows(symbol, log, 0, EmptyBook(symbol))
  {
    EmptyBookGood(symbol);
    AlikeIsEquivalence(EmptyBook(symbol), EmptyBook(symbol), EmptyBook(symbol));
  }

  /** One more command of a sound log: it succeeds, at whatever time it is executed. */
  lemma FollowsOneMore(symbol: string, log: seq<Envelope>, n: nat, b: Book, clock: Clock)
    requires !Blank(symbol) && SoundLog(symbol, log) && n < |log| && Follows(symbol, log, n, b)
    ensures Sane(b) && log[n].symbol == symbol
    ensures Next(b, Request(log[n].command, clock)).outcome.Ok?
    ensures Follows(symbol, log, n + 1, Next(b, Request(log[n].command, clock)).book)
  {
    hide Good, Exec, Alike, Sane;
    assert Executable(symbol, log, n);
    ReplayGood(symbol, log, n);
    GoodSane(b);
    ExecBoth(b, ReplayTo(symbol, log, n), log[n].command, clock, Zero());
  }

  /** A log that has grown says the same about what was replayed before. */
  lemma FollowsLonger(symbol: string, log: seq<Envelope>, more: seq<Envelope>, n: nat, b: Book)
    requires Follows(symbol, log, n, b)
    ensures Follows(symbol, log + more, n, b)
  {
    hide Good, Alike, ReplayTo;
    ReplayStable(symbol, log, more, n);
  }

  /** What the replica may rely on: every listed symbol has a sound log and a snapshot that belongs to it. */
  ghost predicate Source(st: Store) {
    forall s :: s in st.symbols ==>
      && !Blank(s) && !NodeBlank(s) && SoundLog(s, LogOf(st, s))
      && (HasSnapshot(st, s) ==> SnapshotOk(s, LogOf(st, s), st.snapshots[s]))
  }

  /** Every store that a clean run of the worker protocol reaches is such a source. */
  lemma ReachableIsSource(s: State, evs: seq<Event>)
    requires Initial(s) && EnabledRun(s, evs) && CleanRun(s, evs)
    ensures Source(ApplyAll(s, evs).store)
  {
    hide SoundLog, SnapshotOk, UniqueIds, IdsOf, Apply, Enabled, ApplyAll;
    InitialInv(s);
    RunKeepsInv(s, evs);
    RunLists(s, evs);
    var st := ApplyAll(s, evs).store;
    forall symbol | symbol in st.symbols
      ensures SoundLog(symbol, LogOf(st, symbol))
      ensures HasSnapshot(st, symbol) ==> SnapshotOk(symbol, LogOf(st, symbol), st.snapshots[symbol])
    {
      assert SymbolOk(st, symbol);
    }
  }

  /** A text is blank exactly if its units are. */
  lemma {:induction false} BlankInUnits(s: string)
    ensures BlankToGo(Utf16(s)) <==> Blank(s)
    ensures BlankToNode(Utf16(s)) <==> NodeBlank(s)
  {
    if s != [] {
      BlankInUnits(s[1..]);
      BlankParts(Units(s[0]), Utf16(s[1..]));
      BlankUnits(s[0]);
      assert Blank(s) <==> GoSpace(s[0] as int) && Blank(s[1..]);
      assert NodeBlank(s) <==> NodeSpace(s[0] as int) && NodeBlank(s[1..]);
    }
  }

  lemma BlankUnits(c: char)
    ensures BlankToGo(Units(c)) <==> GoSpace(c as int)
    ensures BlankToNode(Units(c)) <==> NodeSpace(c as int)
  {
    assert Units(c)[0] == c as int || !SharedSpace(Units(c)[0]);
  }

  lemma BlankParts(a: seq<Unit>, b: seq<Unit>)
    ensures BlankToGo(a + b) <==> BlankToGo(a) && BlankToGo(b)
    ensures BlankToNode(a + b) <==> BlankToNode(a) && BlankToNode(b)
  {
    assert forall i :: 0 <= i < |a| ==> (a + b)[i] == a[i];
    assert forall i :: 0 <= i < |b| ==> (a + b)[|a| + i] == b[i];
  }

  /** Every listed symbol has a partition, and both engines agree on it. */
  lemma ListedHasPartition(st: Store, symbol: string, count: int)
    requires Source(st) && symbol in st.symbols && count >= 1
    ensures PartitionOf(Utf16(symbol), count).Ok?
    ensures NodePartitionOf(Utf16(symbol), count) == PartitionOf(Utf16(symbol), count)
  {
    hide Utf16, Blank, NodeBlank, SoundLog, SnapshotOk;
    BlankInUnits(symbol);
    PartitionsAgreeIff(Utf16(symbol), count);
  }

  /** How many commands of these symbols are in the log after the given positions. */
  ghost function Behind(st: Store, seen: map<string, nat>, symbols: set<string>): int
    requires symbols <= seen.Keys
  {
    if symbols == {} then 0
    else
      var s :| s in symbols;
      |LogOf(st, s)| - seen[s] + Behind(st, seen, symbols - {s})
  }

  /** In whichever order they are counted. */
  lemma {:induction false} BehindBy(st: Store, seen: map<string, nat>, symbols: set<string>, symbol: string)
    requires symbols <= seen.Keys && symbol in symbols
    ensures Behind(st, seen, symbols) == |LogOf(st, symbol)| - seen[symbol] + Behind(st, seen, symbols - {symbol})
    decreases symbols
  {
    var s :| s in symbols && Behind(st, seen, symbols) == |LogOf(st, s)| - seen[s] + Behind(st, seen, symbols - {s});
    if s != symbol {
      BehindBy(st, seen, symbols - {s}, symbol);
      BehindBy(st, seen, symbols - {symbol}, s);
      assert symbols - {s} - {symbol} == symbols - {symbol} - {s};
    }
  }

  lemma BehindNothing(st: Store, seen: map<string, nat>)
    ensures Behind(st, seen, {}) == 0
  {
  }

  lemma {:induction false} BehindSame(st: Store, seen: map<string, nat>, more: map<string, nat>, symbols: set<string>)
    requires symbols <= seen.Keys && symbols <= more.Keys && forall s :: s in symbols ==> more[s] == seen[s]
    ensures Behind(st, more, symbols) == Behind(st, seen, symbols)
    decreases symbols
  {
    if symbols != {} {
      var s :| s in symbols;
      BehindSame(st, seen, more, symbols - {s});
      BehindBy(st, seen, symbols, s);
      BehindBy(st, more, symbols, s);
    }
  }

  /** Symbols that have just been rebuilt to the end of their logs do not count. */
  lemma {:induction false} DiscoveredUpToDate(st: Store, seen: map<string, nat>, more: map<string, nat>)
    requires seen.Keys <= more.Keys
    requires forall s :: s in more ==> more[s] == if s in seen then seen[s] else |LogOf(st, s)|
    ensures Behind(st, more, more.Keys) == Behind(st, seen, seen.Keys)
    decreases more.Keys - seen.Keys
  {
    if more.Keys - seen.Keys != {} {
      var s :| s in more.Keys - seen.Keys;
      var less := map k | k in more && k != s :: more[k];
      BehindBy(st, more, more.Keys, s);
      assert less.Keys == more.Keys - {s};
      BehindSame(st, less, more, less.Keys);
      DiscoveredUpToDate(st, seen, less);
    } else {
      assert forall k :: k in more.Keys ==> k in seen.Keys || k in more.Keys - seen.Keys;
      assert more.Keys == seen.Keys;
      BehindSame(st, seen, more, seen.Keys);
    }
  }

  class StandbyReplica {
    const partitionId: int
    const partitionCount: int
    var seen: map<string, nat>
    var books: Books

    predicate Assigned(symbol: string) {
      NodePartitionOf(Utf16(symbol), partitionCount) == Ok(partitionId)
    }

    /** Every tracked symbol is listed, is of this partition, and its book stands for what was seen of
        its log; there is no other book of this partition. */
    ghost predicate Tracks(st: Store, seen: map<string, nat>, books: Books) {
      && (forall s :: s in seen ==>
            s in st.symbols && Assigned(s) && Follows(s, LogOf(st, s), seen[s], BookIn(books, s)))
      && (forall s :: s in books && Assigned(s) ==> s in seen)
    }

    ghost predicate Valid(st: Store)
      reads this
    {
      Tracks(st, seen, books)
    }

    /** One symbol has moved on, or is tracked now. */
    lemma Moved(st: Store, seen: map<string, nat>, books: Books, symbol: string, n: nat, books': Books)
      requires Tracks(st, seen, books) && symbol in st.symbols && Assigned(symbol)
      requires books' - {symbol} == books - {symbol}
      requires Follows(symbol, LogOf(st, symbol), n, BookIn(books', symbol))
      ensures Tracks(st, seen[symbol := n], books')
    {
      hide Follows, NodePartitionOf, Utf16, BookIn;
      OthersKept(books, books', symbol);
    }

    /** No position has moved back, and none was lost. */
    twostate predicate Advanced()
      reads this
    {
      forall s :: s in old(seen) ==> s in seen && seen[s] >= old(seen)[s]
    }

    constructor (partitionId: int, partitionCount: int)
      ensures seen == map[] && books == map[]
      ensures this.partitionId == partitionId && this.partitionCount == partitionCount
    {
      this.partitionId, this.partitionCount := partitionId, partitionCount;
      seen, books := map[], map[];
    }

    /** Execute one logged command on the replica's book. */
    method ExecuteEntry(symbol: string, log: seq<Envelope>, n: nat, clock: Clock)
      requires !Blank(symbol) && SoundLog(symbol, log) && n < |log|
      requires Follows(symbol, log, n, BookIn(books, symbol))
      modifies `books
      ensures books == old(books)[symbol := BookIn(books, symbol)]
      ensures Follows(symbol, log, n + 1, BookIn(books, symbol))
    {
      hide SoundLog, Follows, Next;
      var b := BookIn(books, symbol);
      FollowsOneMore(symbol, log, n, b, clock);
      books := books[symbol := Next(b, Request(log[n].command, clock)).book];
    }

    /** Replay a range of the log. */
    method ReplayRange(symbol: string, log: seq<Envelope>, from: nat, to: nat, clocks: nat -> Clock)
      requires !Blank(symbol) && SoundLog(symbol, log) && from <= to <= |log|
      requires Follows(symbol, log, from, BookIn(books, symbol))
      modifies `books
      ensures books - {symbol} == old(books) - {symbol}
      ensures symbol in old(books) ==> symbol in books
      ensures Follows(symbol, log, to, BookIn(books, symbol))
    {
      hide SoundLog, Follows, Next;
      for n := from to to
        invariant books - {symbol} == old(books) - {symbol}
        invariant symbol in old(books) ==> symbol in books
        invariant Follows(symbol, log, n, BookIn(books, symbol))
      {
        ExecuteEntry(symbol, log, n, clocks(n));
      }
    }

    /** Rebuild a symbol from its snapshot and the log after it, or from the whole log. */
    method RecoverSymbol(st: Store, symbol: string, clocks: nat -> Clock) returns (last: nat)
      requires Source(st) && symbol in st.symbols && symbol !in books
      modifies `books
      ensures books - {symbol} == old(books) - {symbol}
      ensures last == |LogOf(st, symbol)|
      ensures Follows(symbol, LogOf(st, symbol), last, BookIn(books, symbol))
    {
      hide SoundLog, Good, Alike, ReplayTo, Restore;
      var log := LogOf(st, symbol);
      var from := 0;
      if HasSnapshot(st, symbol) {
        assert SnapshotOk(symbol, log, st.snapshots[symbol]);
        books := books[symbol := Restore(st.snapshots[symbol]).value];
        from := st.snapshots[symbol].lastCommandId.value;
      } else {
        EmptyFollows(symbol, log);
      }
      ReplayRange(symbol, log, from, |log|, clocks);
      last := |log|;
    }

    /** Rebuild every listed symbol from scratch. */
    method ReplayAll(st: Store, listed: seq<string>, clocks: nat -> Clock)
      requires Source(st) && (forall s :: s in listed <==> s in st.symbols)
      requires forall i, j :: 0 <= i < j < |listed| ==> listed[i] != listed[j]
      modifies `books
      ensures forall s :: s in books ==> s in listed
      ensures forall s :: s in listed ==> Follows(s, LogOf(st, s), |LogOf(st, s)|, BookIn(books, s))
    {
      hide Source, Follows;
      books := map[];
      for i := 0 to |listed|
        invariant forall s :: s in books ==> s in listed[..i]
        invariant forall s :: s in listed[..i] ==> Follows(s, LogOf(st, s), |LogOf(st, s)|, BookIn(books, s))
      {
        ghost var before := books;
        assert listed[i] !in listed[..i];
        var _ := RecoverSymbol(st, listed[i], clocks);
        OthersKept(before, books, listed[i]);
      }
      assert listed[..|listed|] == listed;
    }

    /** Rebuild every listed symbol, and track those of this partition. */
    method Initialize(st: Store, listed: seq<string>, clocks: nat -> Clock)
      requires Source(st) && (forall s :: s in listed <==> s in st.symbols)
      requires forall i, j :: 0 <= i < j < |listed| ==> listed[i] != listed[j]
      modifies `books, `seen
      ensures Valid(st)
      ensures forall s :: s in seen <==> s in st.symbols && Assigned(s)
      ensures forall s :: s in seen ==> seen[s] == |LogOf(st, s)|
    {
      hide Source, Follows, NodePartitionOf, Utf16;
      ReplayAll(st, listed, clocks);
      seen := map[];
      ghost var rebuilt := books;
      for i := 0 to |listed|
        invariant books == rebuilt
        invariant forall s :: s in seen <==> s in listed[..i] && Assigned(s)
        invariant forall s :: s in seen ==> seen[s] == |LogOf(st, s)|
      {
        if Assigned(listed[i]) {
          seen := seen[listed[i] := |LogOf(st, listed[i])|];
        }
      }
      assert listed[..|listed|] == listed;
    }

    /** Rebuild and track the symbols of this partition that are not tracked yet. */
    method DiscoverSymbols(st: Store, listed: seq<string>, clocks: nat -> Clock)
      requires Source(st) && Valid(st) && (forall s :: s in listed <==> s in st.symbols)
      modifies `books, `seen
      ensures Valid(st)
      ensures forall s :: s in seen <==> s in st.symbols && Assigned(s)
      ensures forall s :: s in seen ==>
                seen[s] == if s in old(seen) then old(seen)[s] else |LogOf(st, s)|
    {
      hide Source, Follows, NodePartitionOf, Utf16, Tracks;
      Positions(st);
      for i := 0 to |listed|
        invariant Tracks(st, seen, books)
        invariant forall s :: s in seen <==> s in old(seen) || (s in listed[..i] && Assigned(s))
        invariant forall s :: s in seen ==>
                    seen[s] == if s in old(seen) then old(seen)[s] else |LogOf(st, s)|
      {
        var symbol := listed[i];
        if symbol !in seen && Assigned(symbol) {
          Unknown(st, symbol);
          ghost var before := books;
          var last := RecoverSymbol(st, symbol, clocks);
          Moved(st, seen, before, symbol, last, books);
          seen := seen[symbol := last];
        }
      }
      assert listed[..|listed|] == listed;
    }

    lemma Unknown(st: Store, symbol: string)
      requires Valid(st) && symbol !in seen && Assigned(symbol)
      ensures symbol !in books
    {
    }

    /** Read the log after the last position, a batch at a time, until there is nothing more. */
    method ReplayAvailable(st: Store, symbol: string, batch: nat, clocks: nat -> Clock) returns (replayed: nat)
      requires Source(st) && Valid(st) && symbol in seen && batch > 0
      modifies `books, `seen
      ensures Valid(st)
      ensures seen == old(seen)[symbol := |LogOf(st, symbol)|]
      ensures replayed == |LogOf(st, symbol)| - old(seen)[symbol]
    {
      hide Follows, NodePartitionOf, Utf16, SoundLog, SnapshotOk, Tracks;
      var log := LogOf(st, symbol);
      replayed := 0;
      Position(st, symbol);
      while true
        invariant Tracks(st, seen, books) && symbol in seen && seen == old(seen)[symbol := seen[symbol]]
        invariant seen[symbol] == old(seen)[symbol] + replayed <= |log|
        decreases |log| - seen[symbol]
      {
        var last := seen[symbol];
        var count := if |log| - last <= batch then |log| - last else batch;
        if count == 0 {
          return;
        }
        for n := last to last + count
          invariant Tracks(st, seen, books) && seen == old(seen)[symbol := n]
          invariant n == old(seen)[symbol] + replayed
        {
          Position(st, symbol);
          ghost var before := books;
          ExecuteEntry(symbol, log, n, clocks(n));
          Moved(st, seen, before, symbol, n + 1, books);
          seen := seen[symbol := n + 1];
          replayed := replayed + 1;
        }
      }
    }

    lemma Position(st: Store, symbol: string)
      requires Tracks(st, seen, books) && symbol in seen
      ensures symbol in st.symbols && Assigned(symbol) && seen[symbol] <= |LogOf(st, symbol)|
      ensures Follows(symbol, LogOf(st, symbol), seen[symbol], BookIn(books, symbol))
    {
      hide NodePartitionOf, Utf16, Good, Alike, ReplayTo;
    }

    /** Replay every tracked symbol, in any order. */
    method ReplayTracked(st: Store, batch: nat, clocks: nat -> Clock) returns (replayed: nat)
      requires Source(st) && Valid(st) && batch > 0
      modifies `books, `seen
      ensures Valid(st) && seen.Keys == old(seen.Keys)
      ensures forall s :: s in seen ==> seen[s] == |LogOf(st, s)|
      ensures replayed == Behind(st, old(seen), old(seen.Keys))
    {
      hide Source, Follows, NodePartitionOf, Utf16, Behind, Tracks;
      var todo := seen.Keys;
      ghost var start := seen;
      replayed := 0;
      while todo != {}
        invariant Valid(st) && todo <= seen.Keys == start.Keys
        invariant forall s :: s in todo ==> seen[s] == start[s]
        invariant forall s :: s in seen && s !in todo ==> seen[s] == |LogOf(st, s)|
        invariant replayed + Behind(st, start, todo) == Behind(st, start, start.Keys)
        decreases todo
      {
        var symbol :| symbol in todo;
        BehindBy(st, start, todo, symbol);
        var n := ReplayAvailable(st, symbol, batch, clocks);
        replayed := replayed + n;
        todo := todo - {symbol};
      }
      BehindNothing(st, start);
    }

    /** Discover, then replay every tracked symbol: on a log that does not change meanwhile, every symbol
        of the partition ends at the end of its log, and the count is how far the replica was behind on those
        that it tracked before. */
    method CatchUp(st: Store, listed: seq<string>, batch: nat, clocks: nat -> Clock) returns (replayed: nat)
      requires Source(st) && Valid(st) && (forall s :: s in listed <==> s in st.symbols) && batch > 0
      modifies `books, `seen
      ensures Valid(st) && Advanced()
      ensures forall s :: s in seen <==> s in st.symbols && Assigned(s)
      ensures forall s :: s in seen ==> seen[s] == |LogOf(st, s)|
      ensures replayed == Behind(st, old(seen), old(seen.Keys))
    {
      hide Source, Follows, NodePartitionOf, Utf16, Behind, Tracks;
      Positions(st);
      DiscoverSymbols(st, listed, clocks);
      DiscoveredUpToDate(st, old(seen), seen);
      replayed := ReplayTracked(st, batch, clocks);
    }

    lemma Positions(st: Store)
      requires Valid(st)
      ensures forall s :: s in seen ==> s in st.symbols && Assigned(s) && seen[s] <= |LogOf(st, s)|
    {
      hide Follows, NodePartitionOf, Utf16;
      forall s | s in seen
        ensures s in st.symbols && Assigned(s) && seen[s] <= |LogOf(st, s)|
      {
        Position(st, s);
      }
    }

    /** Another store whose logs continue those of this one leaves the replica valid: it merely lags. */
    lemma GrowthKeepsValid(st: Store, st': Store)
      requires Valid(st) && st.symbols <= st'.symbols
      requires forall s :: s in st.symbols ==> LogOf(st, s) <= LogOf(st', s)
      ensures Valid(st')
    {
      hide Follows, NodePartitionOf, Utf16;
      forall s | s in seen
        ensures Follows(s, LogOf(st', s), seen[s], BookIn(books, s))
      {
        var log, log' := LogOf(st, s), LogOf(st', s);
        assert log' == log + log'[|log|..];
        FollowsLonger(s, log, log'[|log|..], seen[s], BookIn(books, s));
      }
    }
  }

  /** Changing the book of one symbol keeps those of the others. */
  lemma OthersKept(m: Books, n: Books, symbol: string)
    requires n - {symbol} == m - {symbol}
    ensures forall s :: s != symbol ==> BookIn(n, s) == BookIn(m, s) && (s in n <==> s in m)
  {
    forall s | s != symbol
      ensures BookIn(n, s) == BookIn(m, s) && (s in n <==> s in m)
    {
      assert s in n <==> s in n - {symbol};
      assert s in m <==> s in m - {symbol};
    }
  }
}
