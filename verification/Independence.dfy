/** The registry of books as a value, and that symbols do not interfere: what
    becomes of a symbol depends only on the commands for that symbol. */
module Independence {
  import opened Types
  import opened BookSpec
  import opened Invariant
  import opened Runs

  datatype Ask = Ask(symbol: string, request: Request)

  datatype Ran = Ran(books: Books, outcomes: seq<Result<Reply, Error>>)

  predicate AllSane(m: Books) {
    forall s :: s in m ==> Sane(m[s])
  }

  /** One command: the book is made first, and stays even if the command then fails. */
  function ExecuteIn(m: Books, a: Ask): (r: (Books, Result<Reply, Error>))
    requires AllSane(m)
    ensures AllSane(r.0)
  {
    if a.symbol !in m && Blank(a.symbol) then (m, Err(EmptySymbol))
    else
      var s := Next(BookIn(m, a.symbol), a.request);
      (m[a.symbol := s.book], s.outcome)
  }

  /** Executing in two steps: find or make the book, then let it execute. */
  lemma ExecuteInParts(m: Books, symbol: string, request: Request)
    requires AllSane(m)
    ensures symbol !in m && Blank(symbol) ==> ExecuteIn(m, Ask(symbol, request)) == (m, Err(EmptySymbol))
    ensures Sane(BookIn(m, symbol))
    ensures symbol in m || !Blank(symbol) ==>
              var s := Next(BookIn(m, symbol), request);
              ExecuteIn(m, Ask(symbol, request)) == (m[symbol := BookIn(m, symbol)][symbol := s.book], s.outcome)
  {
    hide Exec, Blank;
    if symbol in m || !Blank(symbol) {
      var s := Next(BookIn(m, symbol), request);
      assert m[symbol := BookIn(m, symbol)][symbol := s.book] == m[symbol := s.book];
    }
  }

  lemma ExecutedIsThere(m: Books, a: Ask)
    requires AllSane(m)
    ensures ExecuteIn(m, a).1.Ok? ==> a.symbol in ExecuteIn(m, a).0
  {
  }

  function RunAll(m: Books, asks: seq<Ask>): (r: Ran)
    requires AllSane(m)
    ensures AllSane(r.books) && |r.outcomes| == |asks|
    decreases |asks|
  {
    if asks == [] then Ran(m, [])
    else
      var (m', outcome) := ExecuteIn(m, asks[0]);
      var rest := RunAll(m', asks[1..]);
      Ran(rest.books, [outcome] + rest.outcomes)
  }

  /** Every book is well formed and stands under its own symbol, which is not blank. */
  predicate WellHoused(m: Books) {
    forall s :: s in m ==> !Blank(s) && WF(m[s]) && m[s].symbol == s
  }

  lemma ExecuteKeepsHoused(m: Books, a: Ask)
    requires AllSane(m) && WellHoused(m)
    ensures WellHoused(ExecuteIn(m, a).0)
    ensures Blank(a.symbol) ==> ExecuteIn(m, a) == (m, Err(EmptySymbol))
    ensures !Blank(a.symbol) ==> ExecuteIn(m, a).0.Keys == m.Keys + {a.symbol}
  {
    hide WF, Exec, Sane, Blank;
    if !Blank(a.symbol) {
      var b := BookIn(m, a.symbol);
      EmptyBookWF(a.symbol);
      NextKeepsSymbol(b, a.request);
      ExecKeepsWF(b, a.request.command, a.request.clock);
    }
  }

  /** Over any sequence of commands: a book for every symbol that is not blank and has had a command, whether or not the
      command succeeded, and no other. */
  lemma {:induction false} RunKeepsHoused(m: Books, asks: seq<Ask>)
    requires AllSane(m) && WellHoused(m)
    ensures WellHoused(RunAll(m, asks).books)
    ensures RunAll(m, asks).books.Keys == m.Keys + set i | 0 <= i < |asks| && !Blank(asks[i].symbol) :: asks[i].symbol
    decreases |asks|
  {
    hide AllSane, ExecuteIn, WellHoused, Blank;
    if asks != [] {
      ExecuteKeepsHoused(m, asks[0]);
      RunKeepsHoused(ExecuteIn(m, asks[0]).0, asks[1..]);
      assert forall i :: 0 < i < |asks| ==> asks[i] == asks[1..][i - 1];
    }
  }

  /** The commands for one symbol, in order. */
  function Only(asks: seq<Ask>, symbol: string): seq<Ask> {
    if asks == [] then []
    else if asks[0].symbol == symbol then [asks[0]] + Only(asks[1..], symbol)
    else Only(asks[1..], symbol)
  }

  /** The outcomes of the commands for one symbol, in order. */
  function OutcomesOf(asks: seq<Ask>, outcomes: seq<Result<Reply, Error>>, symbol: string): seq<Result<Reply, Error>>
    requires |asks| == |outcomes|
  {
    if asks == [] then []
    else if asks[0].symbol == symbol then [outcomes[0]] + OutcomesOf(asks[1..], outcomes[1..], symbol)
    else OutcomesOf(asks[1..], outcomes[1..], symbol)
  }

  /** Two registries hold the same book, or both none, for a symbol. */
  predicate SameAt(m: Books, n: Books, symbol: string) {
    (symbol in m <==> symbol in n) && (symbol in m ==> m[symbol] == n[symbol])
  }

  /** A symbol's final book and outcomes are those of running its own commands alone. */
  lemma {:induction false} SymbolsAreIndependent(m: Books, n: Books, asks: seq<Ask>, symbol: string)
    requires AllSane(m) && AllSane(n) && SameAt(m, n, symbol)
    ensures SameAt(RunAll(m, asks).books, RunAll(n, Only(asks, symbol)).books, symbol)
    ensures OutcomesOf(asks, RunAll(m, asks).outcomes, symbol) == RunAll(n, Only(asks, symbol)).outcomes
    decreases |asks|
  {
    hide Next, Sane;
    if asks != [] {
      var m' := ExecuteIn(m, asks[0]).0;
      if asks[0].symbol == symbol {
        var n' := ExecuteIn(n, asks[0]).0;
        SymbolsAreIndependent(m', n', asks[1..], symbol);
        assert Only(asks, symbol)[1..] == Only(asks[1..], symbol);
        assert RunAll(m, asks).outcomes[1..] == RunAll(m', asks[1..]).outcomes;
      } else {
        SymbolsAreIndependent(m', n, asks[1..], symbol);
        assert RunAll(m, asks).outcomes[1..] == RunAll(m', asks[1..]).outcomes;
      }
    }
  }

  /** Two orders of commands that agree on every symbol are interleavings of the same per-symbol orders. */
  ghost predicate SameOrders(asks: seq<Ask>, bsks: seq<Ask>) {
    forall symbol :: Only(asks, symbol) == Only(bsks, symbol)
  }

  lemma SameEverywhere(m: Books, n: Books)
    requires forall x :: SameAt(m, n, x)
    ensures m == n
  {
    forall x | x in m.Keys + n.Keys
      ensures x in m && x in n && m[x] == n[x]
    {
      assert SameAt(m, n, x);
    }
    assert m.Keys == n.Keys;
  }

  /** All interleavings end in the same registry, with the same outcomes for each symbol. */
  lemma InterleavingsAgree(m: Books, asks: seq<Ask>, bsks: seq<Ask>, symbol: string)
    requires AllSane(m) && SameOrders(asks, bsks)
    ensures RunAll(m, asks).books == RunAll(m, bsks).books
    ensures OutcomesOf(asks, RunAll(m, asks).outcomes, symbol) == OutcomesOf(bsks, RunAll(m, bsks).outcomes, symbol)
  {
    hide RunAll, Only, AllSane;
    var r, s := RunAll(m, asks).books, RunAll(m, bsks).books;
    forall x: string
      ensures SameAt(r, s, x)
    {
      SymbolsAreIndependent(m, m, asks, x);
      SymbolsAreIndependent(m, m, bsks, x);
    }
    SameEverywhere(r, s);
    SymbolsAreIndependent(m, m, asks, symbol);
    SymbolsAreIndependent(m, m, bsks, symbol);
  }

  /** Neighbouring commands for different symbols can change places. */
  lemma SwapNeighbours(m: Books, a: Ask, b: Ask)
    requires AllSane(m) && a.symbol != b.symbol
    ensures SameOrders([a, b], [b, a])
    ensures RunAll(m, [a, b]).books == RunAll(m, [b, a]).books
  {
    forall symbol: string
      ensures Only([a, b], symbol) == Only([b, a], symbol)
    {
      assert [a, b][1..] == [b] && [b, a][1..] == [a] && [a][1..] == [] && [b][1..] == [];
    }
    InterleavingsAgree(m, [a, b], [b, a], a.symbol);
  }
}
