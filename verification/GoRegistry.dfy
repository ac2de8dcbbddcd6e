/** The worker's registry: heap books by symbol, no two sharing any object. */
module GoRegistry {
  import opened Types
  import opened BookSpec
  import opened Invariant
  import opened Runs
  import opened Independence
  import opened GoBook

  /** A valid book of this symbol that lives in region `f` of the heap. */
  ghost predicate Housed(b: EngineBook, f: set<object>, s: string)
    reads f
  {
    && b in f && b.bids in f && b.asks in f && b.Footprint() <= f
    && b.symbol == s && b.Valid()
  }

  ghost function Value(b: EngineBook, f: set<object>, s: string): (v: Book)
    requires Housed(b, f, s)
    reads f
    ensures Sane(v)
  {
    b.State()
  }

  /** No two books share an object. */
  ghost predicate Separate(region: map<string, set<object>>) {
    forall s, t :: s in region && t in region && s != t ==> region[s] !! region[t]
  }

  lemma StillSeparate(region: map<string, set<object>>, symbol: string, f: set<object>)
    requires Separate(region) && forall s :: s in region && s != symbol ==> region[s] !! f
    ensures Separate(region[symbol := f])
  {
  }

  lemma OthersApart(region: map<string, set<object>>, symbol: string)
    requires Separate(region) && symbol in region
    ensures forall s :: s in region && s != symbol ==> region[s] !! region[symbol]
  {
  }

  method MakeBook(symbol: string) returns (b: EngineBook, ghost f: set<object>)
    requires !Blank(symbol)
    ensures Housed(b, f, symbol) && Value(b, f, symbol) == EmptyBook(symbol)
    ensures forall x :: x in f ==> fresh(x)
  {
    hide WF, EngineBook.Linked;
    b := new EngineBook(symbol);
    f := {b, b.bids, b.asks};
  }

  /** A command to one book changes its region only, which grows by new objects at most. */
  method ExecuteHoused(b: EngineBook, ghost f: set<object>, ghost s: string, c: Command, clock: Clock)
    returns (r: Result<Reply, Error>, ghost f': set<object>)
    requires Housed(b, f, s)
    modifies f
    ensures Housed(b, f', s) && Step(Value(b, f', s), r) == Exec(old(Value(b, f, s)), c, clock)
    ensures forall x :: x in f' ==> x in f || fresh(x)
  {
    hide EngineBook.Linked, EngineBook.Members, WF, Sane, Exec;
    r := b.Execute(c, clock);
    f' := f + b.Footprint();
  }

  class Registry {
    var books: map<string, EngineBook>
    ghost var region: map<string, set<object>>

    ghost function Repr(): set<object>
      reads this
    {
      set s, x | s in region && x in region[s] :: x
    }

    /** Every book lives in its region. */
    ghost predicate Houses()
      reads this, Repr()
    {
      && books.Keys == region.Keys
      && forall s :: s in books ==> this !in region[s] && Housed(books[s], region[s], s)
    }

    ghost predicate Valid()
      reads this, Repr()
    {
      Houses() && Separate(region)
    }

    ghost function Contents(): (m: Books)
      requires Houses()
      reads this, Repr()
      ensures m.Keys == books.Keys
    {
      map s | s in books :: Value(books[s], region[s], s)
    }

    /** The registry as a value. */
    ghost function View(): (m: Books)
      requires Valid()
      reads this, Repr()
      ensures m.Keys == books.Keys
    {
      Contents()
    }

    lemma ViewIsSane()
      requires Valid()
      ensures AllSane(View())
    {
      hide Housed, Sane;
    }

    /** A change elsewhere on the heap does not touch the registry. */
    twostate lemma Untouched(f: set<object>)
      requires old(Valid()) && f == old(Repr()) && unchanged(this, f)
      ensures Valid() && View() == old(View()) && Repr() == old(Repr())
    {
      hide EngineBook.Valid, EngineBook.State, EngineBook.Footprint, Sane, Separate;
      forall s | s in books
        ensures Housed(books[s], region[s], s) && Value(books[s], region[s], s) == old(Value(books[s], region[s], s))
      {
        assert old(Housed(books[s], region[s], s));
      }
    }

    constructor ()
      ensures Valid() && View() == map[] && Repr() == {}
    {
      books, region := map[], map[];
    }

    method Reset()
      modifies this
      ensures Valid() && View() == map[]
    {
      books, region := map[], map[];
    }

    /** Put a book that shares nothing with the others under its symbol. */
    method Install(symbol: string, book: EngineBook, ghost f: set<object>)
      requires Valid() && Housed(book, f, symbol) && this !in f
      requires forall s :: s in region && s != symbol ==> region[s] !! f
      modifies this
      ensures Valid()
      ensures View() == old(View())[symbol := old(Value(book, f, symbol))]
      ensures books == old(books)[symbol := book] && region == old(region)[symbol := f]
    {
      hide EngineBook.Valid, EngineBook.State, EngineBook.Footprint, Repr, Sane, Value, Separate;
      StillSeparate(region, symbol, f);
      ghost var v := View();
      books := books[symbol := book];
      region := region[symbol := f];
      assert Housed(book, f, symbol) && Value(book, f, symbol) == old(Value(book, f, symbol));
      forall s | s in books && s != symbol
        ensures this !in region[s] && Housed(books[s], region[s], s) && Value(books[s], region[s], s) == v[s]
      {
      }
      Assembled(v, symbol);
    }

    /** The book of a symbol, made if there is none; only a blank symbol is refused. */
    method GetOrCreate(symbol: string) returns (r: Result<EngineBook, Error>)
      requires Valid()
      modifies this
      ensures Valid() && (forall s, x :: s in region && x in region[s] ==> x in old(Repr()) || fresh(x))
      ensures r.Err? <==> symbol !in old(books) && Blank(symbol)
      ensures r.Err? ==> r.error == EmptySymbol && View() == old(View())
      ensures r.Ok? ==> symbol in books && books[symbol] == r.value
      ensures r.Ok? ==> View() == old(View())[symbol := BookIn(old(View()), symbol)]
    {
      hide Housed, Value, Separate;
      if symbol in books {
        assert View() == View()[symbol := BookIn(View(), symbol)];
        return Ok(books[symbol]);
      }
      if Blank(symbol) {
        return Err(EmptySymbol);
      }
      var book, f := Fresh(symbol);
      Install(symbol, book, f);
      return Ok(book);
    }

    method Fresh(symbol: string) returns (book: EngineBook, ghost f: set<object>)
      requires Valid() && !Blank(symbol)
      ensures Valid() && View() == old(View()) && Housed(book, f, symbol) && Value(book, f, symbol) == EmptyBook(symbol)
      ensures forall x :: x in f ==> fresh(x)
    {
      hide EngineBook.Valid, EngineBook.State, EngineBook.Footprint, Repr, Sane, Separate;
      ghost var v := View();
      book, f := MakeBook(symbol);
      forall s | s in books
        ensures Value(books[s], region[s], s) == v[s]
      {
      }
    }

    /** Take over a book made elsewhere; refused exactly if it is for another symbol. */
    method Set(symbol: string, book: EngineBook, ghost f: set<object>) returns (ok: bool)
      requires Valid() && Housed(book, f, book.symbol) && this !in f
      requires forall s :: s in region && s != symbol ==> region[s] !! f
      modifies this
      ensures Valid() && (ok <==> book.symbol == symbol)
      ensures View() == if ok then old(View())[symbol := old(Value(book, f, symbol))] else old(View())
      ensures books.Keys == if ok then old(books).Keys + {symbol} else old(books).Keys
      ensures forall x :: x in Repr() ==> x in old(Repr()) || x in f
    {
      hide Housed, Value, Separate;
      ok := book.symbol == symbol;
      if ok {
        Install(symbol, book, f);
      }
    }

    /** One command: find or make the book of the symbol, and let it execute the command. */
    method Execute(symbol: string, request: Request) returns (r: Result<Reply, Error>)
      requires Valid()
      modifies this, Repr()
      ensures Valid() && AllSane(old(View()))
      ensures (View(), r) == ExecuteIn(old(View()), Ask(symbol, request))
      ensures forall x :: x in Repr() ==> x in old(Repr()) || fresh(x)
    {
      hide Housed, Value, AllSane, Next, Repr, Separate, Registry.View, ExecuteIn, Sane, BookIn;
      ViewIsSane();
      ghost var v := View();
      ExecuteInParts(v, symbol, request);
      var book := GetOrCreate(symbol);
      ReprOf();
      if book.Err? {
        return Err(book.error);
      }
      InRepr(symbol);
      ghost var f';
      r, f' := Use(symbol, region[symbol], request);
      ReprOf();
    }

    lemma ReprOf()
      ensures forall x :: x in Repr() ==> exists s :: s in region && x in region[s]
    {
    }

    /** Let the book of a symbol execute a command: no other region is touched. */
    method Use(symbol: string, ghost f: set<object>, request: Request) returns (r: Result<Reply, Error>, ghost f': set<object>)
      requires Valid() && symbol in books && f == region[symbol]
      modifies this, f
      ensures Valid() && Sane(old(View())[symbol])
      ensures var s := Next(old(View())[symbol], request);
              View() == old(View())[symbol := s.book] && r == s.outcome
      ensures region == old(region)[symbol := f'] && forall x :: x in f' ==> x in f || fresh(x)
    {
      hide Housed, Value, Sane, Next, Separate, AllSane, Repr, Registry.View;
      ViewSane(symbol);
      ghost var v := View();
      r, f' := RunBook(symbol, f, request);
      StillSeparate(region, symbol, f');
      region := region[symbol := f'];
      Assembled(v, symbol);
    }

    /** The command itself, with every other book as it was. */
    method RunBook(symbol: string, ghost f: set<object>, request: Request) returns (r: Result<Reply, Error>, ghost f': set<object>)
      requires Valid() && symbol in books && f == region[symbol]
      modifies f
      ensures this !in f' && Housed(books[symbol], f', symbol) && Sane(old(View())[symbol])
      ensures Step(Value(books[symbol], f', symbol), r) == Next(old(View())[symbol], request)
      ensures forall s :: s in books && s != symbol ==>
                Housed(books[s], region[s], s) && Value(books[s], region[s], s) == old(View())[s] && region[s] !! f'
      ensures forall x :: x in f' ==> x in f || fresh(x)
    {
      hide EngineBook.Valid, EngineBook.State, EngineBook.Footprint, Sane, Exec, Separate, AllSane, Repr;
      ViewSane(symbol);
      OthersApart(region, symbol);
      ghost var v := View();
      r, f' := ExecuteHoused(books[symbol], f, symbol, request.command, request.clock);
      forall s | s in books && s != symbol
        ensures Housed(books[s], region[s], s) && Value(books[s], region[s], s) == v[s] && region[s] !! f'
      {
        assert region[s] !! f;
      }
    }

    lemma Assembled(v: Books, symbol: string)
      requires books.Keys == region.Keys && v.Keys + {symbol} == books.Keys && Separate(region) && symbol in books
      requires this !in region[symbol] && Housed(books[symbol], region[symbol], symbol)
      requires forall s :: s in books && s != symbol ==>
                 s in v && this !in region[s] && Housed(books[s], region[s], s) && Value(books[s], region[s], s) == v[s]
      ensures Valid() && View() == v[symbol := Value(books[symbol], region[symbol], symbol)]
    {
      hide Housed, Value, Separate, Repr;
    }

    lemma ViewSane(symbol: string)
      requires Valid() && symbol in books
      ensures Sane(View()[symbol])
    {
      hide Housed, Sane;
    }

    lemma BookIsValid(symbol: string)
      requires Valid() && symbol in books
      ensures books[symbol].Valid() && View()[symbol] == books[symbol].State()
    {
      hide EngineBook.Valid, EngineBook.State, EngineBook.Footprint, Separate;
    }

    lemma RegionsApart(f: set<object>)
      requires Repr() !! f
      ensures forall s :: s in region ==> region[s] !! f
    {
    }

    lemma InRepr(symbol: string)
      requires symbol in region
      ensures forall x :: x in region[symbol] ==> x in Repr()
    {
    }
  }
}
