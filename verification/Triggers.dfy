/** Which stops a command triggers, when, and in what order.

    Every last price that a command sets is a mark.  A pending stop is triggered
    at the first mark that reaches its trigger, where a trailing trigger has
    followed the marks up to there, and it stays pending exactly if none does. */
module Triggers {
  import opened Types
  import opened Matching
  import opened BookSpec
  import opened Invariant
  import opened StopCascade
  import opened Trailing

  /** The price has risen to the trigger of a stop that buys, or fallen to that of one that sells. */
  predicate Crosses(s: Stop, price: int) {
    (s.side == Buy && price >= s.trigger) || (s.side == Sell && price <= s.trigger)
  }

  /** How many marks it takes until a stop is reached, trailing on the way; 0 if none reaches it. */
  function FireTime(s: Stop, marks: seq<int>): (n: nat)
    ensures n <= |marks|
    decreases |marks|
  {
    if marks == [] then 0
    else if Crosses(Trail(s, marks[0]), marks[0]) then 1
    else
      var n := FireTime(Trail(s, marks[0]), marks[1..]);
      if n == 0 then 0 else n + 1
  }

  /** The stop as the first `n` marks have left it is reached by the last of them. */
  predicate ReachedAt(s: Stop, marks: seq<int>, n: nat)
    requires 0 < n <= |marks|
  {
    Crosses(Ratchet(s, marks[..n]), marks[n - 1])
  }

  /** It is the first such mark. */
  lemma {:induction false} FireTimeIsFirst(s: Stop, marks: seq<int>)
    ensures var n := FireTime(s, marks);
            && (n > 0 ==> ReachedAt(s, marks, n))
            && forall j :: 0 < j <= |marks| && (n == 0 || j < n) ==> !ReachedAt(s, marks, j)
    decreases |marks|
  {
    hide Trail, Crosses;
    if marks != [] {
      var s1, rest := Trail(s, marks[0]), marks[1..];
      FireTimeIsFirst(s1, rest);
      RatchetOne(s, marks[0]);
      assert marks[..1] == [marks[0]];
      forall j | 1 < j <= |marks|
        ensures ReachedAt(s, marks, j) <==> ReachedAt(s1, rest, j - 1)
      {
        assert marks[..j][0] == marks[0] && marks[..j][1..] == rest[..j - 1];
      }
    }
  }

  lemma RatchetOne(s: Stop, price: int)
    ensures Ratchet(s, [price]) == Trail(s, price)
  {
    hide Trail;
    assert Ratchet(Trail(s, price), [price][1..]) == Trail(s, price);
  }

  /** The stop of an id. */
  function Of(stops: seq<Stop>, id: string): Stop
    requires HoldsStop(stops, id)
  {
    stops[StopIndex(stops, id)]
  }

  /** Every triggered stop was pending, was reached by a mark, and is as the marks up to that one have left it. */
  predicate FiredRight(before: seq<Stop>, triggered: seq<Stop>, marks: seq<int>) {
    forall t :: t in triggered ==>
      && HoldsStop(before, t.id)
      && var n := FireTime(Of(before, t.id), marks);
         n > 0 && t == Ratchet(Of(before, t.id), marks[..n]).(status := Triggered)
  }

  /** Every stop still pending was pending, was reached by no mark, and is as all marks have left it. */
  predicate WaitsRight(before: seq<Stop>, after: seq<Stop>, marks: seq<int>) {
    forall t :: t in after ==>
      && HoldsStop(before, t.id) && FireTime(Of(before, t.id), marks) == 0
      && t == Ratchet(Of(before, t.id), marks)
  }

  // ---------------------------------------------------------------- one cycle

  /** The stops of a cycle are triggered one after the other, each as it was. */
  lemma {:induction false} RunStopsTrigger(b: Book, el: seq<Stop>, clock: Clock)
    requires Sane(b) && RunStops(b, el, clock).error.None?
    ensures var ts := RunStops(b, el, clock).triggered;
            |ts| == |el| && forall k :: 0 <= k < |el| ==> ts[k] == el[k].(status := Triggered)
    decreases |el|
  {
    hide Sane, Submit, WithoutStop, NewOrder;
    if el != [] {
      RunStopsTrigger(RunStop(b, el[0], clock(el[0].id)).book, el[1..], clock);
    }
  }

  /** A stop of the marked list comes from the stop with its id. */
  lemma MarkedOf(b: Book, price: int, t: Stop)
    requires WF(b) && t in Mark(b, price).stops
    ensures HoldsStop(b.stops, t.id) && t == Trail(Of(b.stops, t.id), price)
  {
    var i :| 0 <= i < |b.stops| && t == Trail(b.stops[i], price);
    assert b.stops[i] in b.stops;
    ListedStop(b, b.stops[i]);
  }

  /** At the mark it is eligible exactly if that mark reaches it. */
  lemma MarkedFires(b: Book, price: int, t: Stop)
    requires WF(b) && t in Mark(b, price).stops
    ensures HoldsStop(b.stops, t.id) && t == Ratchet(Of(b.stops, t.id), [price])
    ensures FireTime(Of(b.stops, t.id), [price]) == if Eligible(t, price) then 1 else 0
    ensures [price][..1] == [price]
  {
    hide WF, Trail, StopIndex;
    MarkedOf(b, price, t);
    RatchetOne(Of(b.stops, t.id), price);
  }

  /** What becomes of the marked stops: those that are eligible are triggered, the others stay. */
  lemma CycleStops(b: Book, price: int, clock: Clock)
    requires WF(b) && Cycle(b, price, clock).error.None?
    ensures var c, stops := Cycle(b, price, clock), Mark(b, price).stops;
            && (forall t :: t in c.triggered ==>
                  exists r :: r in stops && Eligible(r, price) && t == r.(status := Triggered))
            && (forall t :: t in c.book.stops ==> t in stops && !Eligible(t, price))
  {
    hide WF, RunStops, EligibleStops, Waiting, Sane, Mark, Eligible;
    WFSane(b);
    MarkKeepsWF(b, price);
    var b1, c := Mark(b, price), Cycle(b, price, clock);
    WFSane(b1);
    var el := EligibleStops(b1.stops, price);
    EligibleWaiting(b1, price);
    CycleParts(b, price, clock);
    RunStopsTrigger(b1, el, clock);
    RunStopsLeaves(b1, el, clock);
    forall t | t in c.triggered
      ensures exists r :: r in b1.stops && Eligible(r, price) && t == r.(status := Triggered)
    {
      var k :| 0 <= k < |el| && t == el[k].(status := Triggered);
      EligibleExactly(b1.stops, price, el[k]);
    }
    forall t | t in c.book.stops
      ensures !Eligible(t, price)
    {
      EligibleExactly(b1.stops, price, t);
    }
  }

  lemma CycleFires(b: Book, price: int, clock: Clock)
    requires WF(b) && Cycle(b, price, clock).error.None?
    ensures var c := Cycle(b, price, clock);
            FiredRight(b.stops, c.triggered, [price]) && WaitsRight(b.stops, c.book.stops, [price])
  {
    hide WF, Cycle, Sane, Mark, HoldsStop, Of, FireTime, Ratchet, Eligible;
    WFSane(b);
    var c := Cycle(b, price, clock);
    CycleStops(b, price, clock);
    forall t | t in c.triggered
      ensures HoldsStop(b.stops, t.id) && FireTime(Of(b.stops, t.id), [price]) == 1
      ensures t == Ratchet(Of(b.stops, t.id), [price][..1]).(status := Triggered)
    {
      var r :| r in Mark(b, price).stops && Eligible(r, price) && t == r.(status := Triggered);
      MarkedFires(b, price, r);
    }
    forall t | t in c.book.stops
      ensures HoldsStop(b.stops, t.id) && FireTime(Of(b.stops, t.id), [price]) == 0
      ensures t == Ratchet(Of(b.stops, t.id), [price])
    {
      MarkedFires(b, price, t);
    }
  }

  // --------------------------------------------------------------- the cascade

  lemma FiredThen(a: seq<Stop>, m: seq<Stop>, z: seq<Stop>, ts: seq<Stop>, us: seq<Stop>, price: int, marks: seq<int>)
    requires FiredRight(a, ts, [price]) && WaitsRight(a, m, [price])
    requires FiredRight(m, us, marks) && WaitsRight(m, z, marks)
    ensures FiredRight(a, ts + us, [price] + marks) && WaitsRight(a, z, [price] + marks)
  {
    hide StopIndex, Trail;
    var all := [price] + marks;
    assert all[0] == price && all[1..] == marks && all[..1] == [price] == [price][..1];
    forall t | t in m
      ensures HoldsStop(a, t.id) && t == Trail(Of(a, t.id), price) && !Crosses(t, price)
    {
      RatchetOne(Of(a, t.id), price);
    }
    forall t | t in ts
      ensures HoldsStop(a, t.id) && FireTime(Of(a, t.id), all) == 1
      ensures t == Ratchet(Of(a, t.id), all[..1]).(status := Triggered)
    {
      assert FireTime(Of(a, t.id), [price]) == 1;
    }
    forall t | t in us
      ensures HoldsStop(a, t.id)
      ensures var n := FireTime(Of(a, t.id), all);
              n > 0 && t == Ratchet(Of(a, t.id), all[..n]).(status := Triggered)
    {
      var s := Of(m, t.id);
      assert s in m && s.id == t.id;
      var n := FireTime(s, marks);
      assert all[..n + 1][0] == price && all[..n + 1][1..] == marks[..n];
    }
    forall t | t in z
      ensures HoldsStop(a, t.id) && FireTime(Of(a, t.id), all) == 0 && t == Ratchet(Of(a, t.id), all)
    {
      assert Of(m, t.id) in m;
    }
  }

  lemma NothingFires(b: Book)
    requires WF(b)
    ensures FiredRight(b.stops, [], []) && WaitsRight(b.stops, b.stops, [])
  {
    hide WF, StopIndex;
    forall t | t in b.stops
      ensures HoldsStop(b.stops, t.id) && t == Of(b.stops, t.id)
    {
      ListedStop(b, t);
    }
  }

  lemma {:induction false} CascadeFires(b: Book, latest: seq<Trade>, cycle: nat, clock: Clock)
    requires WF(b) && Cycles(b, latest, cycle, clock).error.None?
    ensures var c := Cycles(b, latest, cycle, clock);
            FiredRight(b.stops, c.triggered, c.marks) && WaitsRight(b.stops, c.book.stops, c.marks)
    decreases if cycle > MAX_CYCLES then 0 else MAX_CYCLES + 1 - cycle
  {
    hide WF, Cycle, Cycles, FiredRight, WaitsRight, Sane;
    WFSane(b);
    if latest == [] {
      NoCycles(b, cycle, clock);
      NothingFires(b);
    } else {
      var price := LastPrice(latest);
      CyclesParts(b, latest, cycle, clock);
      CycleFires(b, price, clock);
      var c := Cycle(b, price, clock);
      var d := Cycles(c.book, c.trades, cycle + 1, clock);
      CascadeFires(c.book, c.trades, cycle + 1, clock);
      FiredThen(b.stops, c.book.stops, d.book.stops, c.triggered, d.triggered, price, d.marks);
    }
  }

  // ----------------------------------------------------------------- the order

  /** What is left of a list of stops is in the order it was. */
  ghost predicate KeepsOrder(before: seq<Stop>, after: seq<Stop>) {
    forall x, y :: HoldsStop(after, x) && HoldsStop(after, y) && StopIndex(after, x) < StopIndex(after, y) ==>
      HoldsStop(before, x) && HoldsStop(before, y) && StopIndex(before, x) < StopIndex(before, y)
  }

  /** An id that occurs once is found where it occurs. */
  lemma OnlyIndex(stops: seq<Stop>, k: nat)
    requires NoDupStops(stops) && k < |stops|
    ensures StopIndex(stops, stops[k].id) == k
  {
    DistinctIndex(stops, StopIndex(stops, stops[k].id), k);
  }

  lemma WithoutKeepsOrder(stops: seq<Stop>, id: string)
    requires NoDupStops(stops)
    ensures KeepsOrder(stops, WithoutStop(stops, id))
  {
    hide StopIndex;
    var k, w := StopIndex(stops, id), WithoutStop(stops, id);
    forall x, y | HoldsStop(w, x) && HoldsStop(w, y) && StopIndex(w, x) < StopIndex(w, y)
      ensures HoldsStop(stops, x) && HoldsStop(stops, y) && StopIndex(stops, x) < StopIndex(stops, y)
    {
      var i, j := StopIndex(w, x), StopIndex(w, y);
      OnlyIndex(stops, if i < k then i else i + 1);
      OnlyIndex(stops, if j < k then j else j + 1);
    }
  }

  lemma {:induction false} RunStopsKeepOrder(b: Book, el: seq<Stop>, clock: Clock)
    requires WF(b) && Waiting(b, el) && RunStops(b, el, clock).error.None?
    ensures KeepsOrder(b.stops, RunStops(b, el, clock).book.stops)
    decreases |el|
  {
    hide WF, RunStop, RunStops, Sane, Waiting, StopIndex;
    WFSane(b);
    if el == [] {
      NoStops(b, clock);
    } else {
      RunStopsParts(b, el, clock);
      RunStopKeepsWF(b, el[0], clock(el[0].id));
      DistinctStops(b);
      WithoutKeepsOrder(b.stops, el[0].id);
      RunStopsKeepOrder(RunStop(b, el[0], clock(el[0].id)).book, el[1..], clock);
    }
  }

  lemma {:induction false} EligibleInOrder(stops: seq<Stop>, price: int, k: nat, l: nat)
    requires NoDupStops(stops) && k < l < |EligibleStops(stops, price)|
    ensures var el := EligibleStops(stops, price); StopIndex(stops, el[k].id) < StopIndex(stops, el[l].id)
  {
    hide StopIndex, Eligible, NoDupStops, EligibleStops;
    FirstEligible(stops, price);
    var el, rest := EligibleStops(stops, price), EligibleStops(stops[1..], price);
    var d := if Eligible(stops[0], price) then 1 else 0;
    RestDistinct(stops);
    assert el[l] == rest[l - d];
    if k < d {
      FirstIndex(stops);
      NotFirst(stops, el[l]);
    } else {
      assert el[k] == rest[k - d];
      EligibleInOrder(stops[1..], price, k - d, l - d);
      NotFirst(stops, el[k]);
      NotFirst(stops, el[l]);
    }
  }

  lemma FirstEligible(stops: seq<Stop>, price: int)
    requires EligibleStops(stops, price) != []
    ensures stops != []
    ensures EligibleStops(stops, price)
            == (if Eligible(stops[0], price) then [stops[0]] else []) + EligibleStops(stops[1..], price)
  {
  }

  lemma RestDistinct(stops: seq<Stop>)
    requires NoDupStops(stops) && stops != []
    ensures NoDupStops(stops[1..])
  {
  }

  lemma FirstIndex(stops: seq<Stop>)
    requires stops != []
    ensures StopIndex(stops, stops[0].id) == 0
  {
  }

  lemma NotFirst(stops: seq<Stop>, s: Stop)
    requires stops != [] && NoDupStops(stops) && s in stops[1..]
    ensures StopIndex(stops, s.id) == 1 + StopIndex(stops[1..], s.id)
  {
    var i :| 0 <= i < |stops[1..]| && stops[1..][i] == s;
    assert stops[0].id != stops[i + 1].id;
  }

  /** Stops reached by an earlier mark come first; those reached by the same mark in the order of their placement. */
  predicate FiredInOrder(before: seq<Stop>, triggered: seq<Stop>, marks: seq<int>) {
    && (forall t :: t in triggered ==> HoldsStop(before, t.id))
    && forall k, l :: 0 <= k < l < |triggered| ==>
         var m, n := FireTime(Of(before, triggered[k].id), marks), FireTime(Of(before, triggered[l].id), marks);
         m < n || (m == n && StopIndex(before, triggered[k].id) < StopIndex(before, triggered[l].id))
  }

  /** The stops of a cycle are triggered in the order of the list, and those that stay keep it. */
  lemma CycleOrder(b: Book, price: int, clock: Clock)
    requires WF(b) && Cycle(b, price, clock).error.None?
    ensures var c := Cycle(b, price, clock);
            && KeepsOrder(Mark(b, price).stops, c.book.stops)
            && forall k, l :: 0 <= k < l < |c.triggered| ==>
                 StopIndex(Mark(b, price).stops, c.triggered[k].id) < StopIndex(Mark(b, price).stops, c.triggered[l].id)
  {
    hide WF, RunStops, EligibleStops, Waiting, Sane, Mark, StopIndex, KeepsOrder;
    WFSane(b);
    MarkKeepsWF(b, price);
    var b1, c := Mark(b, price), Cycle(b, price, clock);
    WFSane(b1);
    var el := EligibleStops(b1.stops, price);
    EligibleWaiting(b1, price);
    CycleParts(b, price, clock);
    RunStopsTrigger(b1, el, clock);
    RunStopsKeepOrder(b1, el, clock);
    DistinctStops(b1);
    forall k, l | 0 <= k < l < |c.triggered|
      ensures StopIndex(b1.stops, c.triggered[k].id) < StopIndex(b1.stops, c.triggered[l].id)
    {
      EligibleInOrder(b1.stops, price, k, l);
    }
  }

  lemma CycleInOrder(b: Book, price: int, clock: Clock)
    requires WF(b) && Cycle(b, price, clock).error.None?
    ensures var c := Cycle(b, price, clock);
            FiredInOrder(b.stops, c.triggered, [price]) && KeepsOrder(b.stops, c.book.stops)
  {
    hide WF, Cycle, Sane, StopIndex, FireTime, Ratchet;
    WFSane(b);
    CycleFires(b, price, clock);
    CycleOrder(b, price, clock);
    forall x
      ensures StopIndex(Mark(b, price).stops, x) == StopIndex(b.stops, x)
    {
      MarkIndex(b.stops, price, x);
    }
    OnceFired(b.stops, Cycle(b, price, clock).triggered, price);
  }

  /** With one mark, whatever fires fires at it. */
  lemma OnceFired(before: seq<Stop>, triggered: seq<Stop>, price: int)
    requires FiredRight(before, triggered, [price])
    ensures forall t :: t in triggered ==> HoldsStop(before, t.id) && FireTime(Of(before, t.id), [price]) == 1
  {
    hide StopIndex, Ratchet;
  }

  /** After a first mark, a stop that waited is reached one mark later than as seen from there. */
  lemma LaterFired(a: seq<Stop>, m: seq<Stop>, price: int, marks: seq<int>, id: string)
    requires WaitsRight(a, m, [price]) && HoldsStop(m, id) && FireTime(Of(m, id), marks) > 0
    ensures HoldsStop(a, id) && FireTime(Of(a, id), [price] + marks) == FireTime(Of(m, id), marks) + 1
  {
    hide StopIndex, Trail;
    assert Of(m, id) in m && Of(m, id).id == id;
    RatchetOne(Of(a, id), price);
    assert ([price] + marks)[0] == price && ([price] + marks)[1..] == marks;
  }

  lemma OrderThen(a: seq<Stop>, m: seq<Stop>, ts: seq<Stop>, us: seq<Stop>, price: int, marks: seq<int>)
    requires FiredInOrder(a, ts, [price]) && FiredRight(a, ts, [price]) && WaitsRight(a, m, [price]) && KeepsOrder(a, m)
    requires FiredInOrder(m, us, marks) && FiredRight(m, us, marks)
    ensures FiredInOrder(a, ts + us, [price] + marks)
  {
    hide StopIndex, Ratchet;
    var all, vs := [price] + marks, ts + us;
    OnceFired(a, ts, price);
    forall t | t in ts
      ensures HoldsStop(a, t.id) && FireTime(Of(a, t.id), all) == 1
    {
      assert all[0] == price;
    }
    forall t | t in us
      ensures HoldsStop(a, t.id) && FireTime(Of(a, t.id), all) == FireTime(Of(m, t.id), marks) + 1
    {
      LaterFired(a, m, price, marks, t.id);
    }
    assert forall k :: 0 <= k < |vs| ==> vs[k] == if k < |ts| then ts[k] else us[k - |ts|];
  }

  lemma {:induction false} CascadeInOrder(b: Book, latest: seq<Trade>, cycle: nat, clock: Clock)
    requires WF(b) && Cycles(b, latest, cycle, clock).error.None?
    ensures var c := Cycles(b, latest, cycle, clock); FiredInOrder(b.stops, c.triggered, c.marks)
    decreases if cycle > MAX_CYCLES then 0 else MAX_CYCLES + 1 - cycle
  {
    hide WF, Cycle, Cycles, FiredRight, WaitsRight, FiredInOrder, KeepsOrder, Sane;
    WFSane(b);
    if latest == [] {
      NoCycles(b, cycle, clock);
      NoOrder(b.stops);
    } else {
      var price := LastPrice(latest);
      CyclesParts(b, latest, cycle, clock);
      CycleFires(b, price, clock);
      CycleInOrder(b, price, clock);
      var c := Cycle(b, price, clock);
      var d := Cycles(c.book, c.trades, cycle + 1, clock);
      CascadeInOrder(c.book, c.trades, cycle + 1, clock);
      CascadeFires(c.book, c.trades, cycle + 1, clock);
      OrderThen(b.stops, c.book.stops, c.triggered, d.triggered, price, d.marks);
    }
  }

  lemma NoOrder(stops: seq<Stop>)
    ensures FiredInOrder(stops, [], [])
  {
  }

  // ------------------------------------------------------------- none is lost

  predicate HasId(stops: seq<Stop>, id: string) {
    exists s :: s in stops && s.id == id
  }

  /** Every stop that was pending has been triggered or is still pending. */
  ghost predicate NoneLost(before: seq<Stop>, triggered: seq<Stop>, after: seq<Stop>) {
    forall id :: HasId(before, id) ==> HasId(triggered, id) || HasId(after, id)
  }

  lemma MarkedGoes(b: Book, price: int, clock: Clock, t: Stop)
    requires WF(b) && Cycle(b, price, clock).error.None? && t in Mark(b, price).stops
    ensures var c := Cycle(b, price, clock); t in c.book.stops || t.(status := Triggered) in c.triggered
  {
    hide WF, RunStops, EligibleStops, Waiting, Sane, Mark, Eligible;
    WFSane(b);
    MarkKeepsWF(b, price);
    var b1, c := Mark(b, price), Cycle(b, price, clock);
    WFSane(b1);
    var el := EligibleStops(b1.stops, price);
    EligibleWaiting(b1, price);
    CycleParts(b, price, clock);
    RunStopsTrigger(b1, el, clock);
    RunStopsLeaves(b1, el, clock);
    if t in el {
      var k :| 0 <= k < |el| && el[k] == t;
      assert c.triggered[k] in c.triggered;
    }
  }

  lemma CycleLosesNone(b: Book, price: int, clock: Clock)
    requires WF(b) && Cycle(b, price, clock).error.None?
    ensures var c := Cycle(b, price, clock); NoneLost(b.stops, c.triggered, c.book.stops)
  {
    hide WF, Cycle, Sane, Trail;
    WFSane(b);
    var c, stops := Cycle(b, price, clock), Mark(b, price).stops;
    forall id | HasId(b.stops, id)
      ensures HasId(c.triggered, id) || HasId(c.book.stops, id)
    {
      var i :| 0 <= i < |b.stops| && b.stops[i].id == id;
      TrailKeepsId(b.stops[i], price);
      assert stops[i] in stops;
      MarkedGoes(b, price, clock, stops[i]);
    }
  }

  lemma TrailKeepsId(s: Stop, price: int)
    ensures Trail(s, price).id == s.id
  {
  }

  lemma LostThen(a: seq<Stop>, m: seq<Stop>, z: seq<Stop>, ts: seq<Stop>, us: seq<Stop>)
    requires NoneLost(a, ts, m) && NoneLost(m, us, z)
    ensures NoneLost(a, ts + us, z)
  {
    forall id | HasId(a, id)
      ensures HasId(ts + us, id) || HasId(z, id)
    {
      if HasId(ts, id) {
        var t :| t in ts && t.id == id;
        assert t in ts + us;
      } else if HasId(us, id) {
        var t :| t in us && t.id == id;
        assert t in ts + us;
      }
    }
  }

  lemma {:induction false} CascadeLosesNone(b: Book, latest: seq<Trade>, cycle: nat, clock: Clock)
    requires WF(b) && Cycles(b, latest, cycle, clock).error.None?
    ensures var c := Cycles(b, latest, cycle, clock); NoneLost(b.stops, c.triggered, c.book.stops)
    decreases if cycle > MAX_CYCLES then 0 else MAX_CYCLES + 1 - cycle
  {
    hide WF, Cycle, Cycles, NoneLost, Sane;
    WFSane(b);
    if latest == [] {
      NoCycles(b, cycle, clock);
      assert NoneLost(b.stops, [], b.stops) by {
        NothingLost(b.stops);
      }
    } else {
      CyclesParts(b, latest, cycle, clock);
      CycleLosesNone(b, LastPrice(latest), clock);
      var c := Cycle(b, LastPrice(latest), clock);
      var d := Cycles(c.book, c.trades, cycle + 1, clock);
      CascadeLosesNone(c.book, c.trades, cycle + 1, clock);
      LostThen(b.stops, c.book.stops, d.book.stops, c.triggered, d.triggered);
    }
  }

  lemma NothingLost(stops: seq<Stop>)
    ensures NoneLost(stops, [], stops)
  {
  }

  // ---------------------------------------------------------------- commands

  /** The stops that an accepted order triggers, and those it leaves. */
  lemma PlaceTriggers(b: Book, typ: OrderType, input: Input, clock: Clock)
    requires WF(b) && typ in {Limit, Market} && Place(b, typ, input, clock).outcome.Ok?
    ensures var s := Place(b, typ, input, clock);
            var r := s.outcome.value;
            && FiredRight(b.stops, r.triggered, r.marks) && WaitsRight(b.stops, s.book.stops, r.marks)
            && FiredInOrder(b.stops, r.triggered, r.marks) && NoneLost(b.stops, r.triggered, s.book.stops)
            && (r.trades != [] ==> Quiet(s.book) && s.book.last.Some?)
  {
    hide WF, Taken, Submit, Cycles, LiveQueue, FiredRight, WaitsRight, FiredInOrder, NoneLost;
    WFSane(b);
    var o := NewOrder(b.symbol, typ, input).value;
    SubmitKeepsWF(b, o);
    SubmitFrame(b, o);
    var r := Submit(b, o);
    CascadeFires(r.book, r.trades, 1, clock);
    CascadeInOrder(r.book, r.trades, 1, clock);
    CascadeLosesNone(r.book, r.trades, 1, clock);
    if r.trades == [] {
      NoCycles(r.book, 1, clock);
    } else {
      CyclesReachFixpoint(r.book, r.trades, 1, clock);
    }
  }

  /** Whether a mark of the command reaches a stop as it was before the command, trailing on the way. */
  ghost predicate Reached(s: Stop, marks: seq<int>) {
    exists n :: 0 < n <= |marks| && ReachedAt(s, marks, n)
  }

  /** A pending stop is triggered by an accepted order exactly if one of the last prices that the order sets reaches
      it, and otherwise it stays; a triggered stop carries the trigger that was reached. */
  lemma TriggersExactly(b: Book, typ: OrderType, input: Input, clock: Clock, s: Stop)
    requires WF(b) && typ in {Limit, Market} && Place(b, typ, input, clock).outcome.Ok? && s in b.stops
    ensures var r := Place(b, typ, input, clock).outcome.value;
            && (HasId(r.triggered, s.id) <==> Reached(s, r.marks))
            && (HasId(Place(b, typ, input, clock).book.stops, s.id) <==> !Reached(s, r.marks))
            && forall t :: t in r.triggered ==>
                 exists m :: m in r.marks && (t.side == Buy ==> m >= t.trigger) && (t.side == Sell ==> m <= t.trigger)
  {
    hide WF, Place, StopIndex, Ratchet, FireTime;
    PlaceTriggers(b, typ, input, clock);
    WFSane(b);
    var step := Place(b, typ, input, clock);
    var r := step.outcome.value;
    ListedStop(b, s);
    FireTimeIsFirst(s, r.marks);
    assert HasId(b.stops, s.id);
    forall t | t in r.triggered
      ensures exists m :: m in r.marks && (t.side == Buy ==> m >= t.trigger) && (t.side == Sell ==> m <= t.trigger)
    {
      FireTimeIsFirst(Of(b.stops, t.id), r.marks);
      assert r.marks[FireTime(Of(b.stops, t.id), r.marks) - 1] in r.marks;
    }
  }

  /** After a command that traded, the last price has not reached any stop that waits. */
  lemma WaitingIsNotReached(b: Book, typ: OrderType, input: Input, clock: Clock, s: Stop)
    requires WF(b) && typ in {Limit, Market} && Place(b, typ, input, clock).outcome.Ok?
    requires Place(b, typ, input, clock).outcome.value.trades != [] && s in Place(b, typ, input, clock).book.stops
    ensures var last := Place(b, typ, input, clock).book.last;
            && last.Some? && (s.side == Buy ==> last.value < s.trigger) && (s.side == Sell ==> last.value > s.trigger)
  {
    hide WF, Place;
    PlaceTriggers(b, typ, input, clock);
  }
}
