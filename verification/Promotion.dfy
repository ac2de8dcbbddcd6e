/** What a failed promotion of a node can do.

    A node starts its consumer before it checks once more that it still holds
    the lock.  If it does not, it returns to its replica without rebuilding the
    books.  A command that succeeded in between then leaves a book that no
    replay of the log gives, and the node can later be promoted with it. */
module Promotion {
  import opened Types
  import opened Matching
  import opened BookSpec
  import opened StopCascade
  import opened Runs
  import opened Likeness
  import opened Recovery
  import opened Failover
  import opened FailoverSafety

  // ------------------------------------------------------------- Go workers only

  ghost predicate NoNodes(s: State) {
    forall i :: 0 <= i < |s.workers| ==> !s.workers[i].node && !s.workers[i].trial
  }

  /** Go workers never abandon a trial, so every run of theirs is clean. */
  lemma {:induction false} GoRunsAreClean(s: State, evs: seq<Event>)
    requires NoNodes(s) && EnabledRun(s, evs)
    requires forall k :: 0 <= k < |evs| && evs[k].Start? ==> !evs[k].node
    ensures CleanRun(s, evs)
    decreases |evs|
  {
    if evs != [] {
      GoStep(s, evs[0]);
      GoRunsAreClean(Apply(s, evs[0]), evs[1..]);
    }
  }

  lemma GoStep(s: State, ev: Event)
    requires NoNodes(s) && Enabled(s, ev) && (ev.Start? ==> !ev.node)
    ensures !ev.Abandon? && NoNodes(Apply(s, ev))
  {
    hide Exec, Restore, SnapshotOf, Sane, Roomy, CleanCommand, Blank;
  }

  // --------------------------------------------------------------- a failing run

  const BID := Input("a", "u", Some(Buy), Some(1), None, None, 1, 0)
  const ENVELOPE := Envelope("c", "SYM", PlaceLimit(BID))

  /** On an empty book the bid rests; a second time it is refused. */
  lemma BidOnce(clock: Clock, later: Clock)
    ensures var s := Exec(EmptyBook("SYM"), PlaceLimit(BID), clock);
            && s.outcome.Ok? && s.book.bids != [] && s.book.stops == [] && MovedOn(EmptyBook("SYM"), s.book)
            && Exec(s.book, PlaceLimit(BID), later) == Step(s.book, Err(OrderExists))
  {
    var b := EmptyBook("SYM");
    var o := NewOrder("SYM", Limit, BID).value;
    assert Match(o, [], false) == Matched(o, [], []);
    assert Insert([], o) == [o];
    var r := Submit(b, o);
    assert Cycles(r.book, [], 1, clock) == Nothing(r.book);
    var s := Exec(b, PlaceLimit(BID), clock);
    assert s.book.bids == [o] && IndexOf([o], "a") == 0;
  }

  const NOTHING := Store(map[], map[], {}, map[], {}, None)
  const LOCKED := Store(map[], map[], {}, map[], {}, Some(0))
  const NODE := Worker(Standby, map[], map[], true, false, map[], {})

  /** A node starts, acquires the lock, finds nothing to recover, and starts its consumer. */
  function Promoted(): seq<Event> {
    [Acquire(0)] + ([ListSymbols(0)] + ([BeginConsuming(0)] + []))
  }

  lemma PromotedRun(s: State, wk: Worker)
    requires Has(s, 0, wk, NOTHING) && wk.phase.Standby? && wk.node
    ensures EnabledRun(s, Promoted())
    ensures Has(ApplyAll(s, Promoted()), 0, wk.(phase := Idle, trial := true, replica := wk.seen, touched := {}), LOCKED)
  {
    hide Apply, Enabled;
    StepAt(s, 0, wk, NOTHING, Acquire(0), []);
    var s1, wk1 := Apply(s, Acquire(0)), wk.(phase := Acquired);
    StepAt(s1, 0, wk1, LOCKED, ListSymbols(0), []);
    var s2, wk2 := Apply(s1, ListSymbols(0)), wk.(phase := Recovering({}));
    StepAt(s2, 0, wk2, LOCKED, BeginConsuming(0), []);
    StepAt(s1, 0, wk1, LOCKED, ListSymbols(0), [BeginConsuming(0)] + []);
    StepAt(s, 0, wk, NOTHING, Acquire(0), [ListSymbols(0)] + ([BeginConsuming(0)] + []));
  }

  /** A command is delivered and executed. */
  function Delivered(): seq<Event> {
    [Deliver(0, ENVELOPE)] + ([Dedup(0)] + ([Event.Execute(0, Zero())] + []))
  }

  lemma CanBeSent()
    ensures WellFormed(ENVELOPE)
  {
    assert !GoSpace("SYM"[0] as int);
  }

  lemma DeliveredRun(s: State, wk: Worker)
    requires Has(s, 0, wk, LOCKED) && wk.phase.Idle? && Sane(BookOf(wk, "SYM")) && BookOf(wk, "SYM").stops == []
    ensures EnabledRun(s, Delivered())
    ensures var r := Exec(BookOf(wk, "SYM"), PlaceLimit(BID), Zero());
            Has(ApplyAll(s, Delivered()), 0,
               wk.(books := wk.books["SYM" := r.book],
                   phase := if r.outcome.Ok? then Executed(ENVELOPE) else Idle,
                   touched := if r.outcome.Ok? then wk.touched + {"SYM"} else wk.touched),
               LOCKED)
  {
    hide Apply, Enabled, Exec, Sane, WellFormed;
    CanBeSent();
    StepAt(s, 0, wk, LOCKED, Deliver(0, ENVELOPE), []);
    var s1, wk1 := Apply(s, Deliver(0, ENVELOPE)), wk.(phase := Checked(ENVELOPE));
    StepAt(s1, 0, wk1, LOCKED, Dedup(0), []);
    var s2, wk2 := Apply(s1, Dedup(0)), wk.(phase := Deduped(ENVELOPE));
    StepAt(s2, 0, wk2, LOCKED, Event.Execute(0, Zero()), []);
    StepAt(s1, 0, wk1, LOCKED, Dedup(0), [Event.Execute(0, Zero())] + []);
    StepAt(s, 0, wk, LOCKED, Deliver(0, ENVELOPE), [Dedup(0)] + ([Event.Execute(0, Zero())] + []));
  }

  /** The lock expires, and the node returns to its replica. */
  function Lost(): seq<Event> {
    [Expire] + ([Abandon(0)] + [])
  }

  lemma LostRun(s: State, wk: Worker)
    requires Has(s, 0, wk, LOCKED) && Consuming(wk.phase) && wk.trial
    ensures EnabledRun(s, Lost())
    ensures Has(ApplyAll(s, Lost()), 0, wk.(phase := Standby, trial := false, seen := wk.replica), NOTHING)
  {
    var s1 := Apply(s, Expire);
    StepAt(s1, 0, wk, NOTHING, Abandon(0), []);
    FirstStep(s, Expire, [Abandon(0)] + []);
  }

  /** Promotion, one command executed, the lock lost, and promotion again. */
  function StaleRun(): seq<Event> {
    [Start(0, true)] + (Promoted() + (Delivered() + (Lost() + Promoted())))
  }

  /** The failing run: a node that was promoted, executed a command without logging it, lost the lock before it
      had confirmed its promotion, and was promoted again, holds the lock and waits for commands with a book that
      is not the replay of the log.  The command is delivered again and refused as a duplicate; it is in no log. */
  lemma StaleNodeConsumes(s: State)
    requires Initial(s) && |s.workers| > 0
    ensures EnabledRun(s, StaleRun()) && !CleanRun(s, StaleRun())
    ensures var s' := ApplyAll(s, StaleRun());
            && s'.workers != [] && s'.workers[0].phase.Idle? && s'.store.lock == Some(0) && LogOf(s'.store, "SYM") == []
            && BookOf(s'.workers[0], "SYM").bids != [] && !IsReplay(s'.store, s'.workers[0], "SYM")
            && EnabledRun(s', Delivered())
            && var s'' := ApplyAll(s', Delivered());
               s''.workers != [] && s''.workers[0].phase.Idle? && LogOf(s''.store, "SYM") == []
  {
    hide Apply, Enabled, ApplyAll, EnabledRun, Exec, Sane, Promoted, Delivered, Lost, Alike, MovedOn, CleanRun, StaleRun;
    EmptyIsSane();
    StaleSteps(s);
    var s' := ApplyAll(s, StaleRun());
    var b := Exec(EmptyBook("SYM"), PlaceLimit(BID), Zero()).book;
    BidOnce(Zero(), Zero());
    MovedOnIsUnlike(EmptyBook("SYM"), b);
    assert !GoSpace("SYM"[0] as int);
    DeliveredRun(s', s'.workers[0]);
    if CleanRun(s, StaleRun()) {
      ReplicaIsPrefix(s, StaleRun(), 0, "SYM");
    }
  }

  lemma StaleSteps(s: State)
    requires Initial(s) && |s.workers| > 0
    ensures EnabledRun(s, StaleRun())
    ensures var b := Exec(EmptyBook("SYM"), PlaceLimit(BID), Zero()).book;
            && Sane(b) && b.stops == []
            && Has(ApplyAll(s, StaleRun()), 0, NODE.(books := map["SYM" := b], phase := Idle, trial := true), LOCKED)
  {
    hide Apply, Enabled, ApplyAll, EnabledRun, Exec, Sane, Promoted, Delivered, Lost, MovedOn, Alike, CleanRun, CanStep;
    EmptyIsSane();
    BidOnce(Zero(), Zero());
    var b := Exec(EmptyBook("SYM"), PlaceLimit(BID), Zero()).book;
    StartAt(s);
    var s0 := Apply(s, Start(0, true));
    PromotedRun(s0, NODE);
    var s1, wk1 := ApplyAll(s0, Promoted()), NODE.(phase := Idle, trial := true);
    DeliveredRun(s1, wk1);
    var s2, wk2 := ApplyAll(s1, Delivered()), wk1.(books := map["SYM" := b], phase := Executed(ENVELOPE), touched := {"SYM"});
    LostRun(s2, wk2);
    var s3, wk3 := ApplyAll(s2, Lost()), NODE.(books := map["SYM" := b], touched := {"SYM"});
    PromotedRun(s3, wk3);
    EventsConcat(s2, Lost(), Promoted());
    EventsConcat(s1, Delivered(), Lost() + Promoted());
    EventsConcat(s0, Promoted(), Delivered() + (Lost() + Promoted()));
    FirstStep(s, Start(0, true), Promoted() + (Delivered() + (Lost() + Promoted())));
  }

  lemma StartAt(s: State)
    requires Initial(s) && |s.workers| > 0
    ensures Enabled(s, Start(0, true)) && Has(Apply(s, Start(0, true)), 0, NODE, NOTHING)
  {
    StepOf(s, 0, Start(0, true));
  }

  lemma EmptyIsSane()
    ensures Sane(EmptyBook("SYM"))
  {
  }
}
