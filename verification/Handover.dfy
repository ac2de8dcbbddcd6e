/** Handing a partition over: once its holder has let go of the lock, a waiting
    Go worker can take over at once, and then has the books of the whole log. */
module Handover {
  import opened Types
  import opened BookSpec
  import opened StopCascade
  import opened Recovery
  import opened Likeness
  import opened Failover
  import opened FailoverSafety
  import opened Standby
  import opened Restart

  /** No step abandons a trial. */
  predicate NoAbandon(evs: seq<Event>) {
    forall i :: 0 <= i < |evs| ==> !evs[i].Abandon?
  }

  lemma {:induction false} NoAbandonIsClean(s: State, evs: seq<Event>)
    requires EnabledRun(s, evs) && NoAbandon(evs)
    ensures CleanRun(s, evs)
    decreases |evs|
  {
    hide Apply, Enabled;
    if evs != [] {
      NoAbandonIsClean(Apply(s, evs[0]), evs[1..]);
    }
  }

  lemma {:induction false} CleanConcat(s: State, a: seq<Event>, b: seq<Event>)
    requires EnabledRun(s, a) && CleanRun(s, a) && EnabledRun(ApplyAll(s, a), b) && CleanRun(ApplyAll(s, a), b)
    ensures EnabledRun(s, a + b) && CleanRun(s, a + b) && ApplyAll(s, a + b) == ApplyAll(ApplyAll(s, a), b)
    decreases |a|
  {
    hide Apply, Enabled, CleanStep;
    if a == [] {
      assert a + b == b;
    } else {
      CleanConcat(Apply(s, a[0]), a[1..], b);
      FirstStep(s, a[0], a[1..] + b);
      assert a + b == [a[0]] + (a[1..] + b);
      assert ([a[0]] + (a[1..] + b))[1..] == a[1..] + b;
    }
  }

  lemma {:induction false} ReplayStepsPlain(w: nat, symbol: string, n: nat, end: nat, clocks: nat -> Clock)
    ensures NoAbandon(ReplaySteps(w, symbol, n, end, clocks))
    decreases end - n
  {
    if n < end {
      ReplayStepsPlain(w, symbol, n + 1, end, clocks);
    }
  }

  lemma {:induction false} AllStepsPlain(st: Store, w: nat, listed: seq<string>, clocks: nat -> Clock)
    ensures NoAbandon(AllSteps(st, w, listed, clocks))
  {
    if listed != [] {
      ReplayStepsPlain(w, listed[0], StartOf(st, listed[0]), |LogOf(st, listed[0])|, clocks);
      AllStepsPlain(st, w, listed[1..], clocks);
    }
  }

  /** What a worker that takes over may find in the store: the symbols of its partition, each listed once. */
  ghost predicate Lists(st: Store, listed: seq<string>, partitionId: int, partitionCount: int) {
    && (forall x :: x in listed <==> x in st.symbols)
    && (forall i, j :: 0 <= i < j < |listed| ==> listed[i] != listed[j])
    && forall x :: x in listed ==> Mine(x, partitionId, partitionCount)
  }

  /** After any clean run, when the holder of the lock exits or gives up, another worker that waits can start up without
      waiting for the lock to expire, and then consumes with the book of the whole log for every symbol. */
  lemma TakeOver(s: State, evs: seq<Event>, ev: Event, v: nat, listed: seq<string>, partitionId: int, partitionCount: int,
                 clocks: nat -> Clock, symbol: string)
    requires Initial(s) && EnabledRun(s, evs) && CleanRun(s, evs) && !Blank(symbol)
    requires var s1 := ApplyAll(s, evs);
             && (ev.Exit? || ev.Demote?) && Enabled(s1, ev) && s1.store.lock == Some(ev.w)
             && v < |s1.workers| && v != ev.w && s1.workers[v] == FRESH.(phase := Waiting)
             && Lists(s1.store, listed, partitionId, partitionCount)
    ensures var s1 := ApplyAll(s, evs);
            var s2 := Apply(s1, ev);
            var start := StartUp(s2.store.(lock := Some(v)), v, listed, clocks);
            && EnabledRun(s2, start)
            && var s3 := ApplyAll(s2, start);
               && v < |s3.workers| && s3.workers[v].phase.Idle? && s3.store.lock == Some(v) && s3.store.log == s1.store.log
               && Alike(BookOf(s3.workers[v], symbol),
                        ReplayTo(symbol, LogOf(s1.store, symbol), |LogOf(s1.store, symbol)|))
  {
    hide ApplyAll, EnabledRun, CleanRun, Source, Alike, ReplayTo, StartUp, Initial, AllSteps, Mine;
    var s1 := ApplyAll(s, evs);
    var s2 := LetGo(s1, ev, v);
    JustOne(s1, ev);
    NoAbandonIsClean(s1, [ev] + []);
    CleanConcat(s, evs, [ev] + []);
    var st := s2.store.(lock := Some(v));
    ReachableIsSource(s, evs + ([ev] + []));
    SourceLock(s2.store, st);
    RecoveryIsARun(s2, v, listed, partitionId, partitionCount, clocks);
    var start := StartUp(st, v, listed, clocks);
    StartUpPlain(st, v, listed, clocks);
    NoAbandonIsClean(s2, start);
    CleanConcat(s, evs + ([ev] + []), start);
    FailoverIsSafe(s, evs + ([ev] + []) + start, v, symbol);
  }

  lemma JustOne(s: State, ev: Event)
    requires Enabled(s, ev)
    ensures EnabledRun(s, [ev] + []) && ApplyAll(s, [ev] + []) == Apply(s, ev)
  {
    FirstStep(s, ev, []);
  }

  lemma StartUpPlain(st: Store, v: nat, listed: seq<string>, clocks: nat -> Clock)
    ensures NoAbandon(StartUp(st, v, listed, clocks))
  {
    hide AllSteps;
    AllStepsPlain(st, v, listed, clocks);
  }

  /** The holder lets go: the lock is free, and nothing else has changed but this worker. */
  lemma LetGo(s: State, ev: Event, v: nat) returns (s': State)
    requires (ev.Exit? || ev.Demote?) && Enabled(s, ev) && s.store.lock == Some(ev.w) && v < |s.workers| && v != ev.w
    ensures s' == Apply(s, ev) && s'.store == s.store.(lock := None)
    ensures v < |s'.workers| && s'.workers[v] == s.workers[v]
  {
    hide Exec, Restore, SnapshotOf, Sane, Roomy, CleanCommand, Blank;
    s' := Apply(s, ev);
  }

  /** Who holds the lock makes no difference to what can be recovered. */
  lemma SourceLock(st: Store, st': Store)
    requires Source(st) && st' == st.(lock := st'.lock)
    ensures Source(st')
  {
    hide SoundLog, SnapshotOk;
    assert forall x :: LogOf(st', x) == LogOf(st, x) && (HasSnapshot(st', x) <==> HasSnapshot(st, x));
  }
}
