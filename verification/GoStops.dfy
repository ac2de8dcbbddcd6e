/** The worker's stop list on the heap: a map of stops and the order of their
    ids, against the one list of stops in the specification. */
module GoStops {
  import opened Types
  import opened BookSpec
  import opened Invariant

  /** The pending stops in the order of their ids. */
  function StopsIn(ids: seq<string>, stops: map<string, Stop>): (r: seq<Stop>)
    requires forall i :: 0 <= i < |ids| ==> ids[i] in stops
    ensures |r| == |ids| && forall i :: 0 <= i < |ids| ==> r[i] == stops[ids[i]]
  {
    if ids == [] then [] else [stops[ids[0]]] + StopsIn(ids[1..], stops)
  }

  /** Every listed id has a stop of that id, none twice, and no other stops exist. */
  predicate Listed(ids: seq<string>, stops: map<string, Stop>) {
    && (forall i :: 0 <= i < |ids| ==> ids[i] in stops && stops[ids[i]].id == ids[i])
    && (forall i, j :: 0 <= i < j < |ids| ==> ids[i] != ids[j])
    && (forall id :: id in stops ==> id in ids)
  }

  lemma FoundAt(ids: seq<string>, stops: map<string, Stop>, i: nat)
    requires Listed(ids, stops) && i < |ids|
    ensures StopIndex(StopsIn(ids, stops), ids[i]) == i
  {
    hide StopsIn, StopIndex;
    var k := StopIndex(StopsIn(ids, stops), ids[i]);
    assert StopsIn(ids, stops)[i].id == ids[i];
    assert k <= i;
    assert StopsIn(ids, stops)[k] == stops[ids[k]];
  }

  lemma HoldsIffMapped(ids: seq<string>, stops: map<string, Stop>, id: string)
    requires Listed(ids, stops)
    ensures HoldsStop(StopsIn(ids, stops), id) <==> id in stops
    ensures id in stops ==> StopsIn(ids, stops)[StopIndex(StopsIn(ids, stops), id)] == stops[id]
  {
    hide StopsIn, StopIndex;
    var k := StopIndex(StopsIn(ids, stops), id);
    assert k < |ids| ==> StopsIn(ids, stops)[k] == stops[ids[k]];
    if id in stops {
      var i :| 0 <= i < |ids| && ids[i] == id;
      FoundAt(ids, stops, i);
    }
  }

  /** Deleting entry `i` from both structures. */
  lemma DeleteAt(ids: seq<string>, stops: map<string, Stop>, i: nat)
    requires Listed(ids, stops) && i < |ids|
    ensures Listed(ids[..i] + ids[i + 1..], stops - {ids[i]})
    ensures StopsIn(ids[..i] + ids[i + 1..], stops - {ids[i]}) == WithoutStop(StopsIn(ids, stops), ids[i])
  {
    hide StopsIn, StopIndex;
    FoundAt(ids, stops, i);
    var w, m := ids[..i] + ids[i + 1..], stops - {ids[i]};
    forall j | 0 <= j < |w|
      ensures w[j] == ids[if j < i then j else j + 1] && w[j] != ids[i]
    {
    }
    forall id | id in m
      ensures id in w
    {
      var j :| 0 <= j < |ids| && ids[j] == id;
      assert w[if j < i then j else j - 1] == id;
    }
  }

  method DeleteStop(ids: seq<string>, stops: map<string, Stop>, id: string)
    returns (ids': seq<string>, stops': map<string, Stop>)
    requires Listed(ids, stops) && id in stops
    ensures Listed(ids', stops')
    ensures StopsIn(ids', stops') == WithoutStop(StopsIn(ids, stops), id)
  {
    hide StopsIn, WithoutStop;
    assert id in ids;
    stops' := stops - {id};
    ids' := ids;
    var i := 0;
    while i < |ids|
      invariant 0 <= i <= |ids| && ids' == ids
      invariant forall j :: 0 <= j < i ==> ids[j] != id
    {
      if ids[i] == id {
        DeleteAt(ids, stops, i);
        ids' := ids[..i] + ids[i + 1..];
        return;
      }
      i := i + 1;
    }
    assert false;
  }

  /** Every trailing stop has an amount to trail by. */
  predicate AmountsKnown(ids: seq<string>, stops: map<string, Stop>)
    requires Listed(ids, stops)
  {
    forall i :: 0 <= i < |ids| ==> stops[ids[i]].typ == TrailingStopMarket ==> stops[ids[i]].trailingAmount.Some?
  }

  lemma AmountsAreKnown(ids: seq<string>, stops: map<string, Stop>, symbol: string, traded: bool)
    requires Listed(ids, stops) && StopsOk(StopsIn(ids, stops), symbol, traded)
    ensures AmountsKnown(ids, stops)
  {
    hide StopsIn;
    forall i | 0 <= i < |ids|
      ensures StopOk(stops[ids[i]], symbol)
    {
      assert StopsIn(ids, stops)[i] == stops[ids[i]];
    }
  }

  lemma TrailAllAt(a: seq<Stop>, b: seq<Stop>, last: int)
    requires |a| == |b| && forall i :: 0 <= i < |a| ==> b[i] == Trail(a[i], last)
    ensures b == TrailAll(a, last)
  {
    hide Trail;
  }

  /** One trailing stop follows the price. */
  method Follow(o: Stop, last: int) returns (t: Stop)
    requires o.typ == TrailingStopMarket ==> o.trailingAmount.Some?
    ensures t == Trail(o, last)
  {
    t := o;
    if o.typ != TrailingStopMarket {
      return;
    }
    if o.side == Sell && (o.peak.None? || last > o.peak.value) {
      t := t.(peak := Some(last), trigger := last - o.trailingAmount.value);
    }
    if o.side == Buy && (o.valley.None? || last < o.valley.value) {
      t := t.(valley := Some(last), trigger := last + o.trailingAmount.value);
    }
  }

  lemma TrailKeepsId(s: Stop, last: int)
    ensures Trail(s, last).id == s.id
  {
  }

  method UpdateTrailing(ids: seq<string>, stops: map<string, Stop>, last: int) returns (stops': map<string, Stop>)
    requires Listed(ids, stops) && AmountsKnown(ids, stops)
    ensures Listed(ids, stops')
    ensures StopsIn(ids, stops') == TrailAll(StopsIn(ids, stops), last)
  {
    hide StopsIn, Trail, TrailAll;
    stops' := stops;
    for k := 0 to |ids|
      invariant stops'.Keys == stops.Keys
      invariant forall j :: 0 <= j < k ==> stops'[ids[j]] == Trail(stops[ids[j]], last)
      invariant forall j :: k <= j < |ids| ==> stops'[ids[j]] == stops[ids[j]]
    {
      var t := Follow(stops'[ids[k]], last);
      stops' := stops'[ids[k] := t];
    }
    forall j | 0 <= j < |ids|
      ensures stops'[ids[j]].id == ids[j]
    {
      TrailKeepsId(stops[ids[j]], last);
    }
    TrailAllAt(StopsIn(ids, stops), StopsIn(ids, stops'), last);
  }

  lemma {:induction false} EligibleAppend(a: seq<Stop>, s: Stop, last: int)
    ensures EligibleStops(a + [s], last) == EligibleStops(a, last) + (if Eligible(s, last) then [s] else [])
  {
    if a == [] {
      assert a + [s] == [s] && [s][1..] == [];
    } else {
      assert (a + [s])[0] == a[0] && (a + [s])[1..] == a[1..] + [s];
      EligibleAppend(a[1..], s, last);
    }
  }

  method FindEligible(ids: seq<string>, stops: map<string, Stop>, last: int) returns (el: seq<Stop>)
    requires Listed(ids, stops)
    ensures el == EligibleStops(StopsIn(ids, stops), last)
  {
    hide StopsIn, EligibleStops;
    ghost var all := StopsIn(ids, stops);
    el := [];
    NoStops(last);
    assert all[..0] == [];
    for k := 0 to |ids|
      invariant el == EligibleStops(all[..k], last)
    {
      var o := stops[ids[k]];
      EligibleAppend(all[..k], all[k], last);
      assert all[..k + 1] == all[..k] + [all[k]];
      if (o.side == Buy && last >= o.trigger) || (o.side == Sell && last <= o.trigger) {
        el := el + [o];
      }
    }
    assert all[..|ids|] == all;
  }

  lemma NoStops(last: int)
    ensures EligibleStops([], last) == []
  {
  }

  lemma AddStop(ids: seq<string>, stops: map<string, Stop>, s: Stop)
    requires Listed(ids, stops) && s.id !in stops
    ensures Listed(ids + [s.id], stops[s.id := s])
    ensures StopsIn(ids + [s.id], stops[s.id := s]) == StopsIn(ids, stops) + [s]
  {
    hide StopsIn;
    var w, m := ids + [s.id], stops[s.id := s];
    forall j | 0 <= j < |w|
      ensures w[j] == (if j < |ids| then ids[j] else s.id) && w[j] in m && (j < |ids| ==> w[j] != s.id)
    {
    }
    assert w[|ids|] == s.id;
    forall id | id in m
      ensures id in w
    {
      if id != s.id {
        var j :| 0 <= j < |ids| && ids[j] == id;
        assert w[j] == id;
      }
    }
  }
}
