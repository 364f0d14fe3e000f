/**
 * The latched higher-high / higher-low tracker of the double RSI scan.
 *
 * One tracker scans one column of qualified extrema in bar order. A missing
 * value is "no event". The first event only records its value; every later
 * event sets the flag to "previous event < this event". Between events the
 * flag holds its value. The high and low trackers run side by side but never
 * read each other's state.
 */
module TrendTracker {
  import opened Series
  import HigherTrend

  /**
   * The per-kind state of the scan loop: the most recent event value (`None`
   * until the first event, when the source's reference flag is still false)
   * and the latched flag.
   */
  datatype Tracker = Tracker(last: Option<real>, higher: bool)

  /** Before the first bar: no event seen, flag false. */
  const Start := Tracker(None, false)

  /** One bar of the loop for one kind. */
  function Step(t: Tracker, event: Value): Tracker {
    match event
    case None => t
    case Some(v) =>
      if t.last.None? then Tracker(Some(v), t.higher)
      else Tracker(Some(v), t.last.value < v)
  }

  /** The state after scanning `events` from the first bar: a left fold of `Step`. */
  function Track(events: seq<Value>): Tracker {
    if |events| == 0 then Start else Step(Track(events[..|events| - 1]), events[|events| - 1])
  }

  /**
   * The tracker summarises the present values seen so far: it remembers the
   * last one, and its flag says whether there are two and the last one is
   * strictly higher than the one before it.
   */
  lemma {:induction false} TrackSummarisesPresentValues(events: seq<Value>)
    ensures Track(events).last == if |Present(events)| == 0 then None else Some(HigherTrend.Last(Present(events)))
    ensures Track(events).higher <==> |Present(events)| >= 2 && HigherTrend.HigherTrend(events)
  {
    if |events| > 0 {
      TrackSummarisesPresentValues(events[..|events| - 1]);
    }
  }

  /** The flag column written at every bar. */
  function Flags(events: seq<Value>): (flags: seq<bool>)
    ensures |flags| == |events|
    ensures forall i :: 0 <= i < |events| ==>
      (flags[i] <==> |Present(events[..i + 1])| >= 2 && HigherTrend.HigherTrend(events[..i + 1]))
  {
    forall k | 0 < k <= |events|
      ensures Track(events[..k]).higher
              <==> |Present(events[..k])| >= 2 && HigherTrend.HigherTrend(events[..k])
    {
      TrackSummarisesPresentValues(events[..k]);
    }
    seq(|events|, i requires 0 <= i < |events| => Track(events[..i + 1]).higher)
  }

  /** One more bar: the state steps on it, and the flag column grows by the new flag. */
  lemma TrackExtends(events: seq<Value>, i: nat)
    requires i < |events|
    ensures Track(events[..i + 1]) == Step(Track(events[..i]), events[i])
    ensures Flags(events)[..i + 1] == Flags(events)[..i] + [Step(Track(events[..i]), events[i]).higher]
  {
    assert events[..i + 1][..i] == events[..i];
  }

  /** Bars without an event carry the previous flag forward. */
  lemma FlagLatchedBetweenEvents(events: seq<Value>, i: nat)
    requires 0 < i < |events| && events[i].None?
    ensures Flags(events)[i] == Flags(events)[i - 1]
  {
    assert events[..i + 1][..i] == events[..i];
  }

  /** Until the second event the flag is false; in particular the first event never sets it. */
  lemma FirstEventNeverSetsFlag(events: seq<Value>, i: nat)
    requires i < |events|
    requires |Present(events[..i + 1])| <= 1
    ensures !Flags(events)[i]
  {
  }

  /** At a later event the flag is the strict comparison with the previous event. */
  lemma FlagAtLaterEvent(events: seq<Value>, i: nat)
    requires i < |events| && events[i].Some?
    requires |Present(events[..i])| >= 1
    ensures Flags(events)[i] <==> HigherTrend.Last(Present(events[..i])) < events[i].value
  {
    assert events[..i + 1] == events[..i] + [events[i]];
    HigherTrend.AppendValue(events[..i], events[i].value);
  }

  /** Two equal events in a row leave the flag false: ties are not higher. */
  lemma RepeatedEventIsNotHigher(events: seq<Value>, i: nat)
    requires 0 < i < |events| && events[i - 1].Some? && events[i] == events[i - 1]
    ensures !Flags(events)[i]
  {
    assert events[..i] == events[..i - 1] + [events[i - 1]];
    PresentConcat(events[..i - 1], [events[i - 1]]);
    assert [events[i - 1]][..0] == [];
    FlagAtLaterEvent(events, i);
  }

  /** Events 90, 88 and 95 at bars 2, 5 and 9: false, false, then true from bar 9. */
  lemma TrendMaxExample()
    ensures Flags([None, None, Some(90.0), None, None, Some(88.0), None, None, None, Some(95.0)])
         == [false, false, false, false, false, false, false, false, false, true]
  {
    var e: seq<Value> := [None, None, Some(90.0), None, None, Some(88.0), None, None, None, Some(95.0)];
    var f := Flags(e);
    forall k | 0 < k <= |e|
      ensures Track(e[..k]) == Step(Track(e[..k - 1]), e[k - 1])
    {
      assert e[..k][..k - 1] == e[..k - 1];
    }
    assert Track(e[..1]) == Start;
    assert Track(e[..2]) == Start;
    assert Track(e[..3]) == Tracker(Some(90.0), false);
    assert Track(e[..4]) == Tracker(Some(90.0), false);
    assert Track(e[..5]) == Tracker(Some(90.0), false);
    assert Track(e[..6]) == Tracker(Some(88.0), false);
    assert Track(e[..7]) == Tracker(Some(88.0), false);
    assert Track(e[..8]) == Tracker(Some(88.0), false);
    assert Track(e[..9]) == Tracker(Some(88.0), false);
    assert Track(e[..10]) == Tracker(Some(95.0), true);
  }

  /**
   * The scan loop over both columns at once, as the source writes it: one
   * reference flag, one stored value and one result flag per kind, updated
   * only on bars with an event of that kind, and both flags written at every
   * bar. It yields the two fold columns.
   */
  method ScanTrends(trendMax: seq<Value>, trendMin: seq<Value>) returns (higherHigh: seq<bool>, higherLow: seq<bool>)
    requires |trendMax| == |trendMin|
    ensures higherHigh == Flags(trendMax)
    ensures higherLow == Flags(trendMin)
  {
    var highRef, lowRef := false, false;
    var highFirst, highSecond: Option<real> := None, None;
    var lowFirst, lowSecond: Option<real> := None, None;
    var hh, hl := false, false;
    higherHigh, higherLow := [], [];
    var i := 0;
    while i < |trendMax|
      invariant i <= |trendMax|
      invariant highRef == highSecond.Some? && lowRef == lowSecond.Some?
      invariant Track(trendMax[..i]) == Tracker(highSecond, hh)
      invariant Track(trendMin[..i]) == Tracker(lowSecond, hl)
      invariant higherHigh == Flags(trendMax)[..i]
      invariant higherLow == Flags(trendMin)[..i]
    {
      TrackExtends(trendMax, i);
      TrackExtends(trendMin, i);
      if trendMax[i].Some? {
        if !highRef {
          highSecond := trendMax[i];
          highRef := true;
        } else {
          highFirst := highSecond;
          highSecond := trendMax[i];
          hh := highFirst.value < highSecond.value;
        }
      }
      if trendMin[i].Some? {
        if !lowRef {
          lowSecond := trendMin[i];
          lowRef := true;
        } else {
          lowFirst := lowSecond;
          lowSecond := trendMin[i];
          hl := lowFirst.value < lowSecond.value;
        }
      }
      higherLow := higherLow + [hl];
      higherHigh := higherHigh + [hh];
      i := i + 1;
    }
    assert trendMax[..i] == trendMax && trendMin[..i] == trendMin;
  }
}
