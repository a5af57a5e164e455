/** How late is too late: with a watermark d behind the newest event time, which events that are
    L behind the newest one does the window drop? */
module Lateness {
  import opened Finite
  import opened Events
  import opened Realtime

  /** The window of an event at time t has fired when the newest event time is t + lag. */
  predicate Dropped(delay: int, lag: int, t: int)
  {
    Closed(Some(t + lag - delay), MinuteOf(t))
  }

  /** The bound is sharp to the millisecond and depends only on the position within the minute. */
  lemma SharpBound(delay: int, lag: int, t: int)
    ensures Dropped(delay, lag, t) <==> t % MINUTE >= delay + (MINUTE - 1) - lag
  {
  }

  /** A lag is always late exactly from delay + 59999 ms on, and never late exactly below the delay. */
  lemma AlwaysOrNever(delay: int, lag: int)
    ensures (forall t :: Dropped(delay, lag, t)) <==> lag >= delay + MINUTE - 1
    ensures (forall t :: !Dropped(delay, lag, t)) <==> lag < delay
  {
    forall t
      ensures Dropped(delay, lag, t) <==> t % MINUTE >= delay + (MINUTE - 1) - lag
    {
      SharpBound(delay, lag, t);
    }
    assert Dropped(delay, lag, 0) <==> lag >= delay + MINUTE - 1;
    assert Dropped(delay, lag, MINUTE - 1) <==> lag >= delay;
  }

  /** The positions of a minute, in milliseconds, at which a given lag loses the event. */
  ghost function Lost(delay: int, lag: int): set<int>
  {
    set m | m in Interval(0, MINUTE) && Dropped(delay, lag, m)
  }

  /** Of the 60000 positions in a minute, how many a given lag loses. */
  lemma LostPositions(delay: int, lag: int)
    ensures |Lost(delay, lag)| ==
            if lag < delay then 0 else if lag >= delay + MINUTE - 1 then MINUTE else lag - delay + 1
  {
    var from := delay + (MINUTE - 1) - lag;
    var lo := if from < 0 then 0 else from;
    forall m | 0 <= m < MINUTE
      ensures Dropped(delay, lag, m) <==> m >= from
    {
      SharpBound(delay, lag, m);
    }
    SameSize(delay, lag, lo);
  }

  lemma SameSize(delay: int, lag: int, lo: int)
    requires 0 <= lo && forall m :: 0 <= m < MINUTE ==> (Dropped(delay, lag, m) <==> m >= lo)
    ensures |Lost(delay, lag)| == if lo <= MINUTE then MINUTE - lo else 0
  {
    hide Dropped;
    assert Lost(delay, lag) == Interval(lo, MINUTE);
  }

  /** With the default delay of 10 s: an event sent 60 s late survives in 9999 of 60000 positions,
      about one in six, while 90 s late is always lost. */
  lemma DefaultDelay()
    ensures |Lost(10_000, 60_000)| == MINUTE - 9_999
    ensures forall t :: Dropped(10_000, 90_000, t)
  {
    LostPositions(10_000, 60_000);
    AlwaysOrNever(10_000, 90_000);
  }
}
