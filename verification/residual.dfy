/** What the residual of the reconciliation is: the identity between the online job and the offline
    batch, and exactly when it is zero. */
module Residual {
  import opened Finite
  import opened Events
  import opened Realtime
  import opened Ttl
  import opened Expiry
  import opened Batch
  import Settlement

  // ---------------------------------------------------------------- the four numbers of one campaign

  function MinuteValues(agg: map<Window, Acc>, c: string, t0: int, t1: int): map<Window, int>
  {
    map k | k in agg && k.campaign == c && t0 <= k.start < t1 :: agg[k].impressions as int
  }

  /** Sum of the minute values of one campaign over minutes in [t0, t1). */
  ghost function RealtimeSum(agg: map<Window, Acc>, c: string, t0: int, t1: int): int
  {
    SumMap(MinuteValues(agg, c, t0, t1))
  }

  /** Rows of `late_dropped` of kind impression with event_time in [t0, t1). */
  function LateIds(late: map<string, LateRow>, c: string, t0: int, t1: int): set<string>
  {
    set id | id in late && late[id].kind == Impression && late[id].campaign == c && t0 <= late[id].time < t1
  }

  function LateCount(late: map<string, LateRow>, c: string, t0: int, t1: int): int
  {
    |LateIds(late, c, t0, t1)|
  }

  /** The residual, computed as the report computes it from the minute settlement. */
  ghost function ResidualOf(s: Sinks, list: seq<string>, d: map<string, Row>, c: string, t0: int, t1: int): int
  {
    var table := Settlement.MinuteTable(list, d);
    var batch := Settlement.SumIn(table, Settlement.Impressions, t0, t1, c);
    var ssai := Settlement.SumIn(table, Settlement.RawImpressions, t0, t1, c) - batch;
    batch - RealtimeSum(s.agg, c, t0, t1) - (LateCount(s.late, c, t0, t1) - ssai)
  }

  // ---------------------------------------------------------------- as sets of ids

  /** The impressions of one campaign and range among placed events. */
  function ImpressionsIn(events: map<string, Event>, c: string, t0: int, t1: int): set<string>
  {
    set id | id in events && events[id].kind == Impression && events[id].campaign == c && t0 <= events[id].time < t1
  }

  function FiredIn(h: History, wm: Option<int>, closed: bool, c: string, t0: int, t1: int): set<string>
  {
    set id | id in ImpressionsIn(h.counted, c, t0, t1) && Closed(wm, MinuteOf(h.counted[id].time)) == closed
  }

  /** What the batch counts before its SSAI choice. */
  function Archive(d: map<string, Row>, c: string, t0: int, t1: int): set<string>
  {
    Settlement.RangeCell(d, Raw, t0, t1, c)
  }

  /** The minute values are the counted impressions whose window fired. */
  lemma RealtimeIsFired(h: History, wm: Option<int>, c: string, t0: int, t1: int)
    requires t0 % MINUTE == 0 && t1 % MINUTE == 0
    ensures RealtimeSum(GroupBy(h.counted, wm, true), c, t0, t1) == |FiredIn(h, wm, true, c, t0, t1)|
  {
    var agg := GroupBy(h.counted, wm, true);
    var counts := MinuteValues(agg, c, t0, t1);
    var ids := FiredIn(h, wm, true, c, t0, t1);
    var group := map id | id in ids :: WindowOf(h.counted[id]);
    forall id | id in group
      ensures group[id] in counts
    {
      MinuteInRange(h.counted[id].time, t0, t1);
      assert group[id] in Groups(h.counted);
    }
    forall k | k in counts
      ensures counts[k] == |Fiber(group, k)|
    {
      FiberIsCell(h, wm, c, t0, t1, k);
    }
    hide GroupBy, FiredIn;
    CountByKey(group, counts);
    assert group.Keys == ids;
    assert |group| == |group.Keys|;
  }

  lemma FiberIsCell(h: History, wm: Option<int>, c: string, t0: int, t1: int, k: Window)
    requires t0 % MINUTE == 0 && t1 % MINUTE == 0
    requires k.campaign == c && t0 <= k.start < t1 && Closed(wm, k.start)
    ensures Fiber(map id | id in FiredIn(h, wm, true, c, t0, t1) :: WindowOf(h.counted[id]), k) == Cell(h.counted, k, Impression)
  {
    forall id | id in h.counted
      ensures t0 <= MinuteOf(h.counted[id].time) < t1 <==> t0 <= h.counted[id].time < t1
    {
      MinuteInRange(h.counted[id].time, t0, t1);
    }
    hide MinuteOf;
  }

  lemma LateIsDropped(late: map<string, LateRow>, dropped: map<string, Event>, c: string, t0: int, t1: int)
    requires Listed(late, dropped)
    ensures LateCount(late, c, t0, t1) == |ImpressionsIn(dropped, c, t0, t1)|
  {
    assert ImpressionsIn(dropped, c, t0, t1) == LateIds(late, c, t0, t1);
  }

  lemma TwoSets(b: set<string>, f: set<string>, o: set<string>, l: set<string>)
    requires f !! o
    ensures var a := f + o + l;
            |b| - |f| - |l| == |b - a| - |a - b| + |o| - |(f + o) * l|
  {
    var a := f + o + l;
    assert b == (b - a) + (b * a) && a == (a - b) + (b * a);
    assert a == (f + o) + (l - (f + o));
    assert l == (l - (f + o)) + ((f + o) * l);
  }

  lemma ResidualAsSizes(w: Windows, s: Sinks, h: History, list: seq<string>, d: map<string, Row>, c: string, t0: int, t1: int)
    requires Reflects(w, s, h)
    requires t0 % MINUTE == 0 && t1 % MINUTE == 0
    ensures ResidualOf(s, list, d, c, t0, t1) ==
            |Archive(d, c, t0, t1)| - |FiredIn(h, w.wm, true, c, t0, t1)| - |ImpressionsIn(h.dropped, c, t0, t1)|
  {
    hide MinuteOf, GroupBy, ImpressionsIn, RealtimeSum, LateCount, FiredIn;
    RealtimeIsFired(h, w.wm, c, t0, t1);
    LateIsDropped(s.late, h.dropped, c, t0, t1);
    Settlement.MinuteSums(list, d, Settlement.RawImpressions, t0, t1, c);
    hide Settlement.MinuteTable, Settlement.SumIn;
  }

  /** The reconciliation identity, for any stream, any archive and any SSAI priority: the residual
      counts the ids only the archive has, less those only the stream has, plus those in windows not
      yet fired, less those that were both counted and dropped. */
  lemma ResidualIdentity(w: Windows, s: Sinks, h: History, list: seq<string>, d: map<string, Row>, c: string, t0: int, t1: int)
    requires Reflects(w, s, h)
    requires t0 % MINUTE == 0 && t1 % MINUTE == 0
    ensures var counted, dropped := ImpressionsIn(h.counted, c, t0, t1), ImpressionsIn(h.dropped, c, t0, t1);
            var stream, archive := counted + dropped, Archive(d, c, t0, t1);
            ResidualOf(s, list, d, c, t0, t1) ==
            |archive - stream| - |stream - archive| + |FiredIn(h, w.wm, false, c, t0, t1)| - |counted * dropped|
  {
    ResidualAsSizes(w, s, h, list, d, c, t0, t1);
    hide ResidualOf, Reflects;
    var fired, open := FiredIn(h, w.wm, true, c, t0, t1), FiredIn(h, w.wm, false, c, t0, t1);
    var counted, dropped := ImpressionsIn(h.counted, c, t0, t1), ImpressionsIn(h.dropped, c, t0, t1);
    hide MinuteOf, GroupBy, ImpressionsIn, RealtimeSum, LateCount;
    assert counted == fired + open;
    assert fired !! open;
    TwoSets(Archive(d, c, t0, t1), fired, open, dropped);
  }

  // ---------------------------------------------------------------- both jobs saw the same records

  /** Copies of one id agree on the columns that decide kind and campaign. */
  ghost predicate CopiesAgree(rows: seq<Record>)
  {
    forall a, b :: a in rows && b in rows && a.eventId == b.eventId ==>
      a.topic == b.topic && a.eventType == b.eventType && a.campaign == b.campaign
  }

  /** Copies of one impression lie in one minute; their times within it may differ. */
  ghost predicate MinutesAgree(rows: seq<Record>)
  {
    forall a, b :: a in rows && b in rows && a.eventId == b.eventId && StreamImpression(a) && StreamImpression(b) ==>
      MinuteOf(a.eventTime) == MinuteOf(b.eventTime)
  }

  /** Whole minutes lie in or out of a range as one. */
  lemma SameRange(a: int, b: int, t0: int, t1: int)
    requires Aligned(t0, t1) && MinuteOf(a) == MinuteOf(b)
    ensures t0 <= a < t1 <==> t0 <= b < t1
  {
    MinuteInRange(a, t0, t1);
    MinuteInRange(b, t0, t1);
    hide MinuteOf;
  }

  /** The router sends type `impression` to the impression topic (and other types there, too). */
  ghost predicate Routed(rows: seq<Record>)
  {
    forall r :: r in rows && r.eventType == "impression" ==> r.topic == AdImpression
  }

  /** An impression to the stream: its topic and a campaign. */
  predicate StreamImpression(r: Record)
  {
    r.topic == AdImpression && r.campaign.Some?
  }

  /** An impression to the stream only: another spelling of the type, or a campaign that is not settled. */
  predicate Stray(r: Record)
  {
    StreamImpression(r) && (r.eventType != "impression" || r.campaign.value in NON_CAMPAIGN)
  }

  ghost function StrayIds(rows: seq<Record>, c: string, t0: int, t1: int): set<string>
  {
    set r | r in rows && Stray(r) && r.campaign == Some(c) && t0 <= r.eventTime < t1 :: r.eventId
  }

  /** The history holds exactly the events of the archived records. */
  ghost predicate DrawnFrom(h: History, rows: seq<Record>)
  {
    && (forall id :: id in h.counted ==> IsEventOf(h.counted[id], id, rows))
    && (forall id :: id in h.dropped ==> IsEventOf(h.dropped[id], id, rows))
    && (forall r :: r in rows && AllEvents(r).Some? ==> r.eventId in h.counted || r.eventId in h.dropped)
  }

  ghost predicate IsEventOf(ev: Event, id: string, rows: seq<Record>)
  {
    ev.id == id && exists r :: r in rows && AllEvents(r) == Some(ev)
  }

  lemma EventFields(r: Record)
    requires AllEvents(r).Some?
    ensures var ev := AllEvents(r).value;
            && ev.id == r.eventId && ev.time == r.eventTime && r.campaign == Some(ev.campaign)
            && (ev.kind == Impression <==> r.topic == AdImpression)
  {
  }

  lemma ImpressionIsEvent(r: Record)
    requires StreamImpression(r)
    ensures AllEvents(r).Some?
  {
  }

  /** The stream's impressions are those of the records. */
  lemma StreamIds(h: History, rows: seq<Record>, c: string, t0: int, t1: int)
    requires DrawnFrom(h, rows) && CopiesAgree(rows) && MinutesAgree(rows) && Aligned(t0, t1)
    ensures ImpressionsIn(h.counted, c, t0, t1) + ImpressionsIn(h.dropped, c, t0, t1) ==
            set r | r in rows && StreamImpression(r) && r.campaign == Some(c) && t0 <= r.eventTime < t1 :: r.eventId
  {
    var stream := ImpressionsIn(h.counted, c, t0, t1) + ImpressionsIn(h.dropped, c, t0, t1);
    var ids := set r | r in rows && StreamImpression(r) && r.campaign == Some(c) && t0 <= r.eventTime < t1 :: r.eventId;
    hide *;
    forall id | id in stream
      ensures id in ids
    {
      var r := PlacedFrom(h, rows, c, t0, t1, id);
    }
    forall id | id in ids
      ensures id in stream
    {
      var r :| r in rows && StreamImpression(r) && r.campaign == Some(c) && t0 <= r.eventTime < t1 && r.eventId == id;
      IsPlaced(h, rows, c, t0, t1, r);
    }
  }

  lemma PlacedFrom(h: History, rows: seq<Record>, c: string, t0: int, t1: int, id: string) returns (r: Record)
    requires DrawnFrom(h, rows)
    requires id in ImpressionsIn(h.counted, c, t0, t1) + ImpressionsIn(h.dropped, c, t0, t1)
    ensures r in rows && StreamImpression(r) && r.campaign == Some(c) && t0 <= r.eventTime < t1 && r.eventId == id
  {
    var ev := if id in ImpressionsIn(h.counted, c, t0, t1) then h.counted[id] else h.dropped[id];
    assert IsEventOf(ev, id, rows);
    hide DrawnFrom, AllEvents;
    r :| r in rows && AllEvents(r) == Some(ev);
    EventFields(r);
  }

  lemma IsPlaced(h: History, rows: seq<Record>, c: string, t0: int, t1: int, r: Record)
    requires DrawnFrom(h, rows) && CopiesAgree(rows) && MinutesAgree(rows) && Aligned(t0, t1)
    requires r in rows && StreamImpression(r) && r.campaign == Some(c) && t0 <= r.eventTime < t1
    ensures r.eventId in ImpressionsIn(h.counted, c, t0, t1) + ImpressionsIn(h.dropped, c, t0, t1)
  {
    ImpressionIsEvent(r);
    hide CopiesAgree, MinutesAgree, AllEvents, StreamImpression, IsEventOf, MinuteOf, Aligned;
    if r.eventId in h.counted {
      PlacedLike(h.counted[r.eventId], r, rows);
      SameRange(h.counted[r.eventId].time, r.eventTime, t0, t1);
    } else {
      PlacedLike(h.dropped[r.eventId], r, rows);
      SameRange(h.dropped[r.eventId].time, r.eventTime, t0, t1);
    }
  }

  /** A copy of a placed event is placed like it. */
  lemma PlacedLike(ev: Event, r: Record, rows: seq<Record>)
    requires CopiesAgree(rows) && MinutesAgree(rows) && r in rows && StreamImpression(r) && IsEventOf(ev, r.eventId, rows)
    ensures ev.kind == Impression && r.campaign == Some(ev.campaign) && MinuteOf(ev.time) == MinuteOf(r.eventTime)
  {
    hide MinuteOf;
    var q :| q in rows && AllEvents(q) == Some(ev);
    EventFields(q);
  }

  /** The batch's impressions are those of the records. */
  lemma ArchiveIds(rows: seq<Record>, d: map<string, Row>, c: string, t0: int, t1: int)
    requires IsDedup(rows, d) && CopiesAgree(rows) && MinutesAgree(rows) && Routed(rows) && Aligned(t0, t1)
    ensures Archive(d, c, t0, t1) ==
            set r | r in rows && Is(Raw, Columns(r)) && r.campaign == Some(c) && t0 <= r.eventTime < t1 :: r.eventId
  {
    var archive := Archive(d, c, t0, t1);
    var ids := set r | r in rows && Is(Raw, Columns(r)) && r.campaign == Some(c) && t0 <= r.eventTime < t1 :: r.eventId;
    hide Is, CopiesAgree, MinutesAgree, Routed, MinuteOf, Aligned;
    forall id | id in archive
      ensures id in ids
    {
      var r :| MayBeFirst(rows, r) && r.eventId == id && d[id] == Columns(r);
    }
    forall id | id in ids
      ensures id in archive
    {
      var r :| r in rows && Is(Raw, Columns(r)) && r.campaign == Some(c) && t0 <= r.eventTime < t1 && r.eventId == id;
      KeptLike(rows, d, r);
      SameRange(d[id].eventTime, r.eventTime, t0, t1);
    }
  }

  /** The row kept of an id is an impression like any of its copies, and no later. */
  lemma KeptLike(rows: seq<Record>, d: map<string, Row>, r: Record)
    requires IsDedup(rows, d) && CopiesAgree(rows) && MinutesAgree(rows) && Routed(rows) && r in rows && Is(Raw, Columns(r))
    ensures r.eventId in d && Is(Raw, d[r.eventId])
    ensures d[r.eventId].campaign == r.campaign && MinuteOf(d[r.eventId].eventTime) == MinuteOf(r.eventTime)
  {
    hide MinuteOf;
    var q :| MayBeFirst(rows, q) && q.eventId == r.eventId && d[r.eventId] == Columns(q);
  }

  /** With the same records on both sides and every window fired, what is left of the residual is
      the stray impressions and the ids that were counted and then dropped as well. */
  lemma ResidualOfSameRecords(w: Windows, s: Sinks, h: History, rows: seq<Record>, list: seq<string>, d: map<string, Row>,
                              c: string, t0: int, t1: int)
    requires Reflects(w, s, h) && w.open == map[] && DrawnFrom(h, rows)
    requires CopiesAgree(rows) && MinutesAgree(rows) && Routed(rows) && IsDedup(rows, d)
    requires t0 % MINUTE == 0 && t1 % MINUTE == 0
    ensures ResidualOf(s, list, d, c, t0, t1) ==
            - |StrayIds(rows, c, t0, t1)| - |ImpressionsIn(h.counted, c, t0, t1) * ImpressionsIn(h.dropped, c, t0, t1)|
  {
    ResidualIdentity(w, s, h, list, d, c, t0, t1);
    StreamIds(h, rows, c, t0, t1);
    ArchiveIds(rows, d, c, t0, t1);
    NothingOpen(w, h, c, t0, t1);
    StrayIsDifference(rows, c, t0, t1);
    hide Reflects, DrawnFrom, CopiesAgree, MinutesAgree, Routed, IsDedup, ResidualOf, ImpressionsIn, FiredIn, Archive, StrayIds;
  }

  lemma NothingOpen(w: Windows, h: History, c: string, t0: int, t1: int)
    requires GroupBy(h.counted, w.wm, false) == map[]
    ensures FiredIn(h, w.wm, false, c, t0, t1) == {}
  {
    hide MinuteOf, Tally;
    forall id | id in h.counted
      ensures Closed(w.wm, MinuteOf(h.counted[id].time))
    {
      var k := WindowOf(h.counted[id]);
      assert k in Groups(h.counted);
      assert !Closed(w.wm, k.start) ==> k in GroupBy(h.counted, w.wm, false);
    }
  }

  lemma StrayIsDifference(rows: seq<Record>, c: string, t0: int, t1: int)
    requires CopiesAgree(rows) && MinutesAgree(rows) && Routed(rows)
    ensures var stream := set r | r in rows && StreamImpression(r) && r.campaign == Some(c) && t0 <= r.eventTime < t1 :: r.eventId;
            var archive := set r | r in rows && Is(Raw, Columns(r)) && r.campaign == Some(c) && t0 <= r.eventTime < t1 :: r.eventId;
            archive <= stream && stream - archive == StrayIds(rows, c, t0, t1)
  {
    forall r | r in rows
      ensures Is(Raw, Columns(r)) <==> StreamImpression(r) && !Stray(r)
    {
    }
  }

  // ---------------------------------------------------------------- the job's own history

  /** The archive holds the records the stream read: no more, no less. */
  ghost predicate Archived(items: seq<Item>, rows: seq<Record>)
  {
    forall r :: r in rows <==> Arrive(r) in items
  }

  lemma ArrivedIsDrawn(h: History, items: seq<Item>, rows: seq<Record>)
    requires AllArrived(h, items) && Archived(items, rows)
    requires forall i: nat, ev :: ArrivesAt(items, i, ev) ==> ev.id in h.counted || ev.id in h.dropped
    ensures DrawnFrom(h, rows)
  {
    hide AllEvents;
    forall ev, id | Arrived(ev, id, items)
      ensures IsEventOf(ev, id, rows)
    {
      var i: nat :| ArrivesAt(items, i, ev);
      assert items[i] == Arrive(items[i].r);
    }
    forall r | r in rows && AllEvents(r).Some?
      ensures r.eventId in h.counted || r.eventId in h.dropped
    {
      var i :| 0 <= i < |items| && items[i] == Arrive(r);
      assert ArrivesAt(items, i, AllEvents(r).value);
      EventFields(r);
    }
    hide Arrived, IsEventOf;
  }

  lemma HistoryDrawn(items: seq<Item>, rows: seq<Record>)
    requires Archived(items, rows)
    ensures DrawnFrom(HistoryOf(items), rows)
  {
    HistoryArrived(items);
    forall i: nat, ev | ArrivesAt(items, i, ev)
      ensures ev.id in HistoryOf(items).counted || ev.id in HistoryOf(items).dropped
    {
      HistoryIds(items, ev.id);
    }
    ArrivedIsDrawn(HistoryOf(items), items, rows);
  }

  // ---------------------------------------------------------------- main results

  predicate Aligned(t0: int, t1: int)
  {
    t0 % MINUTE == 0 && t1 % MINUTE == 0
  }

  /** Main result. When both jobs saw the same records, no id expired and every window has fired, the
      residual of each campaign and range is minus its stray impressions, whatever the SSAI priority. */
  lemma ResidualIsStray(items: seq<Item>, rows: seq<Record>, list: seq<string>, d: map<string, Row>,
                        c: string, t0: int, t1: int)
    requires Archived(items, rows) && CopiesAgree(rows) && MinutesAgree(rows) && Routed(rows) && IsDedup(rows, d)
    requires Run(items).job.windows.open == map[] && Aligned(t0, t1)
    ensures ResidualOf(Run(items).sinks, list, d, c, t0, t1) == - |StrayIds(rows, c, t0, t1)|
  {
    RunAgrees(items);
    HistoryDrawn(items, rows);
    var w, h := Run(items), HistoryOf(items);
    ResidualOfSameRecords(w.job.windows, w.sinks, h, rows, list, d, c, t0, t1);
    hide Run, HistoryOf, Reflects, DrawnFrom, ResidualOf, StrayIds;
    assert ImpressionsIn(h.counted, c, t0, t1) * ImpressionsIn(h.dropped, c, t0, t1) == {};
  }

  /** Main result. The promise "the residual is 0", for every campaign and every range, holds exactly
      when no impression record is stray: type spelled `impression`, campaign settled. */
  lemma BalancesExactlyWhen(items: seq<Item>, rows: seq<Record>, list: seq<string>, d: map<string, Row>)
    requires Archived(items, rows) && CopiesAgree(rows) && MinutesAgree(rows) && Routed(rows) && IsDedup(rows, d)
    requires Run(items).job.windows.open == map[]
    ensures (forall c, t0, t1 :: Aligned(t0, t1) ==> ResidualOf(Run(items).sinks, list, d, c, t0, t1) == 0)
            <==> forall r :: r in rows ==> !Stray(r)
  {
    var s := Run(items).sinks;
    forall c, t0, t1 | Aligned(t0, t1)
      ensures ResidualOf(s, list, d, c, t0, t1) == - |StrayIds(rows, c, t0, t1)|
    {
      ResidualIsStray(items, rows, list, d, c, t0, t1);
    }
    hide Run, Archived, CopiesAgree, MinutesAgree, Routed, IsDedup, ResidualOf, StrayIds, Aligned;
    NoStrayIds(rows);
  }

  lemma NoStrayIds(rows: seq<Record>)
    ensures (forall c, t0, t1 :: Aligned(t0, t1) ==> |StrayIds(rows, c, t0, t1)| == 0)
            <==> forall r :: r in rows ==> !Stray(r)
  {
    hide Stray;
    if r :| r in rows && Stray(r) {
      assert r.campaign.Some? by { StrayHasCampaign(r); }
      var c, t0 := r.campaign.value, MinuteOf(r.eventTime);
      assert Aligned(t0, t0 + MINUTE);
      assert r.eventId in StrayIds(rows, c, t0, t0 + MINUTE);
    } else {
      forall c, t0, t1
        ensures StrayIds(rows, c, t0, t1) == {}
      {
      }
    }
  }

  lemma StrayHasCampaign(r: Record)
    requires Stray(r)
    ensures r.campaign.Some?
  {
  }

  /** Main result with expiry. If windows close within the TTL, or copies lie in one cell and none is
      counted again, the only further gap is the ids that were counted and, re-admitted after expiry,
      dropped as well; the residual is never positive. */
  lemma ResidualWithExpiry(xs: seq<Timed>, ttl: int, rows: seq<Record>, list: seq<string>, d: map<string, Row>,
                           c: string, t0: int, t1: int)
    requires (Monotone(xs) && ClosesInTime(xs, ttl)) || (SameCells(Items(xs)) && forall n: nat :: !Recounts(xs, ttl, n))
    requires Archived(Items(xs), rows) && CopiesAgree(rows) && MinutesAgree(rows) && Routed(rows) && IsDedup(rows, d)
    requires TtlRun(xs, ttl).job.windows.open == map[] && Aligned(t0, t1)
    ensures var h := TtlHistory(xs, ttl);
            ResidualOf(TtlRun(xs, ttl).sinks, list, d, c, t0, t1) ==
            - |StrayIds(rows, c, t0, t1)| - |ImpressionsIn(h.counted, c, t0, t1) * ImpressionsIn(h.dropped, c, t0, t1)|
  {
    if Monotone(xs) && ClosesInTime(xs, ttl) {
      ClosingInTimeNeverRecounts(xs, ttl);
    } else {
      AgreesUpTo(xs, ttl, |xs|);
      assert xs[..|xs|] == xs;
    }
    hide Monotone, ClosesInTime, SameCells, Recounts;
    TtlHistoryArrived(xs, ttl);
    var w, h := TtlRun(xs, ttl), TtlHistory(xs, ttl);
    forall i: nat, ev | ArrivesAt(Items(xs), i, ev)
      ensures ev.id in h.counted || ev.id in h.dropped
    {
      if ev.id !in TtlSeen(xs, ttl) { NeverAdmitted(xs, ttl, ev.id); }
    }
    ArrivedIsDrawn(h, Items(xs), rows);
    ResidualOfSameRecords(w.job.windows, w.sinks, h, rows, list, d, c, t0, t1);
  }

  /** A daily report takes its two batch numbers from `daily_settlement`; they are the minute sums of
      that day, and a missing row stands for zero. */
  lemma DailyReportAgrees(list: seq<string>, rows: seq<Record>, d: map<string, Row>, rates: map<string, real>, day: int, c: string)
    requires day % DAY == 0
    ensures var daily, b := Settlement.DailyTable(list, rows, d, rates), Settlement.Bucket(day, c);
            var table := Settlement.MinuteTable(list, d);
            var counts := if b in daily then daily[b].counts else Settlement.Counts(0, 0, 0, 0, 0);
            && Settlement.SumIn(table, Settlement.Impressions, day, day + DAY, c) == counts.impressions
            && Settlement.SumIn(table, Settlement.RawImpressions, day, day + DAY, c) == counts.raw
            && Aligned(day, day + DAY)
  {
    hide Settlement.MinuteTable, Settlement.SumIn, Settlement.Buckets, Settlement.CountsAt;
    Settlement.MinutesAddUpToDays(list, rows, d, rates, day, c, Settlement.Impressions);
    Settlement.MinutesAddUpToDays(list, rows, d, rates, day, c, Settlement.RawImpressions);
    hide Settlement.DailyTable;
    DayIsAligned(day);
  }

  lemma DayIsAligned(day: int)
    requires day % DAY == 0
    ensures Aligned(day, day + DAY)
  {
    DayOnMinutes(day);
  }

  /** The failing input: one record of type `ad_impression`, accepted by the router, counted by the
      stream and not by the batch, leaves a residual of -1 in its minute. */
  lemma OtherSpellingUnbalances(r: Record, list: seq<string>, d: map<string, Row>)
    requires r.topic == AdImpression && r.eventType == "ad_impression" && r.campaign.Some? && IsDedup([r], d)
    ensures var t0 := MinuteOf(r.eventTime);
            ResidualOf(Run([Arrive(r), Mark(t0 + MINUTE - 1)]).sinks, list, d, r.campaign.value, t0, t0 + MINUTE) == -1
  {
    hide *;
    var t0 := MinuteOf(r.eventTime);
    ClosesAtEnd(r, t0);
    LoneStray(r, list, d, t0, t0 + MINUTE - 1);
  }

  lemma ClosesAtEnd(r: Record, t0: int)
    requires r.topic == AdImpression && r.campaign.Some?
    ensures AllEvents(r).Some? && Closed(Some(t0 + MINUTE - 1), t0)
  {
  }

  lemma LoneStray(r: Record, list: seq<string>, d: map<string, Row>, t0: int, t: int)
    requires r.topic == AdImpression && r.eventType == "ad_impression" && r.campaign.Some? && IsDedup([r], d)
    requires AllEvents(r).Some? && t0 == MinuteOf(r.eventTime) && Closed(Some(t), t0)
    ensures ResidualOf(Run([Arrive(r), Mark(t)]).sinks, list, d, r.campaign.value, t0, t0 + MINUTE) == -1
  {
    hide *;
    OneStray(r, t);
    FiresAlone(r, t);
    ResidualIsStray([Arrive(r), Mark(t)], [r], list, d, r.campaign.value, t0, t0 + MINUTE);
  }

  lemma OneStray(r: Record, t: int)
    requires r.topic == AdImpression && r.eventType == "ad_impression" && r.campaign.Some?
    ensures Archived([Arrive(r), Mark(t)], [r]) && CopiesAgree([r]) && MinutesAgree([r]) && Routed([r])
    ensures var t0 := MinuteOf(r.eventTime);
            Aligned(t0, t0 + MINUTE) && |StrayIds([r], r.campaign.value, t0, t0 + MINUTE)| == 1
  {
    var t0 := MinuteOf(r.eventTime);
    assert Stray(r);
    hide Stray;
    assert r in [r];
    assert StrayIds([r], r.campaign.value, t0, t0 + MINUTE) == {r.eventId};
  }

  lemma FiresAlone(r: Record, t: int)
    requires AllEvents(r).Some? && Closed(Some(t), MinuteOf(r.eventTime))
    ensures Run([Arrive(r), Mark(t)]).job.windows.open == map[]
  {
    var items := [Arrive(r), Mark(t)];
    var ev := AllEvents(r).value;
    EventFields(r);
    hide AllEvents, MinuteOf, Deliver;
    assert items[..1] == [Arrive(r)] && items[..1][..0] == [];
    var k := WindowOf(ev);
    assert Run([]).job == FRESH;
    assert Run([Arrive(r)]).job.windows == Windows(None, map[k := Bump(ZERO, ev)]);
    assert Run(items).job.windows == Tick(Run([Arrive(r)]).job.windows, t).0;
  }

  // ---------------------------------------------------------------- late rows of a job that forgets

  /** The sinks hold every minute row, counting no impression too few, and every late row there must be;
      and perhaps more: of events admitted again, or of reads that a crash took back. */
  ghost predicate Beyond(items: seq<Item>, s: Sinks)
  {
    && AllAtLeast(s.agg, Run(items).sinks.agg, Of(Impression))
    && RowsArrived(items, s.late) && Run(items).sinks.late.Keys <= s.late.Keys
  }

  /** The impressions the minute rows count too many. */
  ghost function Surplus(items: seq<Item>, s: Sinks, c: string, t0: int, t1: int): int
  {
    RealtimeSum(s.agg, c, t0, t1) - RealtimeSum(Run(items).sinks.agg, c, t0, t1)
  }

  lemma SumsAtLeast(m: map<Window, Acc>, n: map<Window, Acc>, c: string, t0: int, t1: int)
    requires AllAtLeast(m, n, Of(Impression))
    ensures RealtimeSum(m, c, t0, t1) >= RealtimeSum(n, c, t0, t1)
    ensures !SomeMore(m, n, Of(Impression)) ==> RealtimeSum(m, c, t0, t1) == RealtimeSum(n, c, t0, t1)
    ensures (exists k :: k in m && k in n && k.campaign == c && t0 <= k.start < t1 && m[k].impressions > n[k].impressions) ==>
              RealtimeSum(m, c, t0, t1) > RealtimeSum(n, c, t0, t1)
  {
    var x, y := MinuteValues(m, c, t0, t1), MinuteValues(n, c, t0, t1);
    ImpressionsAtLeast(m, n);
    assert x.Keys == y.Keys;
    SumAtLeast(x, y);
    if !SomeMore(m, n, Of(Impression)) {
      SumAtLeast(y, x);
    }
    if k :| k in m && k in n && k.campaign == c && t0 <= k.start < t1 && m[k].impressions > n[k].impressions {
      assert k in y && x[k] > y[k];
    }
    hide SumMap;
  }

  lemma ImpressionsAtLeast(m: map<Window, Acc>, n: map<Window, Acc>)
    requires AllAtLeast(m, n, Of(Impression))
    ensures m.Keys == n.Keys && forall k :: k in n ==> m[k].impressions >= n[k].impressions
    ensures SomeMore(m, n, Of(Impression)) <==> exists k :: k in m && k in n && m[k].impressions > n[k].impressions
  {
    forall a: Acc
      ensures Value(a, Of(Impression)) == a.impressions
    {
    }
    hide Value;
  }

  lemma ResidualBySizes(s: Sinks, list: seq<string>, d: map<string, Row>, c: string, t0: int, t1: int)
    requires t0 % MINUTE == 0 && t1 % MINUTE == 0
    ensures ResidualOf(s, list, d, c, t0, t1) == |Archive(d, c, t0, t1)| - RealtimeSum(s.agg, c, t0, t1) - LateCount(s.late, c, t0, t1)
  {
    hide MinuteOf, RealtimeSum, LateCount;
    Settlement.MinuteSums(list, d, Settlement.RawImpressions, t0, t1, c);
    hide Settlement.MinuteTable, Settlement.SumIn;
  }

  /** A late impression is one of the stream's impressions. */
  lemma LateInStream(items: seq<Item>, rows: seq<Record>, late: map<string, LateRow>, c: string, t0: int, t1: int, id: string)
    requires Archived(items, rows) && RowsArrived(items, late) && id in LateIds(late, c, t0, t1)
    ensures id in set r | r in rows && StreamImpression(r) && r.campaign == Some(c) && t0 <= r.eventTime < t1 :: r.eventId
  {
    assert RowOf(items, id, late[id]);
    var i: nat, ev :| ArrivesAt(items, i, ev) && ev.id == id && late[id].kind == ev.kind && late[id].campaign == ev.campaign && late[id].time == ev.time;
    EventFields(items[i].r);
    hide AllEvents;
    assert items[i] == Arrive(items[i].r);
  }

  /** A dropped impression has its late row, in the same campaign and minute. */
  lemma DroppedIsLate(items: seq<Item>, rows: seq<Record>, late: map<string, LateRow>, c: string, t0: int, t1: int, id: string)
    requires Archived(items, rows) && RowsArrived(items, late) && CopiesAgree(rows) && MinutesAgree(rows) && Aligned(t0, t1)
    requires id in late && id in ImpressionsIn(HistoryOf(items).dropped, c, t0, t1)
    ensures id in LateIds(late, c, t0, t1)
  {
    HistoryArrived(items);
    PlacedAndLate(items, rows, late, id, HistoryOf(items).dropped[id]);
    hide HistoryOf;
    SameRange(HistoryOf(items).dropped[id].time, late[id].time, t0, t1);
  }

  /** A placed impression and a late row of its id agree on kind, campaign and minute. */
  lemma PlacedAndLate(items: seq<Item>, rows: seq<Record>, late: map<string, LateRow>, id: string, placed: Event)
    requires Archived(items, rows) && RowsArrived(items, late) && CopiesAgree(rows) && MinutesAgree(rows)
    requires id in late && Arrived(placed, id, items) && placed.kind == Impression
    ensures late[id].kind == Impression && late[id].campaign == placed.campaign && MinuteOf(late[id].time) == MinuteOf(placed.time)
  {
    assert RowOf(items, id, late[id]);
    var i: nat, ev :| ArrivesAt(items, i, ev) && ev.id == id && late[id].kind == ev.kind && late[id].campaign == ev.campaign && late[id].time == ev.time;
    var j: nat :| ArrivesAt(items, j, placed);
    EventFields(items[i].r);
    EventFields(items[j].r);
    hide AllEvents, MinuteOf;
    assert items[i] == Arrive(items[i].r) && items[j] == Arrive(items[j].r);
    assert StreamImpression(items[j].r) && StreamImpression(items[i].r);
  }

  lemma DroppedListed(items: seq<Item>)
    ensures Run(items).sinks.late.Keys == HistoryOf(items).dropped.Keys
  {
    RunAgrees(items);
    hide Run, HistoryOf, WatermarkOf, GroupBy;
  }

  lemma LateAndCountedAreStream(items: seq<Item>, rows: seq<Record>, s: Sinks, c: string, t0: int, t1: int)
    requires Archived(items, rows) && CopiesAgree(rows) && MinutesAgree(rows) && Aligned(t0, t1) && Beyond(items, s)
    ensures ImpressionsIn(HistoryOf(items).counted, c, t0, t1) + LateIds(s.late, c, t0, t1) ==
            set r | r in rows && StreamImpression(r) && r.campaign == Some(c) && t0 <= r.eventTime < t1 :: r.eventId
  {
    var h := HistoryOf(items);
    HistoryDrawn(items, rows);
    DroppedListed(items);
    assert ImpressionsIn(h.dropped, c, t0, t1) <= h.dropped.Keys;
    assert RowsArrived(items, s.late) && h.dropped.Keys <= s.late.Keys;
    hide *;
    StreamIds(h, rows, c, t0, t1);
    var late, dropped := LateIds(s.late, c, t0, t1), ImpressionsIn(h.dropped, c, t0, t1);
    forall id | id in late
      ensures id in ImpressionsIn(h.counted, c, t0, t1) + dropped
    {
      LateInStream(items, rows, s.late, c, t0, t1, id);
    }
    forall id | id in dropped
      ensures id in late
    {
      DroppedIsLate(items, rows, s.late, c, t0, t1, id);
    }
  }

  lemma CountedIsFired(items: seq<Item>, c: string, t0: int, t1: int)
    requires Run(items).job.windows.open == map[] && t0 % MINUTE == 0 && t1 % MINUTE == 0
    ensures RealtimeSum(Run(items).sinks.agg, c, t0, t1) == |ImpressionsIn(HistoryOf(items).counted, c, t0, t1)|
  {
    hide *;
    var w, h := Run(items).job.windows, HistoryOf(items);
    EmittedAndOpen(items);
    RealtimeIsFired(h, w.wm, c, t0, t1);
    NothingOpen(w, h, c, t0, t1);
    FiredOrOpen(h, w.wm, c, t0, t1);
  }

  lemma EmittedAndOpen(items: seq<Item>)
    ensures Run(items).sinks.agg == GroupBy(HistoryOf(items).counted, Run(items).job.windows.wm, true)
    ensures Run(items).job.windows.open == GroupBy(HistoryOf(items).counted, Run(items).job.windows.wm, false)
  {
    RunAgrees(items);
    hide Run, HistoryOf, WatermarkOf, GroupBy;
  }

  lemma FiredOrOpen(h: History, wm: Option<int>, c: string, t0: int, t1: int)
    ensures FiredIn(h, wm, false, c, t0, t1) == {} ==> FiredIn(h, wm, true, c, t0, t1) == ImpressionsIn(h.counted, c, t0, t1)
  {
    hide MinuteOf, Closed, ImpressionsIn;
    assert FiredIn(h, wm, true, c, t0, t1) + FiredIn(h, wm, false, c, t0, t1) == ImpressionsIn(h.counted, c, t0, t1);
  }

  /** Main result for such sinks: the residual is minus the stray impressions, minus those that were counted
      and have a late row as well, minus those counted too many. */
  lemma ResidualBeyond(items: seq<Item>, rows: seq<Record>, s: Sinks, list: seq<string>, d: map<string, Row>, c: string, t0: int, t1: int)
    requires Archived(items, rows) && CopiesAgree(rows) && MinutesAgree(rows) && Routed(rows) && IsDedup(rows, d)
    requires Run(items).job.windows.open == map[] && Beyond(items, s) && Aligned(t0, t1)
    ensures ResidualOf(s, list, d, c, t0, t1) ==
            - |StrayIds(rows, c, t0, t1)| - |ImpressionsIn(HistoryOf(items).counted, c, t0, t1) * LateIds(s.late, c, t0, t1)|
            - Surplus(items, s, c, t0, t1)
    ensures Surplus(items, s, c, t0, t1) >= 0
  {
    hide *;
    AlignedMinutes(t0, t1);
    ResidualBySizes(s, list, d, c, t0, t1);
    CountedIsFired(items, c, t0, t1);
    StreamAndArchive(items, rows, s, d, c, t0, t1);
    SurplusIs(items, s, c, t0, t1);
    SetsWithLate(Archive(d, c, t0, t1), ImpressionsIn(HistoryOf(items).counted, c, t0, t1), LateIds(s.late, c, t0, t1), StrayIds(rows, c, t0, t1));
  }

  lemma AlignedMinutes(t0: int, t1: int)
    requires Aligned(t0, t1)
    ensures t0 % MINUTE == 0 && t1 % MINUTE == 0
  {
  }

  lemma SurplusIs(items: seq<Item>, s: Sinks, c: string, t0: int, t1: int)
    requires Beyond(items, s)
    ensures Surplus(items, s, c, t0, t1) == RealtimeSum(s.agg, c, t0, t1) - RealtimeSum(Run(items).sinks.agg, c, t0, t1) >= 0
    ensures LateCount(s.late, c, t0, t1) == |LateIds(s.late, c, t0, t1)|
  {
    SumsAtLeast(s.agg, Run(items).sinks.agg, c, t0, t1);
    hide Run, RealtimeSum, LateIds;
  }

  /** No window counts too many. */
  ghost predicate NoSurplus(items: seq<Item>, s: Sinks)
  {
    !SomeMore(s.agg, Run(items).sinks.agg, Of(Impression))
  }

  lemma NoSurplusIsZero(items: seq<Item>, s: Sinks, c: string, t0: int, t1: int)
    requires Beyond(items, s) && NoSurplus(items, s)
    ensures Surplus(items, s, c, t0, t1) == 0
  {
    SumsAtLeast(s.agg, Run(items).sinks.agg, c, t0, t1);
    hide Run, RealtimeSum;
  }

  lemma SurplusSomewhere(items: seq<Item>, s: Sinks) returns (c: string, t0: int)
    requires Beyond(items, s) && !NoSurplus(items, s)
    ensures Aligned(t0, t0 + MINUTE) && Surplus(items, s, c, t0, t0 + MINUTE) > 0
  {
    var full := Run(items).sinks.agg;
    ImpressionsAtLeast(s.agg, full);
    var k :| k in s.agg && k in full && s.agg[k].impressions > full[k].impressions;
    c, t0 := k.campaign, k.start;
    EmittedMinute(items, k);
    NextMinute(t0);
    SumsAtLeast(s.agg, full, c, t0, t0 + MINUTE);
    hide Run, RealtimeSum;
  }

  lemma EmittedMinute(items: seq<Item>, k: Window)
    requires k in Run(items).sinks.agg
    ensures k.start % MINUTE == 0
  {
    RunAgrees(items);
    hide Run, HistoryOf, WatermarkOf, Tally;
  }

  lemma StreamAndArchive(items: seq<Item>, rows: seq<Record>, s: Sinks, d: map<string, Row>, c: string, t0: int, t1: int)
    requires Archived(items, rows) && CopiesAgree(rows) && MinutesAgree(rows) && Routed(rows) && IsDedup(rows, d)
    requires Beyond(items, s) && Aligned(t0, t1)
    ensures var stream := ImpressionsIn(HistoryOf(items).counted, c, t0, t1) + LateIds(s.late, c, t0, t1);
            Archive(d, c, t0, t1) <= stream && stream - Archive(d, c, t0, t1) == StrayIds(rows, c, t0, t1)
  {
    hide *;
    LateAndCountedAreStream(items, rows, s, c, t0, t1);
    ArchiveIds(rows, d, c, t0, t1);
    StrayIsDifference(rows, c, t0, t1);
  }

  lemma SetsWithLate(b: set<string>, f: set<string>, l: set<string>, stray: set<string>)
    requires b <= f + l && (f + l) - b == stray
    ensures |b| - |f| - |l| == - |stray| - |f * l|
  {
    TwoSets(b, f, {}, l);
    assert f + {} == f && b - (f + l) == {};
  }

  /** An impression that was counted and has a late row. */
  predicate CountedAndLate(items: seq<Item>, s: Sinks, id: string)
  {
    id in HistoryOf(items).counted && HistoryOf(items).counted[id].kind == Impression && id in s.late
  }

  lemma BothInCell(items: seq<Item>, rows: seq<Record>, s: Sinks, c: string, t0: int, t1: int, id: string)
    requires Archived(items, rows) && CopiesAgree(rows) && MinutesAgree(rows) && Aligned(t0, t1) && Beyond(items, s)
    requires CountedAndLate(items, s, id) && id in ImpressionsIn(HistoryOf(items).counted, c, t0, t1)
    ensures id in LateIds(s.late, c, t0, t1)
  {
    HistoryArrived(items);
    PlacedAndLate(items, rows, s.late, id, HistoryOf(items).counted[id]);
    hide HistoryOf, Run;
    SameRange(HistoryOf(items).counted[id].time, s.late[id].time, t0, t1);
  }

  lemma InItsMinute(items: seq<Item>, s: Sinks, id: string) returns (c: string, t0: int)
    requires CountedAndLate(items, s, id)
    ensures Aligned(t0, t0 + MINUTE) && id in ImpressionsIn(HistoryOf(items).counted, c, t0, t0 + MINUTE)
  {
    var ev := HistoryOf(items).counted[id];
    c, t0 := ev.campaign, MinuteOf(ev.time);
    NextMinute(t0);
    hide HistoryOf;
  }

  lemma NoneBoth(items: seq<Item>, s: Sinks, c: string, t0: int, t1: int)
    requires forall id :: !CountedAndLate(items, s, id)
    ensures ImpressionsIn(HistoryOf(items).counted, c, t0, t1) * LateIds(s.late, c, t0, t1) == {}
  {
    hide HistoryOf;
    var counted := ImpressionsIn(HistoryOf(items).counted, c, t0, t1);
    forall id | id in counted
      ensures id !in LateIds(s.late, c, t0, t1)
    {
      assert !CountedAndLate(items, s, id);
    }
  }

  /** Main result. For such sinks "the residual is 0", for every campaign and range, holds exactly when no
      impression is stray, none was counted and has a late row as well, and no window counts too many. */
  lemma BalancesBeyond(items: seq<Item>, rows: seq<Record>, s: Sinks, list: seq<string>, d: map<string, Row>)
    requires Archived(items, rows) && CopiesAgree(rows) && MinutesAgree(rows) && Routed(rows) && IsDedup(rows, d)
    requires Run(items).job.windows.open == map[] && Beyond(items, s)
    ensures (forall c, t0, t1 :: Aligned(t0, t1) ==> ResidualOf(s, list, d, c, t0, t1) == 0)
            <==> (forall r :: r in rows ==> !Stray(r)) && (forall id :: !CountedAndLate(items, s, id)) && NoSurplus(items, s)
  {
    hide *;
    forall c, t0, t1 | Aligned(t0, t1)
      ensures Surplus(items, s, c, t0, t1) >= 0
      ensures ResidualOf(s, list, d, c, t0, t1) ==
              - |StrayIds(rows, c, t0, t1)| - |ImpressionsIn(HistoryOf(items).counted, c, t0, t1) * LateIds(s.late, c, t0, t1)|
              - Surplus(items, s, c, t0, t1)
    {
      ResidualBeyond(items, rows, s, list, d, c, t0, t1);
    }
    NoStrayIds(rows);
    if (forall id :: !CountedAndLate(items, s, id)) && NoSurplus(items, s) {
      forall c, t0, t1
        ensures ImpressionsIn(HistoryOf(items).counted, c, t0, t1) * LateIds(s.late, c, t0, t1) == {} && Surplus(items, s, c, t0, t1) == 0
      {
        NoneBoth(items, s, c, t0, t1);
        NoSurplusIsZero(items, s, c, t0, t1);
      }
    }
    if id :| CountedAndLate(items, s, id) {
      var c, t0 := InItsMinute(items, s, id);
      BothInCell(items, rows, s, c, t0, t0 + MINUTE, id);
      assert id in ImpressionsIn(HistoryOf(items).counted, c, t0, t0 + MINUTE) * LateIds(s.late, c, t0, t0 + MINUTE);
    }
    if !NoSurplus(items, s) {
      var c, t0 := SurplusSomewhere(items, s);
    }
  }

  lemma ExpiryIsBeyond(xs: seq<Timed>, ttl: int)
    requires SameCells(Items(xs)) && Run(Items(xs)).job.windows.open == map[]
    ensures Beyond(Items(xs), TtlRun(xs, ttl).sinks)
    ensures NoSurplus(Items(xs), TtlRun(xs, ttl).sinks) <==> forall n: nat :: !RecountsIn(xs, ttl, n, Of(Impression))
  {
    hide TtlRun, Run, SameCells, RecountsIn, RowsArrived, AllAtLeast, SomeMore;
    ExpiredRowsArrive(xs, ttl);
    LateIdsGrow(xs, ttl);
    ColumnExactlyWhen(xs, ttl, Of(Impression));
  }

  /** The job that forgets, without a crash: when copies lie in one cell, the residual is 0 for every
      campaign and range exactly when no impression is stray, none was counted and has a late row as well,
      and none was counted again. */
  lemma ExpiryBalancesExactlyWhen(xs: seq<Timed>, ttl: int, rows: seq<Record>, list: seq<string>, d: map<string, Row>)
    requires SameCells(Items(xs)) && Run(Items(xs)).job.windows.open == map[]
    requires Archived(Items(xs), rows) && CopiesAgree(rows) && MinutesAgree(rows) && Routed(rows) && IsDedup(rows, d)
    ensures (forall c, t0, t1 :: Aligned(t0, t1) ==> ResidualOf(TtlRun(xs, ttl).sinks, list, d, c, t0, t1) == 0)
            <==> && (forall r :: r in rows ==> !Stray(r))
                 && (forall id :: !CountedAndLate(Items(xs), TtlRun(xs, ttl).sinks, id))
                 && forall n: nat :: !RecountsIn(xs, ttl, n, Of(Impression))
  {
    hide *;
    ExpiryIsBeyond(xs, ttl);
    BalancesBeyond(Items(xs), rows, TtlRun(xs, ttl).sinks, list, d);
  }

  // ---------------------------------------------------------------- copies that disagree on the time

  /** The pixel endpoint stamps a resent event without `ts` with the time of the resend. The failing
      input when copies disagree: the resend, in a later minute, reaches the stream first. The stream
      counts it there, the batch keeps the earlier time: -1 in one minute, +1 in the other. */
  lemma ReorderedResendUnbalances(r: Record, resend: Record, c: string, list: seq<string>, d: map<string, Row>)
    requires r.topic == AdImpression && r.campaign == Some(c) && Is(Raw, Columns(r))
    requires resend == r.(eventTime := resend.eventTime) && MinuteOf(r.eventTime) < MinuteOf(resend.eventTime)
    requires IsDedup([resend, r], d)
    ensures var early, late := MinuteOf(r.eventTime), MinuteOf(resend.eventTime);
            var s := Run(Reordered(r, resend)).sinks;
            && ResidualOf(s, list, d, c, late, late + MINUTE) == -1
            && ResidualOf(s, list, d, c, early, early + MINUTE) == 1
  {
    hide *;
    ResendIsEvent(r, resend);
    EarlierIsKept(r, resend, d);
    ReorderedHistory(r, resend);
    TwoMinutes(Reordered(r, resend), list, d, r, AllEvents(resend).value);
  }

  /** The resend, the original, and a watermark that closes the minute of the resend. */
  function Reordered(r: Record, resend: Record): seq<Item>
  {
    [Arrive(resend), Arrive(r), Mark(MinuteOf(resend.eventTime) + MINUTE - 1)]
  }

  lemma ReorderedHistory(r: Record, resend: Record)
    requires AllEvents(resend).Some? && AllEvents(r).Some? && resend.eventId == r.eventId
    ensures HistoryOf(Reordered(r, resend)) == History(map[r.eventId := AllEvents(resend).value], map[])
    ensures WatermarkOf(Reordered(r, resend)) == Some(MinuteOf(resend.eventTime) + MINUTE - 1)
  {
    ClosedAlone(r, resend, MinuteOf(resend.eventTime) + MINUTE - 1);
  }

  lemma TwoMinutes(items: seq<Item>, list: seq<string>, d: map<string, Row>, r: Record, ev: Event)
    requires r.campaign.Some? && Is(Raw, Columns(r)) && d == map[r.eventId := Columns(r)]
    requires ev.kind == Impression && ev.campaign == r.campaign.value && MinuteOf(r.eventTime) < MinuteOf(ev.time)
    requires HistoryOf(items) == History(map[r.eventId := ev], map[])
    requires WatermarkOf(items) == Some(MinuteOf(ev.time) + MINUTE - 1)
    ensures var early, late, c, s := MinuteOf(r.eventTime), MinuteOf(ev.time), r.campaign.value, Run(items).sinks;
            ResidualOf(s, list, d, c, late, late + MINUTE) == -1 && ResidualOf(s, list, d, c, early, early + MINUTE) == 1
  {
    hide *;
    OneCounted(items, list, d, r, ev, MinuteOf(ev.time));
    OneCounted(items, list, d, r, ev, MinuteOf(r.eventTime));
  }

  lemma ResendIsEvent(r: Record, resend: Record)
    requires r.topic == AdImpression && Is(Raw, Columns(r)) && resend == r.(eventTime := resend.eventTime)
    ensures r.campaign.Some? && AllEvents(r).Some? && AllEvents(resend).Some?
    ensures var ev := AllEvents(resend).value; ev.kind == Impression && ev.campaign == r.campaign.value && ev.time == resend.eventTime
  {
  }

  lemma OneCounted(items: seq<Item>, list: seq<string>, d: map<string, Row>, r: Record, ev: Event, t0: int)
    requires r.campaign.Some? && Is(Raw, Columns(r)) && d == map[r.eventId := Columns(r)]
    requires ev.kind == Impression && ev.campaign == r.campaign.value
    requires HistoryOf(items) == History(map[r.eventId := ev], map[])
    requires WatermarkOf(items) == Some(MinuteOf(ev.time) + MINUTE - 1) && t0 % MINUTE == 0
    ensures ResidualOf(Run(items).sinks, list, d, r.campaign.value, t0, t0 + MINUTE) ==
            (if MinuteOf(r.eventTime) == t0 then 1 else 0) - if MinuteOf(ev.time) == t0 then 1 else 0
  {
    hide AllEvents, Run, Is, MinuteOf, HistoryOf, WatermarkOf, Reflects, ResidualOf;
    RunAgrees(items);
    MinuteResidual(Run(items).job.windows, Run(items).sinks, HistoryOf(items), list, d, r.eventId, ev, r.campaign.value, t0);
  }

  lemma EarlierIsKept(r: Record, resend: Record, d: map<string, Row>)
    requires resend == r.(eventTime := resend.eventTime) && MinuteOf(r.eventTime) < MinuteOf(resend.eventTime)
    requires IsDedup([resend, r], d)
    ensures d == map[r.eventId := Columns(r)]
  {
    hide MinuteOf, Columns;
    assert r.eventTime < resend.eventTime by { EarlierMinute(r.eventTime, resend.eventTime); }
    var rows := [resend, r];
    assert rows[0] == resend && rows[1] == r;
    assert Earlier(r, resend) && !MayBeFirst(rows, resend);
    assert d.Keys == {r.eventId};
  }

  lemma EarlierMinute(a: int, b: int)
    requires MinuteOf(a) < MinuteOf(b)
    ensures a < b
  {
  }

  lemma ClosedAlone(r: Record, resend: Record, t: int)
    requires AllEvents(resend).Some? && AllEvents(r).Some? && resend.eventId == r.eventId
    ensures HistoryOf([Arrive(resend), Arrive(r), Mark(t)]) == History(map[r.eventId := AllEvents(resend).value], map[])
    ensures WatermarkOf([Arrive(resend), Arrive(r), Mark(t)]) == Some(t)
  {
    EventFields(r);
    EventFields(resend);
    hide AllEvents, MinuteOf;
    var items := [Arrive(resend), Arrive(r), Mark(t)];
    assert items[..2] == [Arrive(resend), Arrive(r)] && items[..2][..1] == [Arrive(resend)] && items[..2][..1][..0] == [];
    assert WatermarkOf(items[..2][..1]) == None && WatermarkOf(items[..2]) == None;
    assert HistoryOf(items[..2][..1]) == History(map[r.eventId := AllEvents(resend).value], map[]);
  }

  /** One counted impression against one settled one, in the minute that starts at t0. */
  lemma MinuteResidual(w: Windows, s: Sinks, h: History, list: seq<string>, d: map<string, Row>, id: string, ev: Event, c: string, t0: int)
    requires Reflects(w, s, h) && h == History(map[id := ev], map[]) && d.Keys == {id} && Is(Raw, d[id])
    requires ev.kind == Impression && ev.campaign == c && d[id].campaign == Some(c)
    requires Closed(w.wm, MinuteOf(ev.time)) && t0 % MINUTE == 0
    ensures ResidualOf(s, list, d, c, t0, t0 + MINUTE) ==
            (if MinuteOf(d[id].eventTime) == t0 then 1 else 0) - if MinuteOf(ev.time) == t0 then 1 else 0
  {
    hide *;
    var inArchive, inStream := MinuteOf(d[id].eventTime) == t0, MinuteOf(ev.time) == t0;
    NextMinute(t0);
    ArchiveAlone(d, id, c, t0);
    StreamAlone(h, w.wm, id, ev, c, t0);
    ResidualIdentity(w, s, h, list, d, c, t0, t0 + MINUTE);
    OneOrNone(id, inArchive, inStream);
  }

  lemma OneOrNone(id: string, x: bool, y: bool)
    ensures var a, b := if x then {id} else {}, (if y then {id} else {}) + {};
            |a - b| - |b - a| == (if x then 1 else 0) - if y then 1 else 0
    ensures |(if y then {id} else {}) * {}| == 0
  {
  }

  lemma NextMinute(t0: int)
    requires t0 % MINUTE == 0
    ensures (t0 + MINUTE) % MINUTE == 0
  {
  }

  lemma ArchiveAlone(d: map<string, Row>, id: string, c: string, t0: int)
    requires d.Keys == {id} && Is(Raw, d[id]) && d[id].campaign == Some(c) && t0 % MINUTE == 0
    ensures Archive(d, c, t0, t0 + MINUTE) == if MinuteOf(d[id].eventTime) == t0 then {id} else {}
  {
    OneMinute(d[id].eventTime, t0);
    hide MinuteOf, Is;
  }

  lemma StreamAlone(h: History, wm: Option<int>, id: string, ev: Event, c: string, t0: int)
    requires h == History(map[id := ev], map[]) && ev.kind == Impression && ev.campaign == c
    requires Closed(wm, MinuteOf(ev.time)) && t0 % MINUTE == 0
    ensures ImpressionsIn(h.counted, c, t0, t0 + MINUTE) == if MinuteOf(ev.time) == t0 then {id} else {}
    ensures ImpressionsIn(h.dropped, c, t0, t0 + MINUTE) == {} && FiredIn(h, wm, false, c, t0, t0 + MINUTE) == {}
  {
    OneMinute(ev.time, t0);
    hide MinuteOf;
  }

  lemma OneMinute(t: int, t0: int)
    requires t0 % MINUTE == 0
    ensures t0 <= t < t0 + MINUTE <==> MinuteOf(t) == t0
  {
  }
}
