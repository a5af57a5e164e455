/** Every counter of a minute, read off the archived records: what the streaming job counts or lists as
    late, what the batch counts, and which records lie between the two. */
module Columns {
  import opened Events
  import opened Realtime
  import opened Expiry
  import opened Batch
  import Settlement
  import opened Residual

  // ---------------------------------------------------------------- the stream

  /** What a record adds one to, told by its topic and fields. */
  predicate CountsRecord(r: Record, q: Count)
  {
    r.campaign.Some? &&
    match q
    case Of(Impression) => r.topic == AdImpression
    case Of(Click) => r.topic == AdClick
    case Of(Complete) => r.topic == AdQuartile && r.quartile == Some("complete")
    case Of(Quartile) => r.topic == AdQuartile && r.quartile != Some("complete")
    case Of(Request) => r.topic == AdRequest && r.eventType == "ad_response" && r.fill == Some(true) && r.campaign.value != "nofill"
    case OfTwins => r.topic == AdImpression && r.twinOf.Some?
  }

  predicate InCell(r: Record, k: Window)
  {
    r.campaign == Some(k.campaign) && MinuteOf(r.eventTime) == k.start
  }

  /** The distinct ids of one kind in one minute and campaign. */
  ghost function IdsAt(rows: seq<Record>, q: Count, k: Window): set<string>
  {
    set r | r in rows && CountsRecord(r, q) && InCell(r, k) :: r.eventId
  }

  /** Copies of one id agree on what the counters and their groups are computed from. */
  predicate Alike(a: Record, b: Record)
  {
    && a.topic == b.topic && a.eventType == b.eventType && a.campaign == b.campaign && a.quartile == b.quartile
    && a.fill == b.fill && a.twinOf.Some? == b.twinOf.Some? && MinuteOf(a.eventTime) == MinuteOf(b.eventTime)
  }

  ghost predicate CopiesAlike(rows: seq<Record>)
  {
    forall a, b :: a in rows && b in rows && a.eventId == b.eventId ==> Alike(a, b)
  }

  predicate InColumn(ev: Event, q: Count)
  {
    match q
    case Of(kind) => ev.kind == kind
    case OfTwins => ev.twin
  }

  lemma EventCounts(r: Record, q: Count)
    ensures CountsRecord(r, q) ==> AllEvents(r).Some?
    ensures AllEvents(r).Some? ==>
              var ev := AllEvents(r).value;
              && ev.id == r.eventId && ev.time == r.eventTime && r.campaign == Some(ev.campaign) && ev.adRequestId == r.adRequestId
              && (InColumn(ev, q) <==> CountsRecord(r, q))
  {
  }

  lemma AlikeCounts(a: Record, b: Record, q: Count, k: Window)
    requires Alike(a, b)
    ensures CountsRecord(a, q) && InCell(a, k) <==> CountsRecord(b, q) && InCell(b, k)
  {
    hide MinuteOf;
  }

  /** The placed ids of one kind in one minute and campaign. */
  function CellIds(events: map<string, Event>, q: Count, k: Window): set<string>
  {
    set id | id in events && InColumn(events[id], q) && WindowOf(events[id]) == k
  }

  lemma TallyIsCells(events: map<string, Event>, k: Window)
    ensures Tally(events, k) ==
            Acc(|CellIds(events, Of(Impression), k)|, |CellIds(events, Of(Click), k)|, |CellIds(events, Of(Complete), k)|,
                |CellIds(events, Of(Request), k)|, |CellIds(events, OfTwins, k)|)
  {
    hide WindowOf;
    assert Cell(events, k, Impression) == CellIds(events, Of(Impression), k);
    assert Cell(events, k, Click) == CellIds(events, Of(Click), k);
    assert Cell(events, k, Complete) == CellIds(events, Of(Complete), k);
    assert Cell(events, k, Request) == CellIds(events, Of(Request), k);
    assert Twins(events, k) == CellIds(events, OfTwins, k);
  }

  /** A placed event sits where any copy of its record says. */
  lemma PlacedAs(ev: Event, rows: seq<Record>, r: Record, q: Count, k: Window)
    requires CopiesAlike(rows) && r in rows && IsEventOf(ev, r.eventId, rows)
    ensures InColumn(ev, q) && WindowOf(ev) == k <==> CountsRecord(r, q) && InCell(r, k)
  {
    var p :| p in rows && AllEvents(p) == Some(ev);
    EventCounts(p, q);
    hide AllEvents, CountsRecord, InColumn, MinuteOf;
    AlikeCounts(p, r, q, k);
    hide Alike;
  }

  ghost predicate AreEvents(events: map<string, Event>, rows: seq<Record>)
  {
    forall id :: id in events ==> IsEventOf(events[id], id, rows)
  }

  /** The part of a history in one cell is the cell's ids, as far as they were placed in that part. */
  lemma PartIds(events: map<string, Event>, rows: seq<Record>, q: Count, k: Window)
    requires CopiesAlike(rows) && AreEvents(events, rows)
    ensures CellIds(events, q, k) == IdsAt(rows, q, k) * events.Keys
  {
    hide CopiesAlike, CountsRecord, InCell, InColumn, WindowOf, AllEvents;
    forall id | id in events
      ensures id in CellIds(events, q, k) <==> id in IdsAt(rows, q, k)
    {
      assert IsEventOf(events[id], id, rows);
      if id in IdsAt(rows, q, k) {
        var r :| r in rows && CountsRecord(r, q) && InCell(r, k) && r.eventId == id;
        PlacedAs(events[id], rows, r, q, k);
      } else {
        var r :| r in rows && AllEvents(r) == Some(events[id]);
        EventCounts(r, q);
        PlacedAs(events[id], rows, r, q, k);
      }
    }
  }

  lemma AllPlaced(h: History, rows: seq<Record>, q: Count, k: Window)
    requires DrawnFrom(h, rows)
    ensures IdsAt(rows, q, k) <= h.counted.Keys + h.dropped.Keys
  {
    hide CountsRecord, AllEvents, InCell;
    forall r | r in rows && CountsRecord(r, q)
      ensures r.eventId in h.counted || r.eventId in h.dropped
    {
      EventCounts(r, q);
    }
  }

  /** The counted ids of a cell are those that have no late row. */
  lemma CountedIds(items: seq<Item>, rows: seq<Record>, q: Count, k: Window)
    requires Archived(items, rows) && CopiesAlike(rows)
    ensures CellIds(HistoryOf(items).counted, q, k) == IdsAt(rows, q, k) - Run(items).sinks.late.Keys
    ensures CellIds(HistoryOf(items).dropped, q, k) == IdsAt(rows, q, k) * Run(items).sinks.late.Keys
  {
    hide *;
    var h := HistoryOf(items);
    HistoryDrawn(items, rows);
    DroppedListed(items);
    PlacedOnce(items);
    BothAreEvents(h, rows);
    AllPlaced(h, rows, q, k);
    PartIds(h.counted, rows, q, k);
    PartIds(h.dropped, rows, q, k);
    TwoParts(IdsAt(rows, q, k), h.counted.Keys, h.dropped.Keys);
  }

  lemma TwoParts(ids: set<string>, a: set<string>, b: set<string>)
    requires ids <= a + b && a !! b
    ensures ids * a == ids - b
  {
  }

  lemma BothAreEvents(h: History, rows: seq<Record>)
    requires DrawnFrom(h, rows)
    ensures AreEvents(h.counted, rows) && AreEvents(h.dropped, rows)
  {
    hide IsEventOf, AllEvents;
  }

  lemma PlacedOnce(items: seq<Item>)
    ensures HistoryOf(items).counted.Keys !! HistoryOf(items).dropped.Keys
  {
    RunAgrees(items);
    hide Run, HistoryOf, WatermarkOf, Reflects;
  }

  /** The minute row of a window; a window that never opened counts nothing. */
  function RowAt(agg: map<Window, Acc>, k: Window): Acc
  {
    if k in agg then agg[k] else ZERO
  }

  lemma RowIsTally(items: seq<Item>, k: Window)
    requires Run(items).job.windows.open == map[]
    ensures RowAt(Run(items).sinks.agg, k) == Tally(HistoryOf(items).counted, k)
  {
    EmittedAndOpen(items);
    hide Run, HistoryOf, Tally, MinuteOf;
    var counted, wm := HistoryOf(items).counted, Run(items).job.windows.wm;
    if k !in Groups(counted) {
      TallyAbsent(counted, k);
    } else {
      assert !Closed(wm, k.start) ==> k in GroupBy(counted, wm, false);
    }
  }

  /** Main result. With every window fired, each counter of each minute and campaign is the number of distinct
      ids that the archive holds there in records of its kind, without those that have a late row. */
  lemma MinuteRowIs(items: seq<Item>, rows: seq<Record>, k: Window)
    requires Archived(items, rows) && CopiesAlike(rows) && Run(items).job.windows.open == map[]
    ensures var late := Run(items).sinks.late.Keys;
            RowAt(Run(items).sinks.agg, k) ==
            Acc(|IdsAt(rows, Of(Impression), k) - late|, |IdsAt(rows, Of(Click), k) - late|,
                |IdsAt(rows, Of(Complete), k) - late|, |IdsAt(rows, Of(Request), k) - late|,
                |IdsAt(rows, OfTwins, k) - late|)
  {
    hide *;
    RowIsTally(items, k);
    TallyIsCells(HistoryOf(items).counted, k);
    CountedIds(items, rows, Of(Impression), k);
    CountedIds(items, rows, Of(Click), k);
    CountedIds(items, rows, Of(Complete), k);
    CountedIds(items, rows, Of(Request), k);
    CountedIds(items, rows, OfTwins, k);
  }

  function LateAt(late: map<string, LateRow>, kind: Kind, k: Window): set<string>
  {
    set id | id in late && late[id].kind == kind && late[id].campaign == k.campaign && MinuteOf(late[id].time) == k.start
  }

  lemma ListedAt(late: map<string, LateRow>, dropped: map<string, Event>, kind: Kind, k: Window)
    requires Listed(late, dropped)
    ensures LateAt(late, kind, k) == CellIds(dropped, Of(kind), k)
  {
    hide MinuteOf;
  }

  /** The late rows of one kind, minute and campaign are the ids of such records that have a late row at all. */
  lemma LateRowsAre(items: seq<Item>, rows: seq<Record>, kind: Kind, k: Window)
    requires Archived(items, rows) && CopiesAlike(rows)
    ensures LateAt(Run(items).sinks.late, kind, k) == IdsAt(rows, Of(kind), k) * Run(items).sinks.late.Keys
  {
    LateListed(items);
    hide *;
    ListedAt(Run(items).sinks.late, HistoryOf(items).dropped, kind, k);
    CountedIds(items, rows, Of(kind), k);
  }

  lemma LateListed(items: seq<Item>)
    ensures Listed(Run(items).sinks.late, HistoryOf(items).dropped)
  {
    RunAgrees(items);
    hide Run, HistoryOf, WatermarkOf, GroupBy, Listed;
  }

  /** A late row says of its id what a record said that arrived with it, and which watermark was too high for it. */
  lemma LateRowSays(items: seq<Item>, rows: seq<Record>, id: string, kind: Kind) returns (r: Record)
    requires Archived(items, rows) && id in Run(items).sinks.late
    ensures r in rows && r.eventId == id
    ensures var row := Run(items).sinks.late[id];
            && (row.kind == kind <==> CountsRecord(r, Of(kind)))
            && Some(row.campaign) == r.campaign && row.adRequestId == r.adRequestId && row.time == r.eventTime
            && row.windowEnd == MinuteOf(r.eventTime) + MINUTE && row.watermark >= row.windowEnd - 1
  {
    LateListed(items);
    HistoryDrawn(items, rows);
    hide Run, HistoryOf, AllEvents, Archived, CountsRecord;
    var ev := HistoryOf(items).dropped[id];
    assert IsEventOf(ev, id, rows);
    r :| r in rows && AllEvents(r) == Some(ev);
    EventCounts(r, Of(kind));
  }

  // ---------------------------------------------------------------- the batch

  /** The type under which the batch looks for a kind. */
  function TypeOf(kind: Kind): string
  {
    match kind
    case Impression => "impression"
    case Click => "click"
    case Complete => "quartile"
    case Quartile => "quartile"
    case Request => "ad_response"
  }

  /** The router: these four types go to these topics. */
  ghost predicate TypesRouted(rows: seq<Record>)
  {
    forall r :: r in rows ==>
      && (r.eventType == "impression" ==> r.topic == AdImpression)
      && (r.eventType == "click" ==> r.topic == AdClick)
      && (r.eventType == "quartile" ==> r.topic == AdQuartile)
      && (r.eventType == "ad_response" ==> r.topic == AdRequest)
  }

  /** A record the stream counts and the batch does not: its type is spelled otherwise, or its campaign is no campaign. */
  predicate Unsettled(r: Record, kind: Kind)
  {
    CountsRecord(r, Of(kind)) && (r.eventType != TypeOf(kind) || r.campaign.value in {"none", "nofill", "pending"})
  }

  ghost function UnsettledAt(rows: seq<Record>, kind: Kind, k: Window): set<string>
  {
    set r | r in rows && Unsettled(r, kind) && InCell(r, k) :: r.eventId
  }

  /** The counter of a kind, before the SSAI choice. */
  function MeasureFor(kind: Kind): Measure
  {
    match kind
    case Impression => Raw
    case Click => Clicks
    case Complete => Completes
    case Quartile => Completes
    case Request => Requests
  }

  lemma SettledIs(rows: seq<Record>, r: Record, kind: Kind)
    requires TypesRouted(rows) && r in rows && kind != Quartile
    ensures Is(MeasureFor(kind), Columns(r)) <==> CountsRecord(r, Of(kind)) && !Unsettled(r, kind)
  {
  }

  lemma AlikeSettled(a: Record, b: Record, m: Measure, k: Window)
    requires Alike(a, b)
    ensures Is(m, Columns(a)) && InCell(a, k) <==> Is(m, Columns(b)) && InCell(b, k)
    ensures forall kind :: Unsettled(a, kind) <==> Unsettled(b, kind)
  {
    hide MinuteOf;
  }

  /** The row kept of an id counts where any copy does. */
  lemma KeptAs(rows: seq<Record>, d: map<string, Row>, r: Record, m: Measure, k: Window)
    requires IsDedup(rows, d) && CopiesAlike(rows) && r in rows
    ensures r.eventId in d
    ensures r.eventId in Settlement.Cell(d, m, Settlement.PerMinute, Settlement.Bucket(k.start, k.campaign)) <==>
            Is(m, Columns(r)) && InCell(r, k)
  {
    var p :| MayBeFirst(rows, p) && p.eventId == r.eventId && d[r.eventId] == Columns(p);
    assert Alike(p, r);
    hide CopiesAlike, IsDedup, MayBeFirst, Is, MinuteOf, Alike;
    AlikeSettled(p, r, m, k);
  }

  lemma CellIsSettled(rows: seq<Record>, d: map<string, Row>, kind: Kind, k: Window)
    requires IsDedup(rows, d) && CopiesAlike(rows) && TypesRouted(rows) && kind != Quartile
    ensures Settlement.Cell(d, MeasureFor(kind), Settlement.PerMinute, Settlement.Bucket(k.start, k.campaign)) ==
            IdsAt(rows, Of(kind), k) - UnsettledAt(rows, kind, k)
  {
    var m, b := MeasureFor(kind), Settlement.Bucket(k.start, k.campaign);
    var cell := Settlement.Cell(d, m, Settlement.PerMinute, b);
    var ids, without := IdsAt(rows, Of(kind), k), UnsettledAt(rows, kind, k);
    hide *;
    forall id | id in cell
      ensures id in ids && id !in without
    {
      var r := RowFrom(rows, d, m, b, id);
      KeptAs(rows, d, r, m, k);
      SettledIs(rows, r, kind);
      InIds(rows, r, kind, k);
    }
    forall id | id in ids && id !in without
      ensures id in cell
    {
      var r := RecordAt(rows, Of(kind), k, id);
      InIds(rows, r, kind, k);
      SettledIs(rows, r, kind);
      KeptAs(rows, d, r, m, k);
    }
  }

  lemma RowFrom(rows: seq<Record>, d: map<string, Row>, m: Measure, b: Settlement.Bucket, id: string) returns (r: Record)
    requires IsDedup(rows, d) && id in Settlement.Cell(d, m, Settlement.PerMinute, b)
    ensures r in rows && r.eventId == id
  {
    hide Is, MinuteOf;
    r :| MayBeFirst(rows, r) && r.eventId == id && d[id] == Columns(r);
  }

  lemma RecordAt(rows: seq<Record>, q: Count, k: Window, id: string) returns (r: Record)
    requires id in IdsAt(rows, q, k)
    ensures r in rows && CountsRecord(r, q) && InCell(r, k) && r.eventId == id
  {
    r :| r in rows && CountsRecord(r, q) && InCell(r, k) && r.eventId == id;
  }

  lemma InIds(rows: seq<Record>, r: Record, kind: Kind, k: Window)
    requires CopiesAlike(rows) && r in rows && InCell(r, k)
    ensures CountsRecord(r, Of(kind)) ==> r.eventId in IdsAt(rows, Of(kind), k)
    ensures r.eventId in UnsettledAt(rows, kind, k) <==> Unsettled(r, kind)
  {
    hide CountsRecord, Unsettled, InCell;
    if r.eventId in UnsettledAt(rows, kind, k) {
      var p :| p in rows && Unsettled(p, kind) && InCell(p, k) && p.eventId == r.eventId;
      AlikeSettled(p, r, Raw, k);
    }
  }

  /** A minute of the settlement; an absent one counts nothing. */
  function MinuteAt(table: map<Settlement.Bucket, Settlement.Counts>, k: Window): Settlement.Counts
  {
    var b := Settlement.Bucket(k.start, k.campaign);
    if b in table then table[b] else Settlement.Counts(0, 0, 0, 0, 0)
  }

  lemma MinuteIsCells(list: seq<string>, d: map<string, Row>, k: Window)
    ensures var at, b := MinuteAt(Settlement.MinuteTable(list, d), k), Settlement.Bucket(k.start, k.campaign);
            && at.raw == |Settlement.Cell(d, Raw, Settlement.PerMinute, b)|
            && at.clicks == |Settlement.Cell(d, Clicks, Settlement.PerMinute, b)|
            && at.completes == |Settlement.Cell(d, Completes, Settlement.PerMinute, b)|
            && at.requests == |Settlement.Cell(d, Requests, Settlement.PerMinute, b)|
            && at.impressions == |Settlement.BestOf(list, d, Settlement.Cell(d, Raw, Settlement.PerMinute, b))|
  {
    Settlement.RowImpressions(list, d, Settlement.PerMinute, Settlement.Bucket(k.start, k.campaign));
    var b := Settlement.Bucket(k.start, k.campaign);
    hide Is, Chosen, ImpAll, MinuteOf;
    forall m: Measure | b !in Settlement.Buckets(d, m, Settlement.PerMinute)
      ensures Settlement.Cell(d, m, Settlement.PerMinute, b) == {}
    {
      NoBucket(d, m, b);
    }
    assert Settlement.BestOf(list, d, {}) == {};
    hide Settlement.Cell, Settlement.Buckets, Settlement.BestOf;
  }

  lemma NoBucket(d: map<string, Row>, m: Measure, b: Settlement.Bucket)
    requires b !in Settlement.Buckets(d, m, Settlement.PerMinute)
    ensures Settlement.Cell(d, m, Settlement.PerMinute, b) == {}
  {
    hide MinuteOf;
    forall id | id in d && Is(m, d[id])
      ensures Settlement.Bucket(Settlement.Floor(Settlement.PerMinute, d[id].eventTime), d[id].campaign.value) in Settlement.Buckets(d, m, Settlement.PerMinute)
    {
    }
  }

  /** The ids of one kind that the batch counts: those of the stream but the unsettled. */
  ghost function SettledAt(rows: seq<Record>, kind: Kind, k: Window): set<string>
  {
    IdsAt(rows, Of(kind), k) - UnsettledAt(rows, kind, k)
  }

  /** Main result. Each counter of each minute of the settlement is the number of distinct ids that the stream
      counts or lists as late there, without those of another spelling or of no campaign; impressions are the best
      of each ad request among the raw ones. */
  lemma SettlementIs(rows: seq<Record>, list: seq<string>, d: map<string, Row>, k: Window)
    requires IsDedup(rows, d) && CopiesAlike(rows) && TypesRouted(rows)
    ensures var at := MinuteAt(Settlement.MinuteTable(list, d), k);
            && at.raw == |SettledAt(rows, Impression, k)| && at.clicks == |SettledAt(rows, Click, k)|
            && at.completes == |SettledAt(rows, Complete, k)| && at.requests == |SettledAt(rows, Request, k)|
            && at.impressions == |Settlement.BestOf(list, d, SettledAt(rows, Impression, k))|
  {
    assert MeasureFor(Impression) == Raw && MeasureFor(Click) == Clicks;
    assert MeasureFor(Complete) == Completes && MeasureFor(Request) == Requests;
    hide *;
    MinuteIsCells(list, d, k);
    CellIsSettled(rows, d, Impression, k);
    CellIsSettled(rows, d, Click, k);
    CellIsSettled(rows, d, Complete, k);
    CellIsSettled(rows, d, Request, k);
    forall kind: Kind
      ensures SettledAt(rows, kind, k) == IdsAt(rows, Of(kind), k) - UnsettledAt(rows, kind, k)
    {
      SettledAtIs(rows, kind, k);
    }
  }

  lemma SettledAtIs(rows: seq<Record>, kind: Kind, k: Window)
    ensures SettledAt(rows, kind, k) == IdsAt(rows, Of(kind), k) - UnsettledAt(rows, kind, k)
    ensures UnsettledAt(rows, kind, k) <= IdsAt(rows, Of(kind), k)
  {
    hide IdsAt, InCell;
    forall r | Unsettled(r, kind)
      ensures CountsRecord(r, Of(kind))
    {
    }
    hide Unsettled, CountsRecord;
    UnsettledInIds(rows, kind, k);
  }

  lemma UnsettledInIds(rows: seq<Record>, kind: Kind, k: Window)
    requires forall r :: Unsettled(r, kind) ==> CountsRecord(r, Of(kind))
    ensures UnsettledAt(rows, kind, k) <= IdsAt(rows, Of(kind), k)
  {
    hide Unsettled, CountsRecord, InCell;
  }

  // ---------------------------------------------------------------- the two together

  function SettledCount(at: Settlement.Counts, kind: Kind): nat
  {
    match kind
    case Impression => at.raw
    case Click => at.clicks
    case Complete => at.completes
    case Request => at.requests
    case Quartile => 0
  }

  /** Main result. In every minute, campaign and column: online count plus late rows is the settled count plus
      the records that the batch does not settle. */
  lemma ColumnIdentity(items: seq<Item>, rows: seq<Record>, list: seq<string>, d: map<string, Row>, kind: Kind, k: Window)
    requires Archived(items, rows) && CopiesAlike(rows) && TypesRouted(rows) && IsDedup(rows, d)
    requires Run(items).job.windows.open == map[] && kind != Quartile
    ensures var s := Run(items).sinks;
            && Value(RowAt(s.agg, k), Of(kind)) + |LateAt(s.late, kind, k)| == |IdsAt(rows, Of(kind), k)|
            && |IdsAt(rows, Of(kind), k)| == SettledCount(MinuteAt(Settlement.MinuteTable(list, d), k), kind) + |UnsettledAt(rows, kind, k)|
  {
    hide *;
    RowAndLate(items, rows, kind, k);
    SettledAndRest(rows, list, d, kind, k);
  }

  lemma RowAndLate(items: seq<Item>, rows: seq<Record>, kind: Kind, k: Window)
    requires Archived(items, rows) && CopiesAlike(rows) && Run(items).job.windows.open == map[] && kind != Quartile
    ensures Value(RowAt(Run(items).sinks.agg, k), Of(kind)) + |LateAt(Run(items).sinks.late, kind, k)| == |IdsAt(rows, Of(kind), k)|
  {
    hide *;
    RowValue(items, rows, kind, k);
    LateRowsAre(items, rows, kind, k);
    Parts(IdsAt(rows, Of(kind), k), Run(items).sinks.late.Keys);
  }

  lemma SettledAndRest(rows: seq<Record>, list: seq<string>, d: map<string, Row>, kind: Kind, k: Window)
    requires IsDedup(rows, d) && CopiesAlike(rows) && TypesRouted(rows) && kind != Quartile
    ensures |IdsAt(rows, Of(kind), k)| == SettledCount(MinuteAt(Settlement.MinuteTable(list, d), k), kind) + |UnsettledAt(rows, kind, k)|
  {
    hide *;
    SettledValue(rows, list, d, kind, k);
    SettledAtIs(rows, kind, k);
    var ids, without := IdsAt(rows, Of(kind), k), UnsettledAt(rows, kind, k);
    Parts(ids, without);
    assert ids * without == without;
  }

  lemma RowValue(items: seq<Item>, rows: seq<Record>, kind: Kind, k: Window)
    requires Archived(items, rows) && CopiesAlike(rows) && Run(items).job.windows.open == map[] && kind != Quartile
    ensures Value(RowAt(Run(items).sinks.agg, k), Of(kind)) == |IdsAt(rows, Of(kind), k) - Run(items).sinks.late.Keys|
  {
    MinuteRowIs(items, rows, k);
    hide Run, IdsAt, Archived, CopiesAlike, RowAt;
  }

  lemma SettledValue(rows: seq<Record>, list: seq<string>, d: map<string, Row>, kind: Kind, k: Window)
    requires IsDedup(rows, d) && CopiesAlike(rows) && TypesRouted(rows) && kind != Quartile
    ensures SettledCount(MinuteAt(Settlement.MinuteTable(list, d), k), kind) == |SettledAt(rows, kind, k)|
  {
    SettlementIs(rows, list, d, k);
    hide IsDedup, CopiesAlike, TypesRouted, SettledAt, MinuteAt, Settlement.MinuteTable;
  }

  lemma Parts(ids: set<string>, s: set<string>)
    ensures |ids| == |ids - s| + |ids * s|
  {
    assert ids == (ids - s) + (ids * s);
  }

  /** So a column balances in every minute and campaign exactly when no record of its kind is unsettled. */
  lemma ColumnBalancesExactlyWhen(items: seq<Item>, rows: seq<Record>, list: seq<string>, d: map<string, Row>, kind: Kind)
    requires Archived(items, rows) && CopiesAlike(rows) && TypesRouted(rows) && IsDedup(rows, d)
    requires Run(items).job.windows.open == map[] && kind != Quartile
    ensures (forall k :: Value(RowAt(Run(items).sinks.agg, k), Of(kind)) + |LateAt(Run(items).sinks.late, kind, k)| ==
                         SettledCount(MinuteAt(Settlement.MinuteTable(list, d), k), kind))
            <==> forall r :: r in rows ==> !Unsettled(r, kind)
  {
    hide *;
    forall k
      ensures Value(RowAt(Run(items).sinks.agg, k), Of(kind)) + |LateAt(Run(items).sinks.late, kind, k)| ==
              SettledCount(MinuteAt(Settlement.MinuteTable(list, d), k), kind) + |UnsettledAt(rows, kind, k)|
    {
      ColumnIdentity(items, rows, list, d, kind, k);
    }
    if r :| r in rows && Unsettled(r, kind) {
      var k := InItsCell(rows, r, kind);
    } else {
      forall k
        ensures UnsettledAt(rows, kind, k) == {}
      {
        NoneUnsettled(rows, kind, k);
      }
    }
  }

  lemma InItsCell(rows: seq<Record>, r: Record, kind: Kind) returns (k: Window)
    requires r in rows && Unsettled(r, kind)
    ensures r.eventId in UnsettledAt(rows, kind, k)
  {
    assert r.campaign.Some?;
    k := Window(MinuteOf(r.eventTime), r.campaign.value);
    hide Unsettled, MinuteOf;
  }

  lemma NoneUnsettled(rows: seq<Record>, kind: Kind, k: Window)
    requires forall r :: r in rows ==> !Unsettled(r, kind)
    ensures UnsettledAt(rows, kind, k) == {}
  {
    hide Unsettled;
  }
}
