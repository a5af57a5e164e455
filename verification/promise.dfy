/** When the promise "the residual is 0" holds whatever the order in which the stream reads the records. */
module Promise {
  import opened Events
  import opened Realtime
  import opened Batch
  import opened Residual

  /** For one order of arrival: the residual is 0 for every campaign and range of whole minutes. */
  ghost predicate Balances(items: seq<Item>, list: seq<string>, d: map<string, Row>)
  {
    forall c, t0, t1 :: Aligned(t0, t1) ==> ResidualOf(Run(items).sinks, list, d, c, t0, t1) == 0
  }

  /** For every order of arrival, copies included, with any watermarks that fire every window in the end. */
  ghost predicate AlwaysBalances(rows: seq<Record>, list: seq<string>, d: map<string, Row>)
  {
    forall items :: Archived(items, rows) && Run(items).job.windows.open == map[] ==> Balances(items, list, d)
  }

  // ---------------------------------------------------------------- streams made of given records

  function Arrivals(rs: seq<Record>): (items: seq<Item>)
    ensures |items| == |rs| && forall i :: 0 <= i < |rs| ==> items[i] == Arrive(rs[i])
  {
    seq(|rs|, i requires 0 <= i < |rs| => Arrive(rs[i]))
  }

  /** The records in this order, then a watermark. */
  function Stream(rs: seq<Record>, t: int): seq<Item>
  {
    Arrivals(rs) + [Mark(t)]
  }

  /** A time by which the minute of every record is closed. */
  function Horizon(rows: seq<Record>): (t: int)
    ensures forall r :: r in rows ==> r.eventTime + MINUTE <= t
  {
    if rows == [] then 0
    else
      var t, u := Horizon(rows[..|rows| - 1]), rows[|rows| - 1].eventTime + MINUTE;
      assert forall r :: r in rows ==> r in rows[..|rows| - 1] || r == rows[|rows| - 1];
      if t < u then u else t
  }

  lemma {:induction false} NoWatermark(rs: seq<Record>)
    ensures WatermarkOf(Arrivals(rs)) == None
    ensures HistoryOf(Arrivals(rs)).dropped == map[]
  {
    if rs != [] {
      var n := |rs| - 1;
      assert Arrivals(rs)[..n] == Arrivals(rs[..n]);
      NoWatermark(rs[..n]);
      hide AllEvents, MinuteOf;
    }
  }

  lemma StreamHistory(rs: seq<Record>, t: int)
    ensures HistoryOf(Stream(rs, t)) == HistoryOf(Arrivals(rs)) && WatermarkOf(Stream(rs, t)) == Some(t)
  {
    NoWatermark(rs);
    assert Stream(rs, t)[..|rs|] == Arrivals(rs);
    hide AllEvents, MinuteOf;
  }

  /** The first event of an id is the one counted. */
  lemma FirstIsCounted(rs: seq<Record>, i: nat)
    requires i < |rs| && AllEvents(rs[i]).Some?
    requires forall j :: 0 <= j < i && AllEvents(rs[j]).Some? ==> rs[j].eventId != rs[i].eventId
    ensures var h, ev := HistoryOf(Arrivals(rs)), AllEvents(rs[i]).value;
            rs[i].eventId in h.counted && h.counted[rs[i].eventId] == ev
  {
    var items, ev := Arrivals(rs), AllEvents(rs[i]).value;
    EventFields(rs[i]);
    forall j: nat, e | j < i && ArrivesAt(items, j, e)
      ensures e.id != ev.id
    {
      EventFields(rs[j]);
    }
    assert ArrivesAt(items, i, ev);
    assert items[..i] == Arrivals(rs[..i]);
    NoWatermark(rs[..i]);
    hide AllEvents, MinuteOf, HistoryOf, WatermarkOf;
    FirstArrivalDecides(items, i, ev);
  }

  /** If an event with this id is among the records, one is the first. */
  lemma {:induction false} FirstWith(rs: seq<Record>, k: nat, id: string) returns (i: nat)
    requires k < |rs| && AllEvents(rs[k]).Some? && rs[k].eventId == id
    ensures i <= k && AllEvents(rs[i]).Some? && rs[i].eventId == id
    ensures forall j :: 0 <= j < i && AllEvents(rs[j]).Some? ==> rs[j].eventId != id
  {
    hide AllEvents;
    i := 0;
    while !(AllEvents(rs[i]).Some? && rs[i].eventId == id)
      invariant i <= k
      invariant forall j :: 0 <= j < i && AllEvents(rs[j]).Some? ==> rs[j].eventId != id
      decreases k - i
    {
      i := i + 1;
    }
  }

  lemma StreamFires(rs: seq<Record>, rows: seq<Record>)
    requires forall r :: r in rs ==> r in rows
    ensures Run(Stream(rs, Horizon(rows))).job.windows.open == map[]
    ensures Run(Stream(rs, Horizon(rows))).job.windows.wm == Some(Horizon(rows))
  {
    var t := Horizon(rows);
    var items := Stream(rs, t);
    RunAgrees(items);
    StreamHistory(rs, t);
    HistoryArrived(items);
    var h := HistoryOf(items);
    forall id | id in h.counted
      ensures Closed(Some(t), MinuteOf(h.counted[id].time))
    {
      hide *;
      PlacedBefore(rs, rows, id, h.counted[id]);
    }
    hide Run, HistoryOf, WatermarkOf, Tally, MinuteOf, AllArrived, Stream, Closed;
    assert GroupBy(h.counted, Some(t), false) == map[];
  }

  lemma PlacedBefore(rs: seq<Record>, rows: seq<Record>, id: string, ev: Event)
    requires forall r :: r in rs ==> r in rows
    requires Arrived(ev, id, Stream(rs, Horizon(rows)))
    ensures Closed(Some(Horizon(rows)), MinuteOf(ev.time))
  {
    var i: nat :| ArrivesAt(Stream(rs, Horizon(rows)), i, ev);
    assert rs[i] in rs;
    EventFields(rs[i]);
    hide AllEvents;
  }

  lemma StreamArchived(rs: seq<Record>, rows: seq<Record>, t: int)
    requires forall r :: r in rs <==> r in rows
    ensures Archived(Stream(rs, t), rows)
  {
    var items := Stream(rs, t);
    forall r | r in rs
      ensures Arrive(r) in items
    {
      var i :| 0 <= i < |rs| && rs[i] == r;
      assert items[i] == Arrive(r);
    }
    forall r | Arrive(r) in items
      ensures r in rs
    {
      var i :| 0 <= i < |items| && items[i] == Arrive(r);
      assert rs[i] == r;
    }
  }

  // ---------------------------------------------------------------- an order that unbalances

  /** A row like the one the batch keeps of its id. */
  predicate IsKept(d: map<string, Row>, r: Record)
  {
    r.eventId in d && d[r.eventId] == Columns(r)
  }

  function Kept(rows: seq<Record>, d: map<string, Row>): (kept: seq<Record>)
    ensures forall r :: r in kept <==> r in rows && IsKept(d, r)
  {
    if rows == [] then []
    else
      var r := rows[|rows| - 1];
      assert forall q :: q in rows <==> q in rows[..|rows| - 1] || q == r;
      Kept(rows[..|rows| - 1], d) + if IsKept(d, r) then [r] else []
  }

  /** One chosen copy first, then the rows the batch keeps, then everything. */
  function CopyFirst(x: Record, rows: seq<Record>, d: map<string, Row>): (rs: seq<Record>)
  {
    [x] + Kept(rows, d) + rows
  }

  /** The chosen copy is counted at its own time. */
  lemma ChosenIsCounted(x: Record, rows: seq<Record>, d: map<string, Row>)
    requires StreamImpression(x)
    ensures var h := HistoryOf(Arrivals(CopyFirst(x, rows, d)));
            AllEvents(x).Some? && x.eventId in h.counted && h.counted[x.eventId] == AllEvents(x).value
  {
    ImpressionIsEvent(x);
    assert CopyFirst(x, rows, d)[0] == x;
    hide AllEvents, HistoryOf;
    FirstIsCounted(CopyFirst(x, rows, d), 0);
  }

  /** Any other impression the batch settles is counted like the row the batch keeps. */
  lemma OthersAreKept(x: Record, rows: seq<Record>, d: map<string, Row>, id: string)
    requires IsDedup(rows, d) && Routed(rows) && id in d && Is(Raw, d[id]) && id != x.eventId
    ensures var h := HistoryOf(Arrivals(CopyFirst(x, rows, d)));
            && id in h.counted && h.counted[id].kind == Impression
            && d[id].campaign == Some(h.counted[id].campaign) && h.counted[id].time == d[id].eventTime
  {
    hide *;
    var rs := CopyFirst(x, rows, d);
    var k := KeptPlace(x, rows, d, id);
    var i := FirstWith(rs, k, id);
    FirstIsKept(x, rows, d, k, i);
    FirstIsCounted(rs, i);
    EventFields(rs[i]);
    KeptIsImpression(rows, d, rs[i]);
  }

  /** A settled impression has a kept row among the first records. */
  lemma KeptPlace(x: Record, rows: seq<Record>, d: map<string, Row>, id: string) returns (k: nat)
    requires IsDedup(rows, d) && Routed(rows) && id in d && Is(Raw, d[id])
    ensures k <= |Kept(rows, d)| < |CopyFirst(x, rows, d)|
    ensures var q := CopyFirst(x, rows, d)[k]; AllEvents(q).Some? && q.eventId == id
  {
    var q :| MayBeFirst(rows, q) && q.eventId == id && d[id] == Columns(q);
    var kept := Kept(rows, d);
    assert q in kept;
    var i :| 0 <= i < |kept| && kept[i] == q;
    k := i + 1;
    assert CopyFirst(x, rows, d)[k] == q;
    KeptIsImpression(rows, d, q);
    hide AllEvents, Is;
  }

  lemma FirstIsKept(x: Record, rows: seq<Record>, d: map<string, Row>, k: nat, i: nat)
    requires i <= k <= |Kept(rows, d)| && CopyFirst(x, rows, d)[i].eventId != x.eventId
    ensures CopyFirst(x, rows, d)[i] in rows && IsKept(d, CopyFirst(x, rows, d)[i])
    ensures d[CopyFirst(x, rows, d)[i].eventId].eventTime == CopyFirst(x, rows, d)[i].eventTime
    ensures d[CopyFirst(x, rows, d)[i].eventId].campaign == CopyFirst(x, rows, d)[i].campaign
  {
    var kept := Kept(rows, d);
    assert CopyFirst(x, rows, d)[i] == kept[i - 1] && kept[i - 1] in kept;
  }

  lemma KeptIsImpression(rows: seq<Record>, d: map<string, Row>, q: Record)
    requires Routed(rows) && q in rows && IsKept(d, q) && Is(Raw, d[q.eventId])
    ensures AllEvents(q).Some? && q.topic == AdImpression
  {
  }

  /** In the minute of the chosen copy, where the batch does not keep it, the stream counts one more. */
  lemma CopyUnbalances(x: Record, rows: seq<Record>, list: seq<string>, d: map<string, Row>, c: string)
    requires IsDedup(rows, d) && Routed(rows) && x in rows && StreamImpression(x) && x.campaign == Some(c)
    requires x.eventId in d && MinuteOf(d[x.eventId].eventTime) != MinuteOf(x.eventTime)
    ensures var items, t0 := Stream(CopyFirst(x, rows, d), Horizon(rows)), MinuteOf(x.eventTime);
            && Archived(items, rows) && Run(items).job.windows.open == map[] && Aligned(t0, t0 + MINUTE)
            && ResidualOf(Run(items).sinks, list, d, c, t0, t0 + MINUTE) < 0
  {
    hide *;
    var rs, t, t0 := CopyFirst(x, rows, d), Horizon(rows), MinuteOf(x.eventTime);
    var items := Stream(rs, t);
    SameRecordsFirst(x, rows, d);
    StreamArchived(rs, rows, t);
    StreamFires(rs, rows);
    StreamHistory(rs, t);
    NoWatermark(rs);
    OneMoreInStream(x, rows, d, c);
    MinutesAreAligned(x.eventTime);
    AgreesReflects(items);
    var w, h := Run(items).job.windows, HistoryOf(items);
    NoneOpen(w, Run(items).sinks, h, c, t0, t0 + MINUTE);
    NoneDropped(h, c, t0, t0 + MINUTE);
    NegativeResidual(w, Run(items).sinks, h, list, d, c, t0, x.eventId);
  }

  lemma SameRecordsFirst(x: Record, rows: seq<Record>, d: map<string, Row>)
    requires x in rows
    ensures forall r :: r in CopyFirst(x, rows, d) <==> r in rows
  {
  }

  lemma MinutesAreAligned(t: int)
    ensures var t0 := MinuteOf(t); t0 % MINUTE == 0 && (t0 + MINUTE) % MINUTE == 0 && Aligned(t0, t0 + MINUTE)
  {
    NextMinute(MinuteOf(t));
    hide MinuteOf;
  }

  lemma AgreesReflects(items: seq<Item>)
    ensures Reflects(Run(items).job.windows, Run(items).sinks, HistoryOf(items))
  {
    RunAgrees(items);
  }

  lemma NoneOpen(w: Windows, s: Sinks, h: History, c: string, t0: int, t1: int)
    requires Reflects(w, s, h) && w.open == map[]
    ensures FiredIn(h, w.wm, false, c, t0, t1) == {}
  {
    hide GroupBy, FiredIn, Listed;
    NothingOpen(w, h, c, t0, t1);
  }

  lemma NoneDropped(h: History, c: string, t0: int, t1: int)
    requires h.dropped == map[]
    ensures ImpressionsIn(h.dropped, c, t0, t1) == {}
  {
  }

  lemma OneMoreInStream(x: Record, rows: seq<Record>, d: map<string, Row>, c: string)
    requires IsDedup(rows, d) && Routed(rows) && x in rows && StreamImpression(x) && x.campaign == Some(c)
    requires x.eventId in d && MinuteOf(d[x.eventId].eventTime) != MinuteOf(x.eventTime)
    ensures var h, t0 := HistoryOf(Arrivals(CopyFirst(x, rows, d))), MinuteOf(x.eventTime);
            var stream, archive := ImpressionsIn(h.counted, c, t0, t0 + MINUTE), Archive(d, c, t0, t0 + MINUTE);
            archive <= stream && x.eventId in stream && x.eventId !in archive
  {
    hide *;
    var h, t0 := HistoryOf(Arrivals(CopyFirst(x, rows, d))), MinuteOf(x.eventTime);
    ChosenIsCounted(x, rows, d);
    EventFields(x);
    IsStreamImpression(x);
    OneMinute(x.eventTime, t0);
    OneMinute(d[x.eventId].eventTime, t0);
    InOrOut(h, d, x.eventId, c, t0);
    var archive, stream := Archive(d, c, t0, t0 + MINUTE), ImpressionsIn(h.counted, c, t0, t0 + MINUTE);
    forall id | id in archive
      ensures id in stream
    {
      SettledIn(d, id, c, t0);
      OthersAreKept(x, rows, d, id);
      InOrOut(h, d, id, c, t0);
    }
  }

  lemma IsStreamImpression(x: Record)
    requires StreamImpression(x)
    ensures x.topic == AdImpression && x.campaign.Some?
  {
  }

  lemma SettledIn(d: map<string, Row>, id: string, c: string, t0: int)
    requires id in Archive(d, c, t0, t0 + MINUTE)
    ensures id in d && Is(Raw, d[id]) && t0 <= d[id].eventTime < t0 + MINUTE && d[id].campaign == Some(c)
  {
    hide Is;
  }

  lemma InOrOut(h: History, d: map<string, Row>, id: string, c: string, t0: int)
    requires id in h.counted && id in d
    ensures h.counted[id].kind == Impression && h.counted[id].campaign == c && t0 <= h.counted[id].time < t0 + MINUTE ==>
              id in ImpressionsIn(h.counted, c, t0, t0 + MINUTE)
    ensures !(t0 <= d[id].eventTime < t0 + MINUTE) ==> id !in Archive(d, c, t0, t0 + MINUTE)
  {
    hide Is;
  }

  lemma NegativeResidual(w: Windows, s: Sinks, h: History, list: seq<string>, d: map<string, Row>, c: string, t0: int, id: string)
    requires Reflects(w, s, h) && t0 % MINUTE == 0 && (t0 + MINUTE) % MINUTE == 0
    requires FiredIn(h, w.wm, false, c, t0, t0 + MINUTE) == {} && ImpressionsIn(h.dropped, c, t0, t0 + MINUTE) == {}
    requires Archive(d, c, t0, t0 + MINUTE) <= ImpressionsIn(h.counted, c, t0, t0 + MINUTE)
    requires id in ImpressionsIn(h.counted, c, t0, t0 + MINUTE) && id !in Archive(d, c, t0, t0 + MINUTE)
    ensures ResidualOf(s, list, d, c, t0, t0 + MINUTE) < 0
  {
    hide *;
    ResidualIdentity(w, s, h, list, d, c, t0, t0 + MINUTE);
    var stream, archive := ImpressionsIn(h.counted, c, t0, t0 + MINUTE), Archive(d, c, t0, t0 + MINUTE);
    assert stream + {} == stream && archive - stream == {} && id in stream - archive && stream * {} == {};
  }

  // ---------------------------------------------------------------- the promise

  /** A kept row and two copies in different minutes: one copy is not in the minute of the kept row. */
  lemma DisagreementUnbalances(a: Record, b: Record, rows: seq<Record>, list: seq<string>, d: map<string, Row>)
    requires CopiesAgree(rows) && Routed(rows) && IsDedup(rows, d) && a in rows && b in rows && a.eventId == b.eventId
    requires StreamImpression(a) && StreamImpression(b) && MinuteOf(a.eventTime) != MinuteOf(b.eventTime)
    ensures !AlwaysBalances(rows, list, d)
  {
    assert a.eventId in d;
    var x := if MinuteOf(d[a.eventId].eventTime) != MinuteOf(a.eventTime) then a else b;
    var c := x.campaign.value;
    hide *;
    CopyUnbalances(x, rows, list, d, c);
    NotAlways(Stream(CopyFirst(x, rows, d), Horizon(rows)), rows, list, d, c, MinuteOf(x.eventTime), MinuteOf(x.eventTime) + MINUTE);
  }

  lemma NotAlways(items: seq<Item>, rows: seq<Record>, list: seq<string>, d: map<string, Row>, c: string, t0: int, t1: int)
    requires Archived(items, rows) && Run(items).job.windows.open == map[] && Aligned(t0, t1)
    requires ResidualOf(Run(items).sinks, list, d, c, t0, t1) != 0
    ensures !AlwaysBalances(rows, list, d)
  {
    hide Run, ResidualOf, Archived, Aligned;
  }

  lemma PlainStream(rows: seq<Record>)
    ensures Archived(Stream(rows, Horizon(rows)), rows) && Run(Stream(rows, Horizon(rows))).job.windows.open == map[]
  {
    hide *;
    StreamArchived(rows, rows, Horizon(rows));
    StreamFires(rows, rows);
  }

  /** Main result. For records whose copies agree on type and campaign, the promise "the residual is 0"
      holds for every order in which the stream may read them, if and only if no impression is stray and
      the copies of each impression share a minute. */
  lemma PromiseExactlyWhen(rows: seq<Record>, list: seq<string>, d: map<string, Row>)
    requires CopiesAgree(rows) && Routed(rows) && IsDedup(rows, d)
    ensures AlwaysBalances(rows, list, d) <==> MinutesAgree(rows) && forall r :: r in rows ==> !Stray(r)
  {
    if MinutesAgree(rows) {
      forall items | Archived(items, rows) && Run(items).job.windows.open == map[]
        ensures Balances(items, list, d) <==> forall r :: r in rows ==> !Stray(r)
      {
        hide Run, ResidualOf, Archived, CopiesAgree, MinutesAgree, Routed, IsDedup, Stray, Aligned;
        BalancesExactlyWhen(items, rows, list, d);
      }
      PlainStream(rows);
      hide Run, Archived, Balances, Stray, CopiesAgree, Routed, IsDedup, Stream;
    } else {
      var a, b :| a in rows && b in rows && a.eventId == b.eventId && StreamImpression(a) && StreamImpression(b)
                  && MinuteOf(a.eventTime) != MinuteOf(b.eventTime);
      hide *;
      DisagreementUnbalances(a, b, rows, list, d);
    }
  }
}
