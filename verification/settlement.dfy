/** The two tables of the settlement batch: `daily_settlement` and `minute_settlement`. */
module Settlement {
  import opened Finite
  import opened Events
  import opened Batch

  datatype Grain = PerMinute | PerDay

  /** date_trunc('minute', event_time) or to_date(event_time) */
  function Floor(g: Grain, t: int): int
  {
    match g
    case PerMinute => MinuteOf(t)
    case PerDay => DayOf(t)
  }

  datatype Bucket = Bucket(at: int, campaign: string)

  datatype Column = Impressions | RawImpressions | ClickCount | CompleteCount | RequestCount

  /** The rows a column counts, and which of them. Impressions count the chosen rows only. */
  function RowsOf(list: seq<string>, d: map<string, Row>, col: Column): map<string, Row>
  {
    if col == Impressions then Chosen(list, ImpAll(d)) else d
  }

  function MeasureOf(col: Column): Measure
  {
    match col
    case Impressions => Raw
    case RawImpressions => Raw
    case ClickCount => Clicks
    case CompleteCount => Completes
    case RequestCount => Requests
  }

  /** The rows of one group of `groupBy(time, campaign_id)`. */
  function Cell(rows: map<string, Row>, m: Measure, g: Grain, b: Bucket): set<string>
  {
    set id | id in rows && Is(m, rows[id]) && Floor(g, rows[id].eventTime) == b.at && rows[id].campaign == Some(b.campaign)
  }

  function Buckets(rows: map<string, Row>, m: Measure, g: Grain): set<Bucket>
  {
    set id | id in rows && Is(m, rows[id]) :: Bucket(Floor(g, rows[id].eventTime), rows[id].campaign.value)
  }

  datatype Counts = Counts(impressions: nat, raw: nat, clicks: nat, completes: nat, requests: nat)

  function Get(c: Counts, col: Column): nat
  {
    match col
    case Impressions => c.impressions
    case RawImpressions => c.raw
    case ClickCount => c.clicks
    case CompleteCount => c.completes
    case RequestCount => c.requests
  }

  function CellOf(list: seq<string>, d: map<string, Row>, col: Column, g: Grain, b: Bucket): set<string>
  {
    Cell(RowsOf(list, d, col), MeasureOf(col), g, b)
  }

  /** One joined row; a side that has no such group contributes 0 (`fillna`). */
  function CountsAt(list: seq<string>, d: map<string, Row>, g: Grain, b: Bucket): Counts
  {
    Counts(|CellOf(list, d, Impressions, g, b)|, |CellOf(list, d, RawImpressions, g, b)|,
           |CellOf(list, d, ClickCount, g, b)|, |CellOf(list, d, CompleteCount, g, b)|,
           |CellOf(list, d, RequestCount, g, b)|)
  }

  /** Full outer join of the five groupings. */
  function MinuteTable(list: seq<string>, d: map<string, Row>): map<Bucket, Counts>
  {
    var keys := Buckets(Chosen(list, ImpAll(d)), Raw, PerMinute) + Buckets(d, Raw, PerMinute)
                + Buckets(d, Clicks, PerMinute) + Buckets(d, Completes, PerMinute) + Buckets(d, Requests, PerMinute);
    map b | b in keys :: CountsAt(list, d, PerMinute, b)
  }

  datatype DailyRow = DailyRow(counts: Counts, dupesRemoved: int, cpm: real, amount: real)

  /** The archived impression rows of a day, copies included. */
  function RawRows(rows: seq<Record>, b: Bucket): nat
  {
    if rows == [] then 0
    else RawRows(rows[..|rows| - 1], b) + if IsRawRow(rows[|rows| - 1], b) then 1 else 0
  }

  predicate IsRawRow(r: Record, b: Bucket)
  {
    Is(Raw, Columns(r)) && DayOf(r.eventTime) == b.at && r.campaign == Some(b.campaign)
  }

  /** round(x, 2), half away from zero */
  function RoundCents(x: real): real
  {
    if x >= 0.0 then (x * 100.0 + 0.5).Floor as real / 100.0
    else -((-x * 100.0 + 0.5).Floor as real / 100.0)
  }

  function Amount(impressions: nat, cpm: real): real
  {
    RoundCents(impressions as real / 1000.0 * cpm)
  }

  /** Left joins that start from the raw impressions: a day without one has no row. */
  function DailyTable(list: seq<string>, rows: seq<Record>, d: map<string, Row>, rates: map<string, real>): map<Bucket, DailyRow>
  {
    map b | b in Buckets(d, Raw, PerDay) ::
      var c := CountsAt(list, d, PerDay, b);
      var cpm := if b.campaign in rates then rates[b.campaign] else 0.0;
      DailyRow(c, RawRows(rows, b) - c.raw, cpm, Amount(c.impressions, cpm))
  }

  // ---------------------------------------------------------------- roll-up

  function RangeCell(rows: map<string, Row>, m: Measure, t0: int, t1: int, campaign: string): set<string>
  {
    set id | id in rows && Is(m, rows[id]) && t0 <= rows[id].eventTime < t1 && rows[id].campaign == Some(campaign)
  }

  /** sum(col) over the minute rows of one campaign with t0 <= minute_ts < t1 */
  ghost function SumIn(table: map<Bucket, Counts>, col: Column, t0: int, t1: int, campaign: string): int
  {
    SumMap(map b | b in table && b.campaign == campaign && t0 <= b.at < t1 :: Get(table[b], col))
  }

  lemma FiberIsCell(rows: map<string, Row>, m: Measure, t0: int, t1: int, b: Bucket)
    requires t0 % MINUTE == 0 && t1 % MINUTE == 0 && t0 <= b.at < t1
    ensures Fiber(map id | id in RangeCell(rows, m, t0, t1, b.campaign) :: Bucket(MinuteOf(rows[id].eventTime), b.campaign), b)
            == Cell(rows, m, PerMinute, b)
  {
    forall id | id in rows
      ensures t0 <= MinuteOf(rows[id].eventTime) < t1 <==> t0 <= rows[id].eventTime < t1
    {
      MinuteInRange(rows[id].eventTime, t0, t1);
    }
    hide MinuteOf, Is;
  }

  lemma CellsOfRange(rows: map<string, Row>, m: Measure, counts: map<Bucket, int>, t0: int, t1: int, campaign: string)
    requires t0 % MINUTE == 0 && t1 % MINUTE == 0
    requires forall b :: b in counts ==> b.campaign == campaign && t0 <= b.at < t1 && counts[b] == |Cell(rows, m, PerMinute, b)|
    requires forall b :: b in Buckets(rows, m, PerMinute) && b.campaign == campaign && t0 <= b.at < t1 ==> b in counts
    ensures SumMap(counts) == |RangeCell(rows, m, t0, t1, campaign)|
  {
    var ids := RangeCell(rows, m, t0, t1, campaign);
    var group := map id | id in ids :: Bucket(MinuteOf(rows[id].eventTime), campaign);
    forall id | id in group
      ensures group[id] in counts
    {
      MinuteInRange(rows[id].eventTime, t0, t1);
      assert group[id] in Buckets(rows, m, PerMinute);
    }
    forall b | b in counts
      ensures Fiber(group, b) == Cell(rows, m, PerMinute, b)
    {
      FiberIsCell(rows, m, t0, t1, b);
    }
    hide *;
    CountByKey(group, counts);
    assert group.Keys == ids;
    assert |group| == |group.Keys|;
  }

  lemma GetIsCell(list: seq<string>, d: map<string, Row>, g: Grain, b: Bucket, col: Column)
    ensures Get(CountsAt(list, d, g, b), col) == |CellOf(list, d, col, g, b)|
  {
    hide CellOf;
  }

  /** Summing a column of the minute table over minutes counts the rows of the whole range. */
  lemma MinuteSums(list: seq<string>, d: map<string, Row>, col: Column, t0: int, t1: int, campaign: string)
    requires t0 % MINUTE == 0 && t1 % MINUTE == 0
    ensures SumIn(MinuteTable(list, d), col, t0, t1, campaign) ==
            |RangeCell(RowsOf(list, d, col), MeasureOf(col), t0, t1, campaign)|
  {
    var table := MinuteTable(list, d);
    var counts := map b | b in table && b.campaign == campaign && t0 <= b.at < t1 :: Get(table[b], col);
    assert Buckets(RowsOf(list, d, col), MeasureOf(col), PerMinute) <= table.Keys;
    hide Buckets, Chosen, ImpAll, Cell;
    forall b | b in counts
      ensures counts[b] == |CellOf(list, d, col, PerMinute, b)|
    {
      GetIsCell(list, d, PerMinute, b, col);
    }
    CellsOfRange(RowsOf(list, d, col), MeasureOf(col), counts, t0, t1, campaign);
  }

  /** A day is a range of minutes. */
  lemma DayIsRange(rows: map<string, Row>, m: Measure, day: int, campaign: string)
    requires day % DAY == 0
    ensures Cell(rows, m, PerDay, Bucket(day, campaign)) == RangeCell(rows, m, day, day + DAY, campaign)
  {
    hide Is;
  }

  /** Roll-up. For every row of the daily table, each of its five counters is the sum of the minute
      rows of that day; where there is no daily row, the minute rows hold no impression. */
  lemma MinutesAddUpToDays(list: seq<string>, rows: seq<Record>, d: map<string, Row>, rates: map<string, real>,
                           day: int, campaign: string, col: Column)
    requires day % DAY == 0
    ensures var b := Bucket(day, campaign);
            var daily := DailyTable(list, rows, d, rates);
            var sum := SumIn(MinuteTable(list, d), col, day, day + DAY, campaign);
            if b in daily then Get(daily[b].counts, col) == sum
            else MeasureOf(col) == Raw ==> sum == 0
  {
    var b := Bucket(day, campaign);
    DayOnMinutes(day);
    MinuteSums(list, d, col, day, day + DAY, campaign);
    DayIsRange(RowsOf(list, d, col), MeasureOf(col), day, campaign);
    DailyRowIsCell(list, rows, d, rates, b, col);
    assert CellOf(list, d, col, PerDay, b) == Cell(RowsOf(list, d, col), MeasureOf(col), PerDay, b);
    hide *;
    if MeasureOf(col) == Raw {
      NoBucketNoRow(list, d, col, b);
    }
  }

  lemma DailyRowIsCell(list: seq<string>, rows: seq<Record>, d: map<string, Row>, rates: map<string, real>, b: Bucket, col: Column)
    ensures var daily := DailyTable(list, rows, d, rates);
            && (b in daily <==> b in Buckets(d, Raw, PerDay))
            && (b in daily ==> Get(daily[b].counts, col) == |CellOf(list, d, col, PerDay, b)|)
  {
    GetIsCell(list, d, PerDay, b, col);
    hide CellOf, Get, CountsAt, Buckets;
  }

  lemma NoBucketNoRow(list: seq<string>, d: map<string, Row>, col: Column, b: Bucket)
    requires MeasureOf(col) == Raw
    ensures CellOf(list, d, col, PerDay, b) != {} ==> b in Buckets(d, Raw, PerDay)
  {
    hide RowNumber, Floor;
    if CellOf(list, d, col, PerDay, b) != {} {
      var id :| id in CellOf(list, d, col, PerDay, b);
      assert id in d && Is(Raw, d[id]);
      assert Bucket(Floor(PerDay, d[id].eventTime), d[id].campaign.value) in Buckets(d, Raw, PerDay);
    }
  }

  /** The impressions of a group are its raw impressions that are the best of their ad request. */
  lemma ImpressionsAreBest(list: seq<string>, d: map<string, Row>, g: Grain, b: Bucket)
    ensures CellOf(list, d, Impressions, g, b) ==
            set id | id in CellOf(list, d, RawImpressions, g, b) && id in ImpAll(d) && Best(list, ImpAll(d), id)
  {
    var imps := ImpAll(d);
    forall id
      ensures id in Chosen(list, imps) <==> id in imps && Best(list, imps, id)
      ensures id in Chosen(list, imps) ==> Chosen(list, imps)[id] == imps[id]
    {
      ChosenAreBest(list, imps, id);
    }
    hide Chosen, Best, Floor;
  }

  /** The ids among ids that are the best impression of their ad request. */
  ghost function BestOf(list: seq<string>, d: map<string, Row>, ids: set<string>): set<string>
  {
    set id | id in ids && id in ImpAll(d) && Best(list, ImpAll(d), id)
  }

  /** The impressions among which the choice is made. */
  lemma SettledImpressions(d: map<string, Row>, id: string)
    ensures id in ImpAll(d) <==>
            id in d && d[id].eventType == "impression" && d[id].campaign.Some? && d[id].campaign.value !in {"none", "nofill", "pending"}
    ensures id in ImpAll(d) ==> ImpAll(d)[id] == d[id]
  {
  }

  /** So a row of either table counts as impressions the best of each ad request among its raw impressions. */
  lemma RowImpressions(list: seq<string>, d: map<string, Row>, g: Grain, b: Bucket)
    ensures CountsAt(list, d, g, b).impressions == |BestOf(list, d, Cell(d, Raw, g, b))|
    ensures CountsAt(list, d, g, b).raw == |Cell(d, Raw, g, b)|
  {
    assert CellOf(list, d, RawImpressions, g, b) == Cell(d, Raw, g, b);
    ImpressionsAreBest(list, d, g, b);
    hide Cell, CellOf, Best, ImpAll;
  }

  // ---------------------------------------------------------------- what a daily row says

  /** An impression of a settled campaign on a day. */
  predicate DayImpression(eventType: string, campaign: Option<string>, time: int, b: Bucket)
  {
    eventType == "impression" && campaign == Some(b.campaign) && b.campaign !in {"none", "nofill", "pending"} && DayOf(time) == b.at
  }

  /** The archived rows of a day's impressions, copies included, by position. */
  function DayRows(rows: seq<Record>, b: Bucket): set<int>
  {
    set i | 0 <= i < |rows| && DayImpression(rows[i].eventType, rows[i].campaign, rows[i].eventTime, b)
  }

  lemma RawRowIs(r: Record, b: Bucket)
    ensures IsRawRow(r, b) <==> DayImpression(r.eventType, r.campaign, r.eventTime, b)
  {
    hide DayOf;
  }

  lemma {:induction false} RawRowsAreDayRows(rows: seq<Record>, b: Bucket)
    ensures RawRows(rows, b) == |DayRows(rows, b)|
  {
    if rows != [] {
      var n := |rows| - 1;
      RawRowsAreDayRows(rows[..n], b);
      RawRowIs(rows[n], b);
      hide DayImpression, IsRawRow;
      assert DayRows(rows, b) == DayRows(rows[..n], b) +
             if DayImpression(rows[n].eventType, rows[n].campaign, rows[n].eventTime, b) then {n} else {};
    }
  }

  /** Impressions by the thousand at the rate, in whole cents, the nearest; a tie goes away from zero. */
  predicate IsCharge(amount: real, impressions: nat, cpm: real)
  {
    var x := impressions as real / 1000.0 * cpm;
    && (amount * 100.0).Floor as real == amount * 100.0
    && (if x >= 0.0 then -0.005 < amount - x <= 0.005 else -0.005 <= amount - x < 0.005)
  }

  /** Rounding moves an amount to whole cents, by at most half a cent. */
  lemma AmountIsClose(impressions: nat, cpm: real)
    ensures -0.005 <= Amount(impressions, cpm) - impressions as real / 1000.0 * cpm <= 0.005
    ensures IsCharge(Amount(impressions, cpm), impressions, cpm)
  {
    var x := impressions as real / 1000.0 * cpm;
    var y := if x >= 0.0 then x * 100.0 + 0.5 else -x * 100.0 + 0.5;
    assert y.Floor as real <= y < y.Floor as real + 1.0;
    assert Amount(impressions, cpm) * 100.0 == if x >= 0.0 then y.Floor as real else (-y.Floor) as real;
  }

  /** Main result. There is a row for each campaign and day with an impression; its amount is what its impressions
      cost at the campaign's rate (0 without one), rounded to cents; and removed copies plus raw impressions are
      the archived rows. */
  lemma DailyRowIs(list: seq<string>, rows: seq<Record>, d: map<string, Row>, rates: map<string, real>, b: Bucket)
    ensures b in DailyTable(list, rows, d, rates) <==>
            exists id :: id in d && DayImpression(d[id].eventType, d[id].campaign, d[id].eventTime, b)
    ensures b in DailyTable(list, rows, d, rates) ==>
              var row := DailyTable(list, rows, d, rates)[b];
              && row.cpm == (if b.campaign in rates then rates[b.campaign] else 0.0)
              && IsCharge(row.amount, row.counts.impressions, row.cpm)
              && row.dupesRemoved + row.counts.raw == |DayRows(rows, b)|
  {
    hide *;
    DayHasRow(d, b);
    RawRowsAreDayRows(rows, b);
    DailyFields(list, rows, d, rates, b);
    AmountIsClose(CountsAt(list, d, PerDay, b).impressions, if b.campaign in rates then rates[b.campaign] else 0.0);
  }

  lemma DailyFields(list: seq<string>, rows: seq<Record>, d: map<string, Row>, rates: map<string, real>, b: Bucket)
    ensures b in DailyTable(list, rows, d, rates) <==> b in Buckets(d, Raw, PerDay)
    ensures b in DailyTable(list, rows, d, rates) ==>
              var row, cpm := DailyTable(list, rows, d, rates)[b], if b.campaign in rates then rates[b.campaign] else 0.0;
              && row.counts == CountsAt(list, d, PerDay, b) && row.cpm == cpm && row.amount == Amount(row.counts.impressions, cpm)
              && row.dupesRemoved + row.counts.raw == RawRows(rows, b)
  {
    hide Buckets, CountsAt, RawRows, Amount;
  }

  lemma DayHasRow(d: map<string, Row>, b: Bucket)
    ensures b in Buckets(d, Raw, PerDay) <==> exists id :: id in d && DayImpression(d[id].eventType, d[id].campaign, d[id].eventTime, b)
  {
    forall id | id in d
      ensures DayImpression(d[id].eventType, d[id].campaign, d[id].eventTime, b) <==>
              Is(Raw, d[id]) && Bucket(Floor(PerDay, d[id].eventTime), d[id].campaign.value) == b
    {
    }
    hide DayImpression, Is, Floor;
  }

  // ---------------------------------------------------------------- bounds

  /** impressions <= raw_impressions <= archived impression rows, so `dupes_removed` is not negative. */
  lemma DailyBounds(list: seq<string>, rows: seq<Record>, d: map<string, Row>, rates: map<string, real>, b: Bucket)
    requires IsDedup(rows, d) && b in DailyTable(list, rows, d, rates)
    ensures var row := DailyTable(list, rows, d, rates)[b];
            && 0 < row.counts.raw && row.counts.impressions <= row.counts.raw <= |DayRows(rows, b)|
            && 0 <= row.dupesRemoved == |DayRows(rows, b)| - row.counts.raw
  {
    RawRowsAreDayRows(rows, b);
    hide RowNumber, Floor, DayRows;
    var raw := CellOf(list, d, RawImpressions, PerDay, b);
    SubsetSize(CellOf(list, d, Impressions, PerDay, b), raw);
    var id :| id in d && Is(Raw, d[id]) && Bucket(Floor(PerDay, d[id].eventTime), d[id].campaign.value) == b;
    assert id in raw;
    RawCellBound(rows, d, b);
  }

  /** The ids that have an archived impression row in this day. */
  ghost function RawIds(rows: seq<Record>, b: Bucket): set<string>
  {
    set r | r in rows && IsRawRow(r, b) :: r.eventId
  }

  lemma {:induction false} RawIdsBound(rows: seq<Record>, b: Bucket)
    ensures |RawIds(rows, b)| <= RawRows(rows, b)
  {
    if rows != [] {
      var before, x := rows[..|rows| - 1], rows[|rows| - 1];
      RawIdsBound(before, b);
      assert forall r :: r in rows <==> r in before || r == x;
      SubsetSize(RawIds(rows, b), RawIds(before, b) + {x.eventId});
      if !IsRawRow(x, b) {
        assert RawIds(rows, b) == RawIds(before, b);
      }
    }
  }

  lemma RawCellBound(rows: seq<Record>, d: map<string, Row>, b: Bucket)
    requires IsDedup(rows, d)
    ensures |Cell(d, Raw, PerDay, b)| <= RawRows(rows, b)
  {
    forall id | id in Cell(d, Raw, PerDay, b)
      ensures id in RawIds(rows, b)
    {
      var r :| MayBeFirst(rows, r) && r.eventId == id && d[id] == Columns(r);
      assert IsRawRow(r, b);
    }
    SubsetSize(Cell(d, Raw, PerDay, b), RawIds(rows, b));
    RawIdsBound(rows, b);
  }

  // ---------------------------------------------------------------- copies and order

  /** Redelivering or reordering records changes no count, no choice and no amount. */
  lemma RedeliveryChangesNothing(list: seq<string>, rows: seq<Record>, rows': seq<Record>,
                                 d: map<string, Row>, d': map<string, Row>, rates: map<string, real>)
    requires SameRecords(rows, rows') && TiesAgree(rows)
    requires IsDedup(rows, d) && IsDedup(rows', d')
    ensures MinuteTable(list, d) == MinuteTable(list, d')
    ensures Chosen(list, ImpAll(d)) == Chosen(list, ImpAll(d'))
    ensures var a, b := DailyTable(list, rows, d, rates), DailyTable(list, rows', d', rates);
            a.Keys == b.Keys && forall k :: k in a ==> a[k].counts == b[k].counts && a[k].cpm == b[k].cpm && a[k].amount == b[k].amount
    ensures multiset(rows) == multiset(rows') ==>
            DailyTable(list, rows, d, rates) == DailyTable(list, rows', d', rates)
  {
    DedupIgnoresCopiesAndOrder(rows, rows', d, d');
    hide IsDedup, TiesAgree, SameRecords, MinuteTable, Chosen, Buckets, CountsAt, Amount, RawRows;
    if multiset(rows) == multiset(rows') {
      DailyPermuted(list, rows, rows', d, rates);
    }
  }

  lemma DailyPermuted(list: seq<string>, rows: seq<Record>, rows': seq<Record>, d: map<string, Row>, rates: map<string, real>)
    requires multiset(rows) == multiset(rows')
    ensures DailyTable(list, rows, d, rates) == DailyTable(list, rows', d, rates)
  {
    hide Buckets, CountsAt, Amount, RawRows;
    forall b
      ensures RawRows(rows, b) == RawRows(rows', b)
    {
      RawRowsPermuted(rows, rows', b);
    }
  }

  function Without(rows: seq<Record>, i: nat): (rest: seq<Record>)
    requires i < |rows|
    ensures |rest| == |rows| - 1
  {
    rows[..i] + rows[i + 1..]
  }

  lemma RawRowsAppend(rows: seq<Record>, r: Record, b: Bucket)
    ensures RawRows(rows + [r], b) == RawRows(rows, b) + if IsRawRow(r, b) then 1 else 0
  {
    assert (rows + [r])[..|rows|] == rows;
    hide IsRawRow;
  }

  lemma WithoutLast(rows: seq<Record>, i: nat)
    requires i < |rows|
    ensures var n := |rows| - 1; var before := rows[..n];
            && rows == before + [rows[n]]
            && Without(rows, i) == if i == n then before else Without(before, i) + [rows[n]]
  {
  }

  lemma {:induction false} RawRowsWithout(rows: seq<Record>, i: nat, b: Bucket)
    requires i < |rows|
    ensures RawRows(rows, b) == RawRows(Without(rows, i), b) + if IsRawRow(rows[i], b) then 1 else 0
    decreases |rows|
  {
    hide *;
    var n := |rows| - 1;
    var before := rows[..n];
    WithoutLast(rows, i);
    RawRowsAppend(before, rows[n], b);
    if i < n {
      RawRowsWithout(before, i, b);
      RawRowsAppend(Without(before, i), rows[n], b);
    }
  }

  lemma WithoutIsLess(rows: seq<Record>, i: nat)
    requires i < |rows|
    ensures multiset(Without(rows, i)) == multiset(rows) - multiset{rows[i]}
  {
    assert rows == rows[..i] + [rows[i]] + rows[i + 1..];
  }

  lemma {:induction false} RawRowsPermuted(rows: seq<Record>, rows': seq<Record>, b: Bucket)
    requires multiset(rows) == multiset(rows')
    ensures RawRows(rows, b) == RawRows(rows', b)
    decreases |rows|
  {
    hide *;
    assert |rows| == |multiset(rows)| == |multiset(rows')| == |rows'|;
    if rows == [] {
      assert rows' == [];
    } else {
      var n := |rows| - 1;
      assert rows[n] in multiset(rows');
      var i: nat :| i < |rows'| && rows'[i] == rows[n];
      WithoutIsLess(rows, n);
      WithoutIsLess(rows', i);
      assert multiset(Without(rows, n)) == multiset(Without(rows', i));
      RawRowsPermuted(Without(rows, n), Without(rows', i), b);
      RawRowsWithout(rows, n, b);
      RawRowsWithout(rows', i, b);
    }
  }
}
