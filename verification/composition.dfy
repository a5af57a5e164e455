/** End to end: the parts put together. From committed decisions to counted requests, and from one
    stream of records to the numbers the reconciliation prints. */
module Composition {
  import opened Finite
  import opened Events
  import opened Realtime
  import opened Ttl
  import opened Expiry
  import opened Residual
  import Recovery
  import Outbox
  import D = Decision
  import R = Reconcile
  import Serving

  // ---------------------------------------------------------------- decisions to requests

  function RequestIds(events: map<string, Event>): set<string>
  {
    set id | id in events && events[id].kind == Request
  }

  ghost function RequestsInWindows(agg: map<Window, Acc>): int
  {
    SumMap(RequestValues(agg))
  }

  function LateRequests(late: map<string, LateRow>): set<string>
  {
    set id | id in late && late[id].kind == Request
  }

  lemma RequestsOfTally(events: map<string, Event>, k: Window)
    ensures Tally(events, k).requests == |Cell(events, k, Request)|
  {
    hide Cell;
  }

  lemma RequestIsEmitted(events: map<string, Event>, wm: Option<int>, id: string)
    requires GroupBy(events, wm, false) == map[] && id in RequestIds(events)
    ensures WindowOf(events[id]) in GroupBy(events, wm, true)
  {
    hide MinuteOf, Closed, Tally;
    var k := WindowOf(events[id]);
    assert k in Groups(events);
    assert !Closed(wm, k.start) ==> k in GroupBy(events, wm, false);
  }

  function RequestWindows(events: map<string, Event>): (group: map<string, Window>)
  {
    map id | id in RequestIds(events) :: WindowOf(events[id])
  }

  lemma FiberIsRequests(events: map<string, Event>, k: Window)
    ensures |Fiber(RequestWindows(events), k)| == Tally(events, k).requests
  {
    hide WindowOf;
    assert Fiber(RequestWindows(events), k) == Cell(events, k, Request);
    hide *;
    RequestsOfTally(events, k);
  }

  function RequestValues(agg: map<Window, Acc>): map<Window, int>
  {
    map k | k in agg :: agg[k].requests as int
  }

  /** With every window fired, the minute values count each counted request once. */
  lemma RequestsFired(h: History, wm: Option<int>)
    requires GroupBy(h.counted, wm, false) == map[]
    ensures RequestsInWindows(GroupBy(h.counted, wm, true)) == |RequestIds(h.counted)|
  {
    var agg, ids := GroupBy(h.counted, wm, true), RequestIds(h.counted);
    var counts, group := RequestValues(agg), RequestWindows(h.counted);
    assert forall k :: k in agg ==> agg[k] == Tally(h.counted, k);
    assert counts.Keys == agg.Keys && forall k :: k in agg ==> counts[k] == agg[k].requests;
    assert group.Keys == ids && forall id :: id in ids ==> group[id] == WindowOf(h.counted[id]);
    hide *;
    forall id | id in group
      ensures group[id] in counts
    {
      RequestIsEmitted(h.counted, wm, id);
    }
    forall k | k in counts
      ensures counts[k] == |Fiber(group, k)|
    {
      FiberIsRequests(h.counted, k);
    }
    CountByKey(group, counts);
    assert |group| == |group.Keys|;
  }

  /** The stream read what the outbox workers published, any number of times and in any order, among
      other records: those count no requests and share no event id with an outbox row. */
  ghost predicate StreamOf(items: seq<Item>, log: seq<Outbox.Entry>, table: seq<D.OutboxRow>)
  {
    && (forall e :: e in log ==> 0 <= e.id < |table|)
    && (forall i :: i in Outbox.LoggedIds(log) && 0 <= i < |table| ==> Arrive(table[i].payload) in items)
    && (forall r :: Arrive(r) in items && IsRequest(r) ==> FromOutbox(r, log, table))
    && (forall r, i :: Arrive(r) in items && 0 <= i < |table| && r.eventId == table[i].eventId ==> r == table[i].payload)
  }

  predicate IsRequest(r: Record)
  {
    AllEvents(r).Some? && AllEvents(r).value.kind == Request
  }

  ghost predicate FromOutbox(r: Record, log: seq<Outbox.Entry>, table: seq<D.OutboxRow>)
  {
    exists i :: i in Outbox.LoggedIds(log) && 0 <= i < |table| && r == table[i].payload
  }

  /** No campaign is called `nofill`. */
  predicate RealCampaigns(table: seq<D.OutboxRow>)
  {
    forall i :: 0 <= i < |table| && table[i].payload.fill == Some(true) ==> table[i].payload.campaign != Some("nofill")
  }

  /** The event ids of the committed rows with fill = true. */
  function FilledEventIds(table: seq<D.OutboxRow>): set<string>
  {
    set i | i in D.FilledRows(table) :: table[i].eventId
  }

  lemma FilledEventIdsSize(table: seq<D.OutboxRow>)
    requires D.FreshIds(table)
    ensures |FilledEventIds(table)| == |D.FilledRows(table)|
  {
    var filled := D.FilledRows(table);
    var name := map i | i in filled :: table[i].eventId;
    ImageSize(name);
    hide D.FilledRows;
    assert forall i :: i in filled ==> name[i] in name.Values;
    assert name.Values == FilledEventIds(table);
    assert name.Keys == filled && |name| == |name.Keys|;
  }

  /** A row announces a fill exactly when its payload is a request. */
  lemma RowIsRequest(table: seq<D.OutboxRow>, i: int)
    requires 0 <= i < |table| && D.Decided(table) && RealCampaigns(table)
    ensures IsRequest(table[i].payload) <==> i in D.FilledRows(table)
    ensures table[i].payload.eventId == table[i].eventId
  {
    assert table[i] in table;
    assert D.IsDecision(table[i]);
    var resp :| D.Announces(table[i], resp);
    D.FillIsRequest(table[i], resp);
    hide AllEvents, Batch.Is;
  }

  lemma PlacedArrives(items: seq<Item>, id: string, ev: Event) returns (r: Record)
    requires var h := HistoryOf(items); (id in h.counted && h.counted[id] == ev) || (id in h.dropped && h.dropped[id] == ev)
    ensures Arrive(r) in items && AllEvents(r) == Some(ev) && r.eventId == id
  {
    HistoryArrived(items);
    hide HistoryOf, AllEvents;
    assert Arrived(ev, id, items);
    var i: nat :| ArrivesAt(items, i, ev);
    r := items[i].r;
    EventFields(r);
  }

  lemma ArrivalIsPlaced(items: seq<Item>, r: Record)
    requires Arrive(r) in items && AllEvents(r).Some?
    ensures r.eventId in HistoryOf(items).counted || r.eventId in HistoryOf(items).dropped
  {
    hide HistoryOf, AllEvents;
    var i :| 0 <= i < |items| && items[i] == Arrive(r);
    assert ArrivesAt(items, i, AllEvents(r).value);
    EventFields(r);
    HistoryIds(items, r.eventId);
  }

  /** A placed request is a committed fill. */
  lemma PlacedIsFill(items: seq<Item>, log: seq<Outbox.Entry>, table: seq<D.OutboxRow>, id: string)
    requires StreamOf(items, log, table) && D.Decided(table) && RealCampaigns(table)
    requires id in RequestIds(HistoryOf(items).counted) + RequestIds(HistoryOf(items).dropped)
    ensures id in FilledEventIds(table)
  {
    var h := HistoryOf(items);
    var ev := if id in RequestIds(h.counted) then h.counted[id] else h.dropped[id];
    var r := PlacedArrives(items, id, ev);
    assert FromOutbox(r, log, table);
    var i :| i in Outbox.LoggedIds(log) && 0 <= i < |table| && r == table[i].payload;
    hide HistoryOf, AllEvents, StreamOf, D.Decided, RealCampaigns, Outbox.LoggedIds;
    RowIsRequest(table, i);
  }

  /** A committed fill that was published is placed as a request. */
  lemma FillIsPlaced(items: seq<Item>, log: seq<Outbox.Entry>, table: seq<D.OutboxRow>, i: int)
    requires StreamOf(items, log, table) && D.Decided(table) && RealCampaigns(table)
    requires i in D.FilledRows(table) && i in Outbox.LoggedIds(log)
    ensures table[i].eventId in RequestIds(HistoryOf(items).counted) + RequestIds(HistoryOf(items).dropped)
  {
    var h, id := HistoryOf(items), table[i].eventId;
    RowIsRequest(table, i);
    ArrivalIsPlaced(items, table[i].payload);
    var ev := if id in h.counted then h.counted[id] else h.dropped[id];
    var r := PlacedArrives(items, id, ev);
    assert r == table[i].payload;
    hide HistoryOf, AllEvents, StreamOf, D.Decided, RealCampaigns, Outbox.LoggedIds;
  }

  /** The requests the minute rows count too many. */
  ghost function RequestSurplus(items: seq<Item>, s: Sinks): int
  {
    RequestsInWindows(s.agg) - RequestsInWindows(Run(items).sinks.agg)
  }

  /** The ids of requests that were counted and have a late row as well. */
  function RequestsTwice(items: seq<Item>, s: Sinks): set<string>
  {
    RequestIds(HistoryOf(items).counted) * LateRequests(s.late)
  }

  /** Main result. Whatever the workers sent again and however often the streaming job crashed, when every
      row is published and every window has fired: windowed requests plus late requests are the committed
      rows with fill = true, and those requests that were both counted and late, and those counted again.
      So they are exactly the fills if and only if there is none of either kind. */
  lemma RequestsAreFills(config: Outbox.Config, s0: Outbox.State, sends: seq<Outbox.Action>, table: seq<D.OutboxRow>,
                         items: seq<Item>, ttl: int, actions: seq<Recovery.Action>)
    requires Outbox.Initial(s0) && D.FreshIds(table) && D.Decided(table) && RealCampaigns(table)
    requires var s := Outbox.Exec(config, s0, sends);
             s.flagged == s.rows == Interval(0, |table|) && StreamOf(items, s.log, table)
    requires Covered(items, ttl, actions)
    ensures var s, fills := Recovery.Exec(items, ttl, actions).sinks, |D.FilledRows(table)|;
            var counted, xs := RequestsInWindows(s.agg) + |LateRequests(s.late)|, Recovery.Surviving(items, actions).saved;
            && counted == fills + |RequestsTwice(items, s)| + RequestSurplus(items, s) && RequestSurplus(items, s) >= 0
            && (counted == fills <==> RequestsTwice(items, s) == {} && forall n: nat :: !RecountsIn(xs, ttl, n, Of(Request)))
  {
    var log := Outbox.Exec(config, s0, sends).log;
    Outbox.EachRowOnce(config, s0, sends);
    Outbox.DedupIds(log);
    assert Outbox.LoggedIds(log) == Interval(0, |table|);
    var s := Recovery.Exec(items, ttl, actions).sinks;
    assert SameCells(items) && Run(items).job.windows.open == map[];
    hide *;
    CrashIsBeyond(items, ttl, actions, Of(Request));
    RequestsOfLog(table, log, items, s);
    SurplusOfRequests(s.agg, Run(items).sinks.agg);
    RequestSurplusIs(items, s);
  }

  lemma RequestSurplusIs(items: seq<Item>, s: Sinks)
    ensures RequestSurplus(items, s) == RequestsInWindows(s.agg) - RequestsInWindows(Run(items).sinks.agg)
    ensures |RequestsTwice(items, s)| == 0 <==> RequestsTwice(items, s) == {}
  {
    hide RequestsInWindows, Run, HistoryOf;
  }

  lemma SurplusOfRequests(m: map<Window, Acc>, n: map<Window, Acc>)
    requires AllAtLeast(m, n, Of(Request))
    ensures RequestsInWindows(m) >= RequestsInWindows(n)
    ensures RequestsInWindows(m) == RequestsInWindows(n) <==> !SomeMore(m, n, Of(Request))
  {
    forall a: Acc
      ensures Value(a, Of(Request)) == a.requests
    {
    }
    var x, y := RequestValues(m), RequestValues(n);
    hide Value;
    SumAtLeast(x, y);
    if SomeMore(m, n, Of(Request)) {
      var k :| k in m && k in n && Value(m[k], Of(Request)) > Value(n[k], Of(Request));
      assert k in y && x[k] > y[k];
    } else {
      SumAtLeast(y, x);
    }
    hide SumMap;
  }

  lemma FilledHasRow(table: seq<D.OutboxRow>, id: string) returns (i: int)
    requires id in FilledEventIds(table)
    ensures 0 <= i < |table| && i in D.FilledRows(table) && i in Interval(0, |table|) && table[i].eventId == id
  {
    i :| i in D.FilledRows(table) && table[i].eventId == id;
  }

  lemma PlacedAreFills(items: seq<Item>, log: seq<Outbox.Entry>, table: seq<D.OutboxRow>)
    requires D.Decided(table) && RealCampaigns(table)
    requires Outbox.LoggedIds(log) == Interval(0, |table|) && StreamOf(items, log, table)
    ensures RequestIds(HistoryOf(items).counted) + RequestIds(HistoryOf(items).dropped) == FilledEventIds(table)
  {
    hide *;
    var ids := RequestIds(HistoryOf(items).counted) + RequestIds(HistoryOf(items).dropped);
    forall id | id in ids
      ensures id in FilledEventIds(table)
    {
      PlacedIsFill(items, log, table, id);
    }
    forall id | id in FilledEventIds(table)
      ensures id in ids
    {
      var i := FilledHasRow(table, id);
      FillIsPlaced(items, log, table, i);
    }
  }

  /** A late request of an id that was placed is of a placed request. */
  lemma LateIsPlaced(items: seq<Item>, s: Sinks, id: string)
    requires SameCells(items) && RowsArrived(items, s.late) && id in LateRequests(s.late)
    ensures id in RequestIds(HistoryOf(items).counted) + RequestIds(HistoryOf(items).dropped)
  {
    assert RowOf(items, id, s.late[id]);
    var i: nat, ev :| ArrivesAt(items, i, ev) && ev.id == id && s.late[id].kind == ev.kind;
    HistoryIds(items, id);
    HistoryArrived(items);
    var h := HistoryOf(items);
    var placed := if id in h.counted then h.counted[id] else h.dropped[id];
    assert Arrived(placed, id, items);
    var j: nat :| ArrivesAt(items, j, placed);
    hide HistoryOf, ArrivesAt;
  }

  /** A dropped request has a late row, of a request. */
  lemma DroppedRequestIsLate(items: seq<Item>, s: Sinks, id: string)
    requires SameCells(items) && RowsArrived(items, s.late) && id in s.late && id in RequestIds(HistoryOf(items).dropped)
    ensures id in LateRequests(s.late)
  {
    assert RowOf(items, id, s.late[id]);
    var i: nat, ev :| ArrivesAt(items, i, ev) && ev.id == id && s.late[id].kind == ev.kind;
    HistoryArrived(items);
    var placed := HistoryOf(items).dropped[id];
    assert Arrived(placed, id, items);
    var j: nat :| ArrivesAt(items, j, placed);
    hide HistoryOf, ArrivesAt;
  }

  lemma RequestsPlaced(items: seq<Item>, s: Sinks)
    requires SameCells(items) && RowsArrived(items, s.late) && Run(items).sinks.late.Keys <= s.late.Keys
    ensures RequestIds(HistoryOf(items).counted) + LateRequests(s.late) ==
            RequestIds(HistoryOf(items).counted) + RequestIds(HistoryOf(items).dropped)
  {
    var h := HistoryOf(items);
    DroppedListed(items);
    assert RequestIds(h.dropped) <= h.dropped.Keys <= s.late.Keys;
    hide *;
    var late, dropped := LateRequests(s.late), RequestIds(h.dropped);
    forall id | id in late
      ensures id in RequestIds(h.counted) + dropped
    {
      LateIsPlaced(items, s, id);
    }
    forall id | id in dropped
      ensures id in late
    {
      DroppedRequestIsLate(items, s, id);
    }
  }

  lemma CountedRequestsFired(items: seq<Item>)
    requires Run(items).job.windows.open == map[]
    ensures RequestsInWindows(Run(items).sinks.agg) == |RequestIds(HistoryOf(items).counted)|
  {
    RunAgrees(items);
    hide HistoryOf, Run, GroupBy, RequestsInWindows;
    RequestsFired(HistoryOf(items), Run(items).job.windows.wm);
  }

  lemma RequestsOfLog(table: seq<D.OutboxRow>, log: seq<Outbox.Entry>, items: seq<Item>, s: Sinks)
    requires D.FreshIds(table) && D.Decided(table) && RealCampaigns(table)
    requires Outbox.LoggedIds(log) == Interval(0, |table|) && StreamOf(items, log, table)
    requires Run(items).job.windows.open == map[] && SameCells(items)
    requires RowsArrived(items, s.late) && Run(items).sinks.late.Keys <= s.late.Keys
    ensures RequestsInWindows(Run(items).sinks.agg) + |LateRequests(s.late)| == |D.FilledRows(table)| + |RequestsTwice(items, s)|
  {
    hide *;
    CountedRequestsFired(items);
    PlacedAreFills(items, log, table);
    RequestsPlaced(items, s);
    FilledEventIdsSize(table);
    TwiceIs(items, s);
    UnionSize(RequestIds(HistoryOf(items).counted), LateRequests(s.late));
  }

  lemma TwiceIs(items: seq<Item>, s: Sinks)
    ensures RequestsTwice(items, s) == RequestIds(HistoryOf(items).counted) * LateRequests(s.late)
  {
  }

  lemma UnionSize(a: set<string>, b: set<string>)
    ensures |a| + |b| == |a + b| + |a * b|
  {
    assert a + b == a + (b - a);
    assert b == (b - a) + (a * b);
  }

  // ---------------------------------------------------------------- what Redis serves

  /** The `agg.minute` message of a row. */
  function MsgOf(k: Window, a: Acc): Serving.Msg
  {
    Serving.Msg(k.campaign, k.start / 1000, a.impressions, a.clicks, a.completes, a.requests, a.ssaiDupes)
  }

  /** The message handled last of each key is the row of that key, and every row has been handled. */
  ghost predicate Served(log: seq<Serving.Handled>, agg: map<Window, Acc>)
  {
    && (forall k :: k in agg ==> NameOf(k) in Serving.Last(log) && Serving.Last(log)[NameOf(k)].msg == MsgOf(k, agg[k]))
    && (forall key :: key in Serving.Last(log) ==> exists k :: k in agg && NameOf(k) == key)
  }

  /** The writer files the message of a row under the row's own campaign and minute. */
  lemma FiledUnderName(k: Window, a: Acc)
    requires k.start % MINUTE == 0
    ensures Serving.KeyOf(MsgOf(k, a)) == NameOf(k) == Serving.Key(k.campaign, k.start / 60_000)
  {
    Seconds(k.start);
    Sixty(k.start / 1000);
  }

  lemma Sixty(s: int)
    ensures s / 60 == (s * 1000) / 60_000
  {
  }

  predicate OnMinutes(agg: map<Window, Acc>)
  {
    forall k :: k in agg ==> k.start % MINUTE == 0
  }

  function NameOf(k: Window): Serving.Key
  {
    Serving.Key(k.campaign, k.start / MINUTE)
  }

  lemma NamesDiffer(j: Window, k: Window)
    requires j.start % MINUTE == 0 && k.start % MINUTE == 0
    ensures NameOf(j) == NameOf(k) ==> j == k
  {
    var q, r := j.start / MINUTE, k.start / MINUTE;
    assert j.start == MINUTE * q && k.start == MINUTE * r;
  }

  lemma RowNamesDiffer(agg: map<Window, Acc>, j: Window, k: Window)
    requires OnMinutes(agg) && j in agg && k in agg
    ensures NameOf(j) == NameOf(k) ==> j == k
  {
    NamesDiffer(j, k);
  }

  /** The last message of a row's key is that row. */
  lemma LastIsRow(log: seq<Serving.Handled>, agg: map<Window, Acc>, k: Window)
    requires Served(log, agg) && OnMinutes(agg) && k in agg
    ensures k.start % MINUTE == 0
    ensures NameOf(k) in Serving.Last(log) && Serving.Last(log)[NameOf(k)].msg == MsgOf(k, agg[k])
  {
    hide Serving.Last, NameOf, MsgOf;
  }

  /** Every key served is that of a row. */
  lemma KeyIsRow(log: seq<Serving.Handled>, agg: map<Window, Acc>, key: Serving.Key) returns (k: Window)
    requires Served(log, agg) && key in Serving.Last(log)
    ensures k in agg && NameOf(k) == key
  {
    hide Serving.Last, MsgOf;
    k :| k in agg && NameOf(k) == key;
  }

  lemma Seconds(t: int)
    requires t % MINUTE == 0
    ensures t / 1000 * 1000 == t
  {
    var q := t / 60_000;
    assert t == 1000 * (60 * q);
  }

  lemma InRange(k: Window, a: Acc, t0: int, t1: int)
    requires k.start % MINUTE == 0 && Aligned(t0, t1)
    ensures t0 / 1000 <= MsgOf(k, a).windowStart <= t1 / 1000 - 1 <==> t0 <= k.start < t1
  {
    Seconds(k.start);
    Seconds(t0);
    Seconds(t1);
    var x, y, z := k.start / 1000, t0 / 1000, t1 / 1000;
    assert MsgOf(k, a).windowStart == x;
    hide *;
  }

  /** What a field of the answer adds up. */
  function FieldOf(a: Acc, f: Serving.Field): int
  {
    match f
    case FImpressions => a.impressions
    case FClicks => a.clicks
    case FCompletes => a.completes
    case FRequests => a.requests
    case FSsaiDupes => a.ssaiDupes
    case FMinutes => 1
  }

  /** The values of one field in one campaign's rows of a range. */
  function RowValues(agg: map<Window, Acc>, c: string, t0: int, t1: int, f: Serving.Field): map<Window, int>
  {
    map k | k in agg && k.campaign == c && t0 <= k.start < t1 :: FieldOf(agg[k], f)
  }

  function ServedValues(log: seq<Serving.Handled>, c: string, t0: int, t1: int, f: Serving.Field): map<Serving.Key, int>
  {
    Serving.Column(Serving.LastIn(log, t0 / 1000, t1 / 1000 - 1), c, f)
  }

  /** The last message of the row's key is in the range, with the row's value. */
  lemma RowInRange(log: seq<Serving.Handled>, agg: map<Window, Acc>, t0: int, t1: int, k: Window)
    requires Served(log, agg) && OnMinutes(agg) && Aligned(t0, t1) && k in agg && t0 <= k.start < t1 && k.campaign != ""
    ensures var rows := Serving.LastIn(log, t0 / 1000, t1 / 1000 - 1);
            NameOf(k) in rows && rows[NameOf(k)] == MsgOf(k, agg[k])
  {
    LastIsRow(log, agg, k);
    hide Served, OnMinutes, Serving.Last, Aligned;
    InRange(k, agg[k], t0, t1);
    assert NameOf(k).campaign == k.campaign;
    hide NameOf, MsgOf;
  }

  lemma ValueOfRow(rows: map<Serving.Key, Serving.Msg>, c: string, f: Serving.Field, key: Serving.Key)
    requires key in rows && key.campaign == c
    ensures var column := Serving.Column(rows, c, f);
            key in column && column[key] == Serving.Pick(rows[key], f)
  {
  }

  lemma MinuteIn(agg: map<Window, Acc>, c: string, t0: int, t1: int, f: Serving.Field, k: Window)
    requires k in RowValues(agg, c, t0, t1, f)
    ensures k in agg && k.campaign == c && t0 <= k.start < t1 && RowValues(agg, c, t0, t1, f)[k] == FieldOf(agg[k], f)
    ensures NameOf(k).campaign == c && Serving.Pick(MsgOf(k, agg[k]), f) == FieldOf(agg[k], f)
  {
  }

  lemma RowIsServed(log: seq<Serving.Handled>, agg: map<Window, Acc>, c: string, t0: int, t1: int, f: Serving.Field, k: Window)
    requires Served(log, agg) && OnMinutes(agg) && Aligned(t0, t1) && c != "" && k in RowValues(agg, c, t0, t1, f)
    ensures var served := ServedValues(log, c, t0, t1, f);
            NameOf(k) in served && served[NameOf(k)] == RowValues(agg, c, t0, t1, f)[k]
  {
    var rows := Serving.LastIn(log, t0 / 1000, t1 / 1000 - 1);
    assert ServedValues(log, c, t0, t1, f) == Serving.Column(rows, c, f);
    hide *;
    MinuteIn(agg, c, t0, t1, f, k);
    RowInRange(log, agg, t0, t1, k);
    ValueOfRow(rows, c, f, NameOf(k));
  }

  lemma ServedIsRow(log: seq<Serving.Handled>, agg: map<Window, Acc>, c: string, t0: int, t1: int, f: Serving.Field, key: Serving.Key) returns (k: Window)
    requires Served(log, agg) && OnMinutes(agg) && Aligned(t0, t1)
    requires key in ServedValues(log, c, t0, t1, f)
    ensures k in RowValues(agg, c, t0, t1, f) && NameOf(k) == key
  {
    k := KeyIsRow(log, agg, key);
    LastIsRow(log, agg, k);
    InRange(k, agg[k], t0, t1);
    hide Served, OnMinutes, Serving.Last, Aligned, NameOf;
  }

  function Naming(m: map<Window, int>): (name: map<Window, Serving.Key>)
  {
    map k | k in m :: NameOf(k)
  }

  lemma Named(m: map<Window, int>, key: Serving.Key) returns (k: Window)
    requires key in Naming(m).Values
    ensures k in m && NameOf(k) == key
  {
    k :| k in m && NameOf(k) == key;
  }

  lemma HasName(m: map<Window, int>, k: Window)
    requires k in m
    ensures NameOf(k) in Naming(m).Values
  {
    assert Naming(m)[k] == NameOf(k);
  }

  lemma KeysAreNames(log: seq<Serving.Handled>, agg: map<Window, Acc>, c: string, t0: int, t1: int, f: Serving.Field)
    requires Served(log, agg) && OnMinutes(agg) && Aligned(t0, t1) && c != ""
    ensures ServedValues(log, c, t0, t1, f).Keys == Naming(RowValues(agg, c, t0, t1, f)).Values
  {
    var m, n := RowValues(agg, c, t0, t1, f), ServedValues(log, c, t0, t1, f);
    hide *;
    forall key | key in Naming(m).Values
      ensures key in n
    {
      var k := Named(m, key);
      RowIsServed(log, agg, c, t0, t1, f, k);
    }
    forall key | key in n
      ensures key in Naming(m).Values
    {
      var k := ServedIsRow(log, agg, c, t0, t1, f, key);
      HasName(m, k);
    }
  }

  lemma SameSums(log: seq<Serving.Handled>, agg: map<Window, Acc>, c: string, t0: int, t1: int, f: Serving.Field)
    requires Served(log, agg) && OnMinutes(agg) && Aligned(t0, t1) && c != ""
    ensures SumMap(ServedValues(log, c, t0, t1, f)) == SumMap(RowValues(agg, c, t0, t1, f))
  {
    var m, n := RowValues(agg, c, t0, t1, f), ServedValues(log, c, t0, t1, f);
    var name := Naming(m);
    assert m.Keys <= agg.Keys;
    assert name.Keys == m.Keys && forall k :: k in m ==> name[k] == NameOf(k);
    hide *;
    KeysAreNames(log, agg, c, t0, t1, f);
    forall k | k in m
      ensures n[name[k]] == m[k]
    {
      RowIsServed(log, agg, c, t0, t1, f, k);
    }
    forall j, k | j in m && k in m && name[j] == name[k]
      ensures j == k
    {
      RowNamesDiffer(agg, j, k);
    }
    SumRenamed(m, n, name);
  }

  /** The sums Redis serves for a range, field by field, are the sums of the rows the job emitted. */
  lemma ServedIsRealtime(log: seq<Serving.Handled>, agg: map<Window, Acc>, c: string, t0: int, t1: int, f: Serving.Field)
    requires Served(log, agg) && OnMinutes(agg) && Aligned(t0, t1) && c != ""
    ensures Serving.SumOf(Serving.LastIn(log, t0 / 1000, t1 / 1000 - 1), c, f) == SumMap(RowValues(agg, c, t0, t1, f))
    ensures SumMap(RowValues(agg, c, t0, t1, Serving.FImpressions)) == RealtimeSum(agg, c, t0, t1)
  {
    assert RowValues(agg, c, t0, t1, Serving.FImpressions) == MinuteValues(agg, c, t0, t1);
    SameSums(log, agg, c, t0, t1, f);
    hide Served, OnMinutes, Serving.LastIn, SumMap, Serving.Column, MinuteValues, RowValues;
  }

  // ---------------------------------------------------------------- what the report prints

  // What `main` of the report reads, as it reads it.

  /** `fetch_realtime`: the impressions of the answer to `/agg/summary`. */
  function FetchRealtime(out: map<string, Serving.Sums>): map<string, int>
  {
    map c | c in out :: out[c].impressions
  }

  function MinuteCampaigns(table: map<Settlement.Bucket, Settlement.Counts>, t0: int, t1: int): set<string>
  {
    set b | b in table && t0 <= b.at < t1 :: b.campaign
  }

  /** `fetch_batch` of a range: the minute rows summed by campaign; a nameless campaign is left out. */
  ghost function FetchMinutes(table: map<Settlement.Bucket, Settlement.Counts>, t0: int, t1: int): map<string, R.BatchSums>
  {
    map c | c in MinuteCampaigns(table, t0, t1) && c != "" ::
      R.BatchSums(Settlement.SumIn(table, Settlement.Impressions, t0, t1, c), Settlement.SumIn(table, Settlement.RawImpressions, t0, t1, c))
  }

  /** `fetch_batch` of a day: its daily rows. */
  function FetchDay(daily: map<Settlement.Bucket, Settlement.DailyRow>, day: int): map<string, R.BatchSums>
  {
    map b | b in daily && b.at == day && b.campaign != "" :: b.campaign := R.BatchSums(daily[b].counts.impressions, daily[b].counts.raw)
  }

  function LateCampaigns(rows: map<string, LateRow>, t0: int, t1: int): set<string>
  {
    set id | id in rows && rows[id].kind == Impression && t0 <= rows[id].time < t1 :: rows[id].campaign
  }

  /** `fetch_late_dropped`: the late impressions of the range, counted by campaign. */
  function FetchLate(rows: map<string, LateRow>, t0: int, t1: int): map<string, int>
  {
    map c | c in LateCampaigns(rows, t0, t1) :: LateCount(rows, c, t0, t1)
  }

  lemma RealtimeFetched(out: map<string, Serving.Sums>, rows: map<Serving.Key, Serving.Msg>, c: string)
    requires Serving.Totals(out, rows)
    ensures R.RealtimeOf(FetchRealtime(out), c) == Serving.SumOf(rows, c, Serving.FImpressions)
  {
    if c in out {
      assert out[c] == Serving.SumsOf(rows, c);
    } else {
      Serving.SumOfNone(rows, c, Serving.FImpressions);
    }
    hide Serving.SumOf;
  }

  lemma NoMinuteNoSum(table: map<Settlement.Bucket, Settlement.Counts>, col: Settlement.Column, t0: int, t1: int, c: string)
    requires c !in MinuteCampaigns(table, t0, t1)
    ensures Settlement.SumIn(table, col, t0, t1, c) == 0
  {
    assert (map b | b in table && b.campaign == c && t0 <= b.at < t1 :: Settlement.Get(table[b], col)) == map[];
  }

  lemma MinutesFetched(table: map<Settlement.Bucket, Settlement.Counts>, t0: int, t1: int, c: string)
    requires c != ""
    ensures R.BatchOf(FetchMinutes(table, t0, t1), c) ==
            R.BatchSums(Settlement.SumIn(table, Settlement.Impressions, t0, t1, c), Settlement.SumIn(table, Settlement.RawImpressions, t0, t1, c))
  {
    if c !in MinuteCampaigns(table, t0, t1) {
      NoMinuteNoSum(table, Settlement.Impressions, t0, t1, c);
      NoMinuteNoSum(table, Settlement.RawImpressions, t0, t1, c);
    }
    hide Settlement.SumIn, MinuteCampaigns;
  }

  lemma DayFetched(list: seq<string>, records: seq<Record>, d: map<string, Batch.Row>, rates: map<string, real>, day: int, c: string)
    requires c != "" && day % DAY == 0
    ensures var table := Settlement.MinuteTable(list, d);
            R.BatchOf(FetchDay(Settlement.DailyTable(list, records, d, rates), day), c) ==
            R.BatchSums(Settlement.SumIn(table, Settlement.Impressions, day, day + DAY, c),
                        Settlement.SumIn(table, Settlement.RawImpressions, day, day + DAY, c))
  {
    DailyReportAgrees(list, records, d, rates, day, c);
    hide Settlement.DailyTable, Settlement.SumIn, Settlement.MinuteTable;
    var b := Settlement.Bucket(day, c);
    var daily := Settlement.DailyTable(list, records, d, rates);
    assert c in FetchDay(daily, day) <==> b in daily;
  }

  lemma LateFetched(rows: map<string, LateRow>, t0: int, t1: int, c: string)
    ensures R.RealtimeOf(FetchLate(rows, t0, t1), c) == LateCount(rows, c, t0, t1)
    ensures c in FetchLate(rows, t0, t1) <==> LateCount(rows, c, t0, t1) > 0
  {
    var ids := LateIds(rows, c, t0, t1);
    if c in LateCampaigns(rows, t0, t1) {
      var id :| id in rows && rows[id].kind == Impression && t0 <= rows[id].time < t1 && rows[id].campaign == c;
      assert id in ids;
    } else {
      assert ids == {};
    }
  }

  /** The batch side of a report: the minute table over a range, or the daily table of a day. */
  ghost predicate BatchSide(batch: map<string, R.BatchSums>, list: seq<string>, records: seq<Record>, d: map<string, Batch.Row>,
                            rates: map<string, real>, t0: int, t1: int)
  {
    || batch == FetchMinutes(Settlement.MinuteTable(list, d), t0, t1)
    || (t0 % DAY == 0 && t1 == t0 + DAY && batch == FetchDay(Settlement.DailyTable(list, records, d, rates), t0))
  }

  lemma BatchFetched(batch: map<string, R.BatchSums>, list: seq<string>, records: seq<Record>, d: map<string, Batch.Row>,
                     rates: map<string, real>, t0: int, t1: int, c: string)
    requires BatchSide(batch, list, records, d, rates, t0, t1) && c != ""
    ensures var table := Settlement.MinuteTable(list, d);
            R.BatchOf(batch, c) == R.BatchSums(Settlement.SumIn(table, Settlement.Impressions, t0, t1, c),
                                               Settlement.SumIn(table, Settlement.RawImpressions, t0, t1, c))
  {
    hide FetchMinutes, FetchDay, Settlement.MinuteTable, Settlement.DailyTable, Settlement.SumIn, R.BatchOf;
    if batch == FetchMinutes(Settlement.MinuteTable(list, d), t0, t1) {
      MinutesFetched(Settlement.MinuteTable(list, d), t0, t1, c);
    } else {
      DayFetched(list, records, d, rates, t0, c);
    }
  }

  lemma NamedCampaigns(out: map<string, Serving.Sums>, rows: map<Serving.Key, Serving.Msg>, batch: map<string, R.BatchSums>,
                       list: seq<string>, records: seq<Record>, d: map<string, Batch.Row>, rates: map<string, real>, t0: int, t1: int)
    requires Serving.Totals(out, rows) && (forall k :: k in rows ==> k.campaign != "")
    requires BatchSide(batch, list, records, d, rates, t0, t1)
    ensures "" !in FetchRealtime(out) && "" !in batch
  {
    hide Settlement.MinuteTable, Settlement.DailyTable, Settlement.SumIn, MinuteCampaigns;
  }

  /** A line of the report carries the residual of its campaign. */
  lemma LineIsResidual(l: R.Line, out: map<string, Serving.Sums>, batch: map<string, R.BatchSums>, log: seq<Serving.Handled>, s: Sinks,
                       list: seq<string>, records: seq<Record>, d: map<string, Batch.Row>, rates: map<string, real>, t0: int, t1: int)
    requires R.IsLine(l, FetchRealtime(out), batch, FetchLate(s.late, t0, t1)) && l.campaign in FetchRealtime(out).Keys + batch.Keys
    requires Serving.Totals(out, Serving.LastIn(log, t0 / 1000, t1 / 1000 - 1)) && BatchSide(batch, list, records, d, rates, t0, t1)
    requires Served(log, s.agg) && OnMinutes(s.agg) && Aligned(t0, t1)
    ensures l.residual == ResidualOf(s, list, d, l.campaign, t0, t1)
  {
    hide *;
    var rows := Serving.LastIn(log, t0 / 1000, t1 / 1000 - 1);
    var late := FetchLate(s.late, t0, t1);
    ServedNames(log, t0 / 1000, t1 / 1000 - 1);
    NamedCampaigns(out, rows, batch, list, records, d, rates, t0, t1);
    RealtimeFetched(out, rows, l.campaign);
    BatchFetched(batch, list, records, d, rates, t0, t1, l.campaign);
    LateFetched(s.late, t0, t1, l.campaign);
    ServedIsRealtime(log, s.agg, l.campaign, t0, t1, Serving.FImpressions);
    LineResidual(l, FetchRealtime(out), batch, late);
    ResidualParts(s, list, d, l.campaign, t0, t1);
  }

  lemma ServedNames(log: seq<Serving.Handled>, start: int, end: int)
    ensures forall k :: k in Serving.LastIn(log, start, end) ==> k.campaign != ""
  {
  }

  lemma LineResidual(l: R.Line, rt: map<string, int>, batch: map<string, R.BatchSums>, late: map<string, int>)
    requires R.IsLine(l, rt, batch, late)
    ensures var b := R.BatchOf(batch, l.campaign);
            l.residual == b.impressions - R.RealtimeOf(rt, l.campaign) - (R.RealtimeOf(late, l.campaign) - (b.raw - b.impressions))
  {
    hide R.BatchOf, R.RealtimeOf, R.Total;
  }

  lemma ResidualParts(s: Sinks, list: seq<string>, d: map<string, Batch.Row>, c: string, t0: int, t1: int)
    ensures var table := Settlement.MinuteTable(list, d);
            var imp, raw := Settlement.SumIn(table, Settlement.Impressions, t0, t1, c), Settlement.SumIn(table, Settlement.RawImpressions, t0, t1, c);
            ResidualOf(s, list, d, c, t0, t1) == imp - RealtimeSum(s.agg, c, t0, t1) - (LateCount(s.late, c, t0, t1) - (raw - imp))
  {
    hide Settlement.MinuteTable, Settlement.SumIn, RealtimeSum, LateCount;
  }

  lemma EmittedOnMinutes(items: seq<Item>)
    ensures OnMinutes(Run(items).sinks.agg)
  {
    RunAgrees(items);
    hide Run, HistoryOf, WatermarkOf, Tally;
  }

  /** The streaming job is through with its input: a checkpoint covers it, and every window has fired.
      Copies of an event lie in one cell. */
  ghost predicate Covered(items: seq<Item>, ttl: int, actions: seq<Recovery.Action>)
  {
    Recovery.Exec(items, ttl, actions).savedPos == |items| && SameCells(items) && Run(items).job.windows.open == map[]
  }

  /** Then the sinks hold, in each column, no less than the job that never forgets and never crashes; more
      exactly when a surviving read counted an id again in it. */
  lemma CrashIsBeyond(items: seq<Item>, ttl: int, actions: seq<Recovery.Action>, q: Count)
    requires Covered(items, ttl, actions)
    ensures var s, full := Recovery.Exec(items, ttl, actions).sinks, Run(items).sinks;
            && AllAtLeast(s.agg, full.agg, q) && RowsArrived(items, s.late) && full.late.Keys <= s.late.Keys
            && (SomeMore(s.agg, full.agg, q) <==> exists n: nat :: RecountsIn(Recovery.Surviving(items, actions).saved, ttl, n, q))
  {
    Recovery.Recovered(items, ttl, actions);
    Recovery.MinuteRowsSurvive(items, ttl, actions);
    Recovery.LateRowsArrive(items, ttl, actions);
    Recovery.LateIdsCover(items, ttl, actions);
    var xs := Recovery.Surviving(items, actions).saved;
    hide Recovery.Exec, Recovery.Surviving, TtlRun, Run, SameCells, RowsArrived, RecountsIn, AllAtLeast, SomeMore;
    ColumnExactlyWhen(xs, ttl, q);
  }

  lemma CrashIsBeyondImpressions(items: seq<Item>, ttl: int, actions: seq<Recovery.Action>)
    requires Covered(items, ttl, actions)
    ensures var s := Recovery.Exec(items, ttl, actions).sinks;
            && Beyond(items, s)
            && (NoSurplus(items, s) <==> forall n: nat :: !RecountsIn(Recovery.Surviving(items, actions).saved, ttl, n, Of(Impression)))
  {
    CrashIsBeyond(items, ttl, actions, Of(Impression));
    hide Covered, Recovery.Exec, Recovery.Surviving, Run, RowsArrived, RecountsIn, AllAtLeast, SomeMore;
  }

  lemma RowsOnMinutes(items: seq<Item>, s: Sinks)
    requires Beyond(items, s)
    ensures OnMinutes(s.agg)
  {
    EmittedOnMinutes(items);
    hide Run, Value, RowsArrived;
  }

  /** Main result. However often the streaming job crashed and whatever expired: the residual is 0 for every
      campaign and range, if and only if no impression is stray, none was counted and has a late row as well,
      and no surviving read counted one again. */
  lemma ResidualExactlyWhen(items: seq<Item>, ttl: int, actions: seq<Recovery.Action>, records: seq<Record>,
                            list: seq<string>, d: map<string, Batch.Row>)
    requires Covered(items, ttl, actions) && SameArchive(items, records, d)
    ensures var s := Recovery.Exec(items, ttl, actions).sinks;
            (forall c, t0, t1 :: Aligned(t0, t1) ==> ResidualOf(s, list, d, c, t0, t1) == 0)
            <==> && (forall r :: r in records ==> !Stray(r)) && (forall id :: !CountedAndLate(items, s, id))
                 && forall n: nat :: !RecountsIn(Recovery.Surviving(items, actions).saved, ttl, n, Of(Impression))
  {
    assert Run(items).job.windows.open == map[];
    hide Covered, Recovery.Exec, Recovery.Surviving, Run, Beyond, NoSurplus, CountedAndLate, Stray, RecountsIn, ResidualOf, Aligned;
    hide Archived, CopiesAgree, MinutesAgree, Routed, Batch.IsDedup;
    CrashIsBeyondImpressions(items, ttl, actions);
    BalancesBeyond(items, records, Recovery.Exec(items, ttl, actions).sinks, list, d);
  }

  /** The archive holds the same records, its copies agree, and d is an outcome of the batch's dedup. */
  ghost predicate SameArchive(items: seq<Item>, records: seq<Record>, d: map<string, Batch.Row>)
  {
    Archived(items, records) && CopiesAgree(records) && MinutesAgree(records) && Routed(records) && Batch.IsDedup(records, d)
  }

  /** What a line shows: minus the stray impressions, minus those counted that have a late row as well,
      minus those counted too many. */
  ghost function Shown(items: seq<Item>, s: Sinks, records: seq<Record>, c: string, t0: int, t1: int): int
  {
    - |StrayIds(records, c, t0, t1)| - |ImpressionsIn(HistoryOf(items).counted, c, t0, t1) * LateIds(s.late, c, t0, t1)|
    - Surplus(items, s, c, t0, t1)
  }

  lemma ReportLine(items: seq<Item>, ttl: int, actions: seq<Recovery.Action>, records: seq<Record>,
                   list: seq<string>, d: map<string, Batch.Row>, rates: map<string, real>, log: seq<Serving.Handled>,
                   out: map<string, Serving.Sums>, batch: map<string, R.BatchSums>, t0: int, t1: int, l: R.Line)
    requires Covered(items, ttl, actions) && SameArchive(items, records, d)
    requires Served(log, Recovery.Exec(items, ttl, actions).sinks.agg) && Aligned(t0, t1)
    requires Serving.Totals(out, Serving.LastIn(log, t0 / 1000, t1 / 1000 - 1)) && BatchSide(batch, list, records, d, rates, t0, t1)
    requires var late := FetchLate(Recovery.Exec(items, ttl, actions).sinks.late, t0, t1);
             R.IsLine(l, FetchRealtime(out), batch, late) && l.campaign in FetchRealtime(out).Keys + batch.Keys
    ensures l.residual == Shown(items, Recovery.Exec(items, ttl, actions).sinks, records, l.campaign, t0, t1)
  {
    CoveredAndArchived(items, ttl, actions, records, d);
    hide *;
    var s := Recovery.Exec(items, ttl, actions).sinks;
    CrashIsBeyondImpressions(items, ttl, actions);
    RowsOnMinutes(items, s);
    LineIsResidual(l, out, batch, log, s, list, records, d, rates, t0, t1);
    ResidualBeyond(items, records, s, list, d, l.campaign, t0, t1);
    ShownIs(items, s, records, l.campaign, t0, t1);
  }

  lemma ShownIs(items: seq<Item>, s: Sinks, records: seq<Record>, c: string, t0: int, t1: int)
    ensures Shown(items, s, records, c, t0, t1) ==
            - |StrayIds(records, c, t0, t1)| - |ImpressionsIn(HistoryOf(items).counted, c, t0, t1) * LateIds(s.late, c, t0, t1)|
            - Surplus(items, s, c, t0, t1)
  {
  }

  lemma CoveredAndArchived(items: seq<Item>, ttl: int, actions: seq<Recovery.Action>, records: seq<Record>, d: map<string, Batch.Row>)
    requires Covered(items, ttl, actions) && SameArchive(items, records, d)
    ensures Run(items).job.windows.open == map[]
    ensures Archived(items, records) && CopiesAgree(records) && MinutesAgree(records) && Routed(records) && Batch.IsDedup(records, d)
  {
  }

  /** Main result: the report end to end. However often the streaming job crashed, whatever expired and
      however often Redis was written to, for a range within the last 48 hours each line shows as its
      residual minus its campaign's stray impressions, minus those counted that have a late row as well,
      minus those counted again: 0 for a campaign without any. */
  method ReportIsExact(w: Serving.RedisWriter, batch: map<string, R.BatchSums>, late: map<string, int>, t0: int, t1: int, now: int,
                       ghost items: seq<Item>, ghost ttl: int, ghost actions: seq<Recovery.Action>, ghost records: seq<Record>,
                       ghost list: seq<string>, ghost d: map<string, Batch.Row>, ghost rates: map<string, real>)
    returns (lines: seq<R.Line>, tRt: int, tBt: int, tLate: int, tSsai: int)
    requires Covered(items, ttl, actions) && SameArchive(items, records, d) && Aligned(t0, t1)
    requires w.Valid() && w.clock <= now && now - 172_800_000 < t0
    requires forall h :: h in w.log ==> h.msg.windowStart * 1000 <= h.at
    requires Served(w.log, Recovery.Exec(items, ttl, actions).sinks.agg)
    requires BatchSide(batch, list, records, d, rates, t0, t1)
    requires late == FetchLate(Recovery.Exec(items, ttl, actions).sinks.late, t0, t1)
    ensures forall l :: l in lines ==> l.residual == Shown(items, Recovery.Exec(items, ttl, actions).sinks, records, l.campaign, t0, t1)
    ensures batch.Keys <= R.Names(lines) && R.InOrder(lines)
    ensures (tBt - tRt) - (tLate - tSsai) == R.Residuals(lines)
    ensures tRt == SumMap(Emitted(R.Names(lines), Recovery.Exec(items, ttl, actions).sinks, t0, t1))
    ensures tBt == SumMap(Settled(R.Names(lines), Settlement.MinuteTable(list, d), t0, t1))
    ensures tSsai == SumMap(GivenUp(R.Names(lines), Settlement.MinuteTable(list, d), t0, t1))
    ensures tLate == SumMap(Dropped(R.Names(lines), Recovery.Exec(items, ttl, actions).sinks, t0, t1))
  {
    var q := Serving.Query(0, Some(t0 / 1000), Some(t1 / 1000));
    AskedRange(q, t0, t1);
    assert Serving.Prompt(w.log);
    hide *;
    var out, total := w.Summary(q, now);
    lines, tRt, tBt, tLate, tSsai := R.Report(FetchRealtime(out), batch, late);
    forall l | l in lines
      ensures l.residual == Shown(items, Recovery.Exec(items, ttl, actions).sinks, records, l.campaign, t0, t1)
    {
      LineNamed(lines, l);
      ReportLine(items, ttl, actions, records, list, d, rates, w.log, out, batch, t0, t1, l);
    }
    ghost var s := Recovery.Exec(items, ttl, actions).sinks;
    CoveredOnMinutes(items, ttl, actions);
    TotalsAre(w.log, s, out, batch, list, records, d, rates, t0, t1);
  }

  // ---------------------------------------------------------------- the totals of the report

  // The numbers of the campaigns listed, by campaign.

  ghost function Emitted(names: set<string>, s: Sinks, t0: int, t1: int): map<string, int>
  {
    map c | c in names :: RealtimeSum(s.agg, c, t0, t1)
  }

  ghost function Settled(names: set<string>, table: map<Settlement.Bucket, Settlement.Counts>, t0: int, t1: int): map<string, int>
  {
    map c | c in names :: Settlement.SumIn(table, Settlement.Impressions, t0, t1, c)
  }

  ghost function GivenUp(names: set<string>, table: map<Settlement.Bucket, Settlement.Counts>, t0: int, t1: int): map<string, int>
  {
    map c | c in names :: Settlement.SumIn(table, Settlement.RawImpressions, t0, t1, c) - Settlement.SumIn(table, Settlement.Impressions, t0, t1, c)
  }

  function Dropped(names: set<string>, s: Sinks, t0: int, t1: int): map<string, int>
  {
    map c | c in names :: LateCount(s.late, c, t0, t1)
  }

  lemma CoveredOnMinutes(items: seq<Item>, ttl: int, actions: seq<Recovery.Action>)
    requires Covered(items, ttl, actions)
    ensures OnMinutes(Recovery.Exec(items, ttl, actions).sinks.agg)
  {
    CrashIsBeyondImpressions(items, ttl, actions);
    RowsOnMinutes(items, Recovery.Exec(items, ttl, actions).sinks);
  }

  /** What the report fetched of one campaign. */
  ghost predicate Fetched(out: map<string, Serving.Sums>, batch: map<string, R.BatchSums>, s: Sinks,
                          table: map<Settlement.Bucket, Settlement.Counts>, t0: int, t1: int, c: string)
  {
    && R.RealtimeOf(FetchRealtime(out), c) == RealtimeSum(s.agg, c, t0, t1)
    && R.BatchOf(batch, c) == R.BatchSums(Settlement.SumIn(table, Settlement.Impressions, t0, t1, c),
                                          Settlement.SumIn(table, Settlement.RawImpressions, t0, t1, c))
    && R.RealtimeOf(FetchLate(s.late, t0, t1), c) == LateCount(s.late, c, t0, t1)
  }

  lemma IsFetched(log: seq<Serving.Handled>, s: Sinks, out: map<string, Serving.Sums>, batch: map<string, R.BatchSums>,
                  list: seq<string>, records: seq<Record>, d: map<string, Batch.Row>, rates: map<string, real>, t0: int, t1: int, c: string)
    requires Served(log, s.agg) && OnMinutes(s.agg) && Aligned(t0, t1) && c != ""
    requires Serving.Totals(out, Serving.LastIn(log, t0 / 1000, t1 / 1000 - 1)) && BatchSide(batch, list, records, d, rates, t0, t1)
    ensures Fetched(out, batch, s, Settlement.MinuteTable(list, d), t0, t1, c)
  {
    RealtimeFetched(out, Serving.LastIn(log, t0 / 1000, t1 / 1000 - 1), c);
    BatchFetched(batch, list, records, d, rates, t0, t1, c);
    LateFetched(s.late, t0, t1, c);
    ServedIsRealtime(log, s.agg, c, t0, t1, Serving.FImpressions);
    hide Served, OnMinutes, FetchRealtime, FetchLate, BatchSide, RealtimeSum, LateCount, R.BatchOf, R.RealtimeOf;
    hide Serving.LastIn, Serving.SumOf, Serving.Totals, Settlement.MinuteTable, Settlement.SumIn, SumMap, RowValues;
  }

  lemma TotalsAre(log: seq<Serving.Handled>, s: Sinks, out: map<string, Serving.Sums>, batch: map<string, R.BatchSums>,
                  list: seq<string>, records: seq<Record>, d: map<string, Batch.Row>, rates: map<string, real>, t0: int, t1: int)
    requires Served(log, s.agg) && OnMinutes(s.agg) && Aligned(t0, t1)
    requires Serving.Totals(out, Serving.LastIn(log, t0 / 1000, t1 / 1000 - 1)) && BatchSide(batch, list, records, d, rates, t0, t1)
    ensures var rt, late := FetchRealtime(out), FetchLate(s.late, t0, t1);
            var names, table := rt.Keys + batch.Keys, Settlement.MinuteTable(list, d);
            && SumMap(rt) == SumMap(Emitted(names, s, t0, t1))
            && SumMap(R.Impressions(batch)) == SumMap(Settled(names, table, t0, t1))
            && SumMap(R.Discarded(batch)) == SumMap(GivenUp(names, table, t0, t1))
            && SumMap(R.Among(late, rt, batch)) == SumMap(Dropped(names, s, t0, t1))
  {
    hide *;
    var rows, table := Serving.LastIn(log, t0 / 1000, t1 / 1000 - 1), Settlement.MinuteTable(list, d);
    var names := FetchRealtime(out).Keys + batch.Keys;
    ServedNames(log, t0 / 1000, t1 / 1000 - 1);
    NamedCampaigns(out, rows, batch, list, records, d, rates, t0, t1);
    forall c | c in names
      ensures Fetched(out, batch, s, table, t0, t1, c)
    {
      IsFetched(log, s, out, batch, list, records, d, rates, t0, t1, c);
    }
    RealtimeTotal(out, batch, s, table, names, t0, t1);
    BatchTotals(out, batch, s, table, names, t0, t1);
    LateTotal(out, batch, s, table, names, t0, t1);
  }

  lemma RealtimeTotal(out: map<string, Serving.Sums>, batch: map<string, R.BatchSums>, s: Sinks,
                      table: map<Settlement.Bucket, Settlement.Counts>, names: set<string>, t0: int, t1: int)
    requires names == FetchRealtime(out).Keys + batch.Keys && forall c :: c in names ==> Fetched(out, batch, s, table, t0, t1, c)
    ensures SumMap(FetchRealtime(out)) == SumMap(Emitted(names, s, t0, t1))
  {
    hide FetchRealtime, RealtimeSum, FetchLate, R.BatchOf, LateCount, Settlement.SumIn;
    SumPadded(FetchRealtime(out), Emitted(names, s, t0, t1));
  }

  lemma BatchTotals(out: map<string, Serving.Sums>, batch: map<string, R.BatchSums>, s: Sinks,
                    table: map<Settlement.Bucket, Settlement.Counts>, names: set<string>, t0: int, t1: int)
    requires names == FetchRealtime(out).Keys + batch.Keys && forall c :: c in names ==> Fetched(out, batch, s, table, t0, t1, c)
    ensures SumMap(R.Impressions(batch)) == SumMap(Settled(names, table, t0, t1))
    ensures SumMap(R.Discarded(batch)) == SumMap(GivenUp(names, table, t0, t1))
  {
    hide FetchRealtime, RealtimeSum, FetchLate, R.RealtimeOf, LateCount, Settlement.SumIn;
    SumPadded(R.Impressions(batch), Settled(names, table, t0, t1));
    SumPadded(R.Discarded(batch), GivenUp(names, table, t0, t1));
  }

  lemma LateTotal(out: map<string, Serving.Sums>, batch: map<string, R.BatchSums>, s: Sinks,
                  table: map<Settlement.Bucket, Settlement.Counts>, names: set<string>, t0: int, t1: int)
    requires names == FetchRealtime(out).Keys + batch.Keys && forall c :: c in names ==> Fetched(out, batch, s, table, t0, t1, c)
    ensures SumMap(R.Among(FetchLate(s.late, t0, t1), FetchRealtime(out), batch)) == SumMap(Dropped(names, s, t0, t1))
  {
    hide FetchRealtime, RealtimeSum, FetchLate, R.BatchOf, LateCount, Settlement.SumIn;
    SumPadded(R.Among(FetchLate(s.late, t0, t1), FetchRealtime(out), batch), Dropped(names, s, t0, t1));
  }

  lemma LineNamed(lines: seq<R.Line>, l: R.Line)
    requires l in lines
    ensures l.campaign in R.Names(lines)
  {
  }

  /** A range of whole minutes is asked for as it is. */
  lemma AskedRange(q: Serving.Query, t0: int, t1: int)
    requires Aligned(t0, t1) && q.from == Some(t0 / 1000) && q.to == Some(t1 / 1000)
    ensures Serving.FirstSecond(q) == t0 / 1000 && Serving.LastSecond(q) == t1 / 1000 - 1 && Serving.FirstSecond(q) * 1000 == t0
  {
    WholeMinute(t0);
    WholeMinute(t1);
  }

  lemma WholeMinute(t: int)
    requires t % MINUTE == 0
    ensures t / 1000 / 60 * 60 == t / 1000 && t / 1000 * 1000 == t
  {
    var q := t / MINUTE;
    assert t == 1000 * (60 * q);
    assert t / 1000 == 60 * q;
  }
}
