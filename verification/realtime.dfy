/** The streaming job of sql/pipeline.sql as a state machine: union of the sources, first-arrival
    de-duplication, one-minute tumbling windows closed by a watermark, and the late-event branch. */
module Realtime {
  import opened Events

  datatype Kind = Impression | Quartile | Complete | Click | Request

  datatype Event = Event(
    id: string, campaign: string, adRequestId: Option<string>, time: int, kind: Kind, twin: bool)

  /** View `all_events`: which records are events, and of which kind. */
  function AllEvents(r: Record): (ev: Option<Event>)
  {
    match r.topic
    case AdImpression =>
      if r.campaign.None? then None
      else Some(Event(r.eventId, r.campaign.value, r.adRequestId, r.eventTime, Impression, r.twinOf.Some?))
    case AdQuartile =>
      if r.campaign.None? then None
      else
        var kind := if r.quartile == Some("complete") then Complete else Quartile;
        Some(Event(r.eventId, r.campaign.value, r.adRequestId, r.eventTime, kind, false))
    case AdClick =>
      if r.campaign.None? then None
      else Some(Event(r.eventId, r.campaign.value, r.adRequestId, r.eventTime, Click, false))
    case AdRequest =>
      if r.eventType == "ad_response" && r.fill == Some(true) && r.campaign.Some? && r.campaign.value != "nofill"
      then Some(Event(r.eventId, r.campaign.value, r.adRequestId, r.eventTime, Request, false))
      else None
    case UserBehavior => None
  }

  // ---------------------------------------------------------------- windows

  /** GROUP BY window_start, campaign_id. */
  datatype Window = Window(start: int, campaign: string)

  function WindowOf(ev: Event): Window
  {
    Window(MinuteOf(ev.time), ev.campaign)
  }

  /** The window operator has fired [start, start + 1 min): the watermark reached its last millisecond. */
  predicate Closed(wm: Option<int>, start: int)
  {
    wm.Some? && wm.value >= start + MINUTE - 1
  }

  /** The filter of view `late_at_window`, which computes the window end by itself. */
  predicate LateAtWindow(wm: Option<int>, ev: Event)
  {
    var windowEnd := MinuteOf(ev.time) + MINUTE;
    wm != None && wm.value >= windowEnd - 1
  }

  datatype Acc = Acc(impressions: nat, clicks: nat, completes: nat, requests: nat, ssaiDupes: nat)

  const ZERO := Acc(0, 0, 0, 0, 0)

  function Bump(a: Acc, ev: Event): Acc
  {
    var b := match ev.kind
      case Impression => a.(impressions := a.impressions + 1)
      case Click => a.(clicks := a.clicks + 1)
      case Complete => a.(completes := a.completes + 1)
      case Request => a.(requests := a.requests + 1)
      case Quartile => a;
    b.(ssaiDupes := b.ssaiDupes + if ev.twin then 1 else 0)
  }

  /** A row of `late_dropped`. */
  datatype LateRow = LateRow(
    kind: Kind, campaign: string, adRequestId: Option<string>, time: int, windowEnd: int, watermark: int)

  /** What one step writes: closed windows to `agg.minute`, and a late event to both
      `late_dropped` and `late.events`. */
  datatype Output = Output(agg: map<Window, Acc>, late: map<string, LateRow>)

  const SILENT := Output(map[], map[])

  datatype Windows = Windows(wm: Option<int>, open: map<Window, Acc>)

  /** An event that passed de-duplication reaches the window operator and the late branch. */
  function Admit(w: Windows, ev: Event): (Windows, Output)
  {
    var k := WindowOf(ev);
    var w' := if Closed(w.wm, k.start) then w
              else w.(open := w.open[k := Bump(if k in w.open then w.open[k] else ZERO, ev)]);
    var late := if LateAtWindow(w.wm, ev)
                then map[ev.id := LateRow(ev.kind, ev.campaign, ev.adRequestId, ev.time, k.start + MINUTE, w.wm.value)]
                else map[];
    (w', Output(map[], late))
  }

  /** The open windows that watermark t closes. */
  function Due(open: map<Window, Acc>, t: int): map<Window, Acc>
  {
    map k | k in open && Closed(Some(t), k.start) :: open[k]
  }

  /** A watermark never goes back; an advance fires every window whose last millisecond it reached. */
  function Tick(w: Windows, t: int): (Windows, Output)
  {
    if w.wm.Some? && t <= w.wm.value then (w, SILENT)
    else
      var due := Due(w.open, t);
      (Windows(Some(t), w.open - due.Keys), Output(due, map[]))
  }

  // ---------------------------------------------------------------- the job

  datatype Item = Arrive(r: Record) | Mark(t: int)

  /** The job while no id expires from the de-duplication state. */
  datatype Job = Job(seen: set<string>, windows: Windows)

  const FRESH := Job({}, Windows(None, map[]))

  function Step(j: Job, it: Item): (Job, Output)
  {
    match it
    case Mark(t) =>
      var (w, o) := Tick(j.windows, t);
      (j.(windows := w), o)
    case Arrive(r) =>
      var ev := AllEvents(r);
      if ev.None? || ev.value.id in j.seen then (j, SILENT)
      else
        var (w, o) := Admit(j.windows, ev.value);
        (Job(j.seen + {ev.value.id}, w), o)
  }

  /** Where the outputs land: `agg.minute` by key, `late_dropped` by event_id (upsert), and the
      `late:total` counter, which counts every `late.events` message. */
  datatype Sinks = Sinks(agg: map<Window, Acc>, late: map<string, LateRow>, lateTotal: nat)

  const EMPTY := Sinks(map[], map[], 0)

  function Deliver(s: Sinks, o: Output): Sinks
  {
    Sinks(s.agg + o.agg, s.late + o.late, s.lateTotal + |o.late|)
  }

  datatype World = World(job: Job, sinks: Sinks)

  function Advance(w: World, it: Item): World
  {
    var (j, o) := Step(w.job, it);
    World(j, Deliver(w.sinks, o))
  }

  function Run(items: seq<Item>): World
  {
    if items == [] then World(FRESH, EMPTY)
    else Advance(Run(items[..|items| - 1]), items[|items| - 1])
  }

  // ---------------------------------------------------------------- offline description

  /** Which ids were counted in a window and which were dropped, with the event admitted. */
  datatype History = History(counted: map<string, Event>, dropped: map<string, Event>)

  /** The highest watermark so far. */
  function WatermarkOf(items: seq<Item>): Option<int>
  {
    if items == [] then None
    else
      var wm := WatermarkOf(items[..|items| - 1]);
      match items[|items| - 1]
      case Arrive(_) => wm
      case Mark(t) => if wm.Some? && t <= wm.value then wm else Some(t)
  }

  /** The place of the next event: dropped if its minute is already closed, else counted. */
  function Record1(h: History, wm: Option<int>, ev: Event): History
  {
    if Closed(wm, MinuteOf(ev.time)) then h.(dropped := h.dropped[ev.id := ev])
    else h.(counted := h.counted[ev.id := ev])
  }

  /** Every id is placed once, by its first arrival and the watermark at that moment. */
  function HistoryOf(items: seq<Item>): History
  {
    if items == [] then History(map[], map[])
    else
      var before := items[..|items| - 1];
      var h := HistoryOf(before);
      match items[|items| - 1]
      case Mark(_) => h
      case Arrive(r) =>
        var ev := AllEvents(r);
        if ev.None? || ev.value.id in h.counted || ev.value.id in h.dropped then h
        else Record1(h, WatermarkOf(before), ev.value)
  }

  // ---------------------------------------------------------------- group by

  /** WHERE kind = ... within one (window, campaign) group. */
  function Cell(events: map<string, Event>, k: Window, kind: Kind): set<string>
  {
    set id | id in events && WindowOf(events[id]) == k && events[id].kind == kind
  }

  function Twins(events: map<string, Event>, k: Window): set<string>
  {
    set id | id in events && WindowOf(events[id]) == k && events[id].twin
  }

  /** COUNT(*) FILTER (...) and SUM(is_ssai_twin) of one (window, campaign) group. */
  function Tally(events: map<string, Event>, k: Window): Acc
  {
    Acc(|Cell(events, k, Impression)|, |Cell(events, k, Click)|, |Cell(events, k, Complete)|,
        |Cell(events, k, Request)|, |Twins(events, k)|)
  }

  function Groups(events: map<string, Event>): set<Window>
  {
    set id | id in events :: WindowOf(events[id])
  }

  /** The group-by of the counted events, over the windows that are closed (or still open) at wm. */
  function GroupBy(events: map<string, Event>, wm: Option<int>, closed: bool): map<Window, Acc>
  {
    map k | k in Groups(events) && Closed(wm, k.start) == closed :: Tally(events, k)
  }

  /** The row `late_dropped` keeps of an event. */
  predicate Describes(row: LateRow, ev: Event)
  {
    && row.kind == ev.kind && row.campaign == ev.campaign && row.adRequestId == ev.adRequestId
    && row.time == ev.time && row.windowEnd == MinuteOf(ev.time) + MINUTE
    && row.watermark >= row.windowEnd - 1
  }

  /** The accumulators, the emitted rows and the late rows are exactly the group-by of the history. */
  ghost predicate Reflects(w: Windows, s: Sinks, h: History)
  {
    && w.open == GroupBy(h.counted, w.wm, false)
    && s.agg == GroupBy(h.counted, w.wm, true)
    && Listed(s.late, h.dropped)
    && s.lateTotal >= |s.late|
  }

  /** One row per dropped id, describing the event dropped. */
  ghost predicate Listed(late: map<string, LateRow>, dropped: map<string, Event>)
  {
    && late.Keys == dropped.Keys
    && (forall id :: id in dropped ==> Describes(late[id], dropped[id]))
  }

  lemma CellOfAdded(events: map<string, Event>, ev: Event, k: Window, kind: Kind)
    requires ev.id !in events
    ensures Cell(events[ev.id := ev], k, kind) ==
            Cell(events, k, kind) + if WindowOf(ev) == k && ev.kind == kind then {ev.id} else {}
    ensures ev.id !in Cell(events, k, kind)
  {
    hide WindowOf;
  }

  lemma CellAdd(events: map<string, Event>, ev: Event, k: Window, kind: Kind)
    requires ev.id !in events
    ensures |Cell(events[ev.id := ev], k, kind)| ==
            |Cell(events, k, kind)| + if WindowOf(ev) == k && ev.kind == kind then 1 else 0
  {
    hide *;
    CellOfAdded(events, ev, k, kind);
  }

  lemma TwinsOfAdded(events: map<string, Event>, ev: Event, k: Window)
    requires ev.id !in events
    ensures Twins(events[ev.id := ev], k) == Twins(events, k) + if WindowOf(ev) == k && ev.twin then {ev.id} else {}
    ensures ev.id !in Twins(events, k)
  {
    hide WindowOf;
  }

  lemma TwinsAdd(events: map<string, Event>, ev: Event, k: Window)
    requires ev.id !in events
    ensures |Twins(events[ev.id := ev], k)| ==
            |Twins(events, k)| + if WindowOf(ev) == k && ev.twin then 1 else 0
  {
    hide *;
    TwinsOfAdded(events, ev, k);
  }

  lemma TallyAdd(events: map<string, Event>, ev: Event, k: Window)
    requires ev.id !in events
    ensures Tally(events[ev.id := ev], k) ==
            if WindowOf(ev) == k then Bump(Tally(events, k), ev) else Tally(events, k)
  {
    hide Cell, Twins;
    CellAdd(events, ev, k, Impression);
    CellAdd(events, ev, k, Click);
    CellAdd(events, ev, k, Complete);
    CellAdd(events, ev, k, Request);
    TwinsAdd(events, ev, k);
  }

  lemma TallyAbsent(events: map<string, Event>, k: Window)
    requires k !in Groups(events)
    ensures Tally(events, k) == ZERO
  {
    forall id | id in events
      ensures WindowOf(events[id]) != k
    {
      assert WindowOf(events[id]) in Groups(events);
    }
    assert Cell(events, k, Impression) == {} && Cell(events, k, Click) == {};
    assert Cell(events, k, Complete) == {} && Cell(events, k, Request) == {};
    assert Twins(events, k) == {};
  }

  lemma GroupsAdd(events: map<string, Event>, ev: Event)
    requires ev.id !in events
    ensures Groups(events[ev.id := ev]) == Groups(events) + {WindowOf(ev)}
  {
    var events' := events[ev.id := ev];
    forall k | k in Groups(events) + {WindowOf(ev)}
      ensures k in Groups(events')
    {
      if k == WindowOf(ev) {
        assert ev.id in events' && WindowOf(events'[ev.id]) == k;
      } else {
        var id :| id in events && WindowOf(events[id]) == k;
        assert id in events' && WindowOf(events'[id]) == k;
      }
    }
  }

  /** Counting one more event changes its own open group and nothing else. */
  lemma GroupByAdd(events: map<string, Event>, ev: Event, wm: Option<int>)
    requires ev.id !in events && !Closed(wm, MinuteOf(ev.time))
    ensures GroupBy(events[ev.id := ev], wm, true) == GroupBy(events, wm, true)
    ensures var open := GroupBy(events, wm, false); var k := WindowOf(ev);
            GroupBy(events[ev.id := ev], wm, false) == open[k := Bump(if k in open then open[k] else ZERO, ev)]
  {
    hide Tally, MinuteOf;
    GroupsAdd(events, ev);
    hide Groups;
    forall k
      ensures Tally(events[ev.id := ev], k) ==
              if WindowOf(ev) == k then Bump(Tally(events, k), ev) else Tally(events, k)
    {
      TallyAdd(events, ev, k);
    }
    var k := WindowOf(ev);
    if k !in Groups(events) {
      TallyAbsent(events, k);
    }
  }

  lemma DeliverSilent(s: Sinks)
    ensures Deliver(s, SILENT) == s
  {
    DeliverAgg(s, map[]);
    MergeNone(s.agg);
  }

  lemma MergeNone<K, V>(m: map<K, V>)
    ensures m + map[] == m
  {
  }

  lemma DeliverAgg(s: Sinks, agg: map<Window, Acc>)
    ensures Deliver(s, Output(agg, map[])) == Sinks(s.agg + agg, s.late, s.lateTotal)
  {
    MergeNone(s.late);
  }

  lemma DeliverLate(s: Sinks, id: string, row: LateRow)
    ensures Deliver(s, Output(map[], map[id := row])) == Sinks(s.agg, s.late[id := row], s.lateTotal + 1)
    ensures |s.late[id := row]| <= |s.late| + 1
  {
    MergeNone(s.agg);
    MergeOne(s.late, id, row);
  }

  lemma MergeOne<K, V>(m: map<K, V>, k: K, v: V)
    ensures m + map[k := v] == m[k := v] && |map[k := v]| == 1
    ensures |m| <= |m[k := v]| <= |m| + 1
  {
    assert map[k := v].Keys == {k};
    assert |map[k := v]| == |map[k := v].Keys|;
    assert m[k := v].Keys == m.Keys + {k};
    assert |m[k := v]| == |m[k := v].Keys| && |m| == |m.Keys|;
  }

  lemma AdmitLate(w: Windows, s: Sinks, h: History, ev: Event)
    requires Reflects(w, s, h) && Closed(w.wm, MinuteOf(ev.time))
    ensures Reflects(Admit(w, ev).0, Deliver(s, Admit(w, ev).1), Record1(h, w.wm, ev))
  {
    hide MinuteOf, GroupBy, Deliver;
    var row := LateRow(ev.kind, ev.campaign, ev.adRequestId, ev.time, MinuteOf(ev.time) + MINUTE, w.wm.value);
    assert Admit(w, ev) == (w, Output(map[], map[ev.id := row]));
    DeliverLate(s, ev.id, row);
    ListedAdd(s.late, h.dropped, ev, row);
    hide Listed, Describes;
  }

  lemma ListedAdd(late: map<string, LateRow>, dropped: map<string, Event>, ev: Event, row: LateRow)
    requires Listed(late, dropped) && Describes(row, ev)
    ensures Listed(late[ev.id := row], dropped[ev.id := ev])
  {
    hide Describes;
  }

  lemma AdmitCounted(w: Windows, s: Sinks, h: History, ev: Event)
    requires Reflects(w, s, h) && !Closed(w.wm, MinuteOf(ev.time)) && ev.id !in h.counted
    ensures Reflects(Admit(w, ev).0, Deliver(s, Admit(w, ev).1), Record1(h, w.wm, ev))
  {
    hide MinuteOf, Describes, Deliver;
    GroupByAdd(h.counted, ev, w.wm);
    hide GroupBy, Bump;
    DeliverSilent(s);
    assert Admit(w, ev).1 == SILENT;
  }

  /** An event that is late, or not yet counted, is added to the history by the machine too. */
  lemma AdmitReflects(w: Windows, s: Sinks, h: History, ev: Event)
    requires Reflects(w, s, h)
    requires Closed(w.wm, MinuteOf(ev.time)) || ev.id !in h.counted
    ensures Reflects(Admit(w, ev).0, Deliver(s, Admit(w, ev).1), Record1(h, w.wm, ev))
    ensures Admit(w, ev).0.wm == w.wm
  {
    hide Reflects, Deliver, Record1, MinuteOf;
    if Closed(w.wm, MinuteOf(ev.time)) {
      AdmitLate(w, s, h, ev);
    } else {
      AdmitCounted(w, s, h, ev);
    }
  }

  /** What fires at watermark t is the part of the open groups that t closes. */
  lemma TickGroups(events: map<string, Event>, wm: Option<int>, t: int)
    requires !(wm.Some? && t <= wm.value)
    ensures var open := GroupBy(events, wm, false); var due := Due(open, t);
            && open - due.Keys == GroupBy(events, Some(t), false)
            && GroupBy(events, wm, true) + due == GroupBy(events, Some(t), true)
  {
    hide Tally, Groups, MinuteOf;
    var open, fired := GroupBy(events, wm, false), GroupBy(events, wm, true);
    var due := Due(open, t);
    var open', fired' := GroupBy(events, Some(t), false), GroupBy(events, Some(t), true);
    assert forall start :: Closed(wm, start) ==> Closed(Some(t), start);
    assert (open - due.Keys).Keys == open'.Keys;
    assert (fired + due).Keys == fired'.Keys;
  }

  /** A watermark moves whole groups from open to emitted. */
  lemma TickReflects(w: Windows, s: Sinks, h: History, t: int)
    requires Reflects(w, s, h)
    ensures Reflects(Tick(w, t).0, Deliver(s, Tick(w, t).1), h)
    ensures Tick(w, t).0.wm == if w.wm.Some? && t <= w.wm.value then w.wm else Some(t)
  {
    hide Closed, MinuteOf, GroupBy, Due, Listed, Deliver;
    if w.wm.Some? && t <= w.wm.value {
      DeliverSilent(s);
    } else {
      TickGroups(h.counted, w.wm, t);
      DeliverAgg(s, Due(w.open, t));
    }
  }

  lemma InitReflects()
    ensures Reflects(FRESH.windows, EMPTY, History(map[], map[]))
  {
  }

  /** The machine agrees with the description: same watermark, same ids, each id in one part only. */
  ghost predicate Agrees(w: World, wm: Option<int>, h: History)
  {
    && w.job.windows.wm == wm
    && Reflects(w.job.windows, w.sinks, h)
    && w.job.seen == h.counted.Keys + h.dropped.Keys
    && h.counted.Keys !! h.dropped.Keys
  }

  lemma RecordKeys(h: History, wm: Option<int>, ev: Event)
    requires h.counted.Keys !! h.dropped.Keys && ev.id !in h.counted && ev.id !in h.dropped
    ensures var h' := Record1(h, wm, ev);
            h'.counted.Keys + h'.dropped.Keys == h.counted.Keys + h.dropped.Keys + {ev.id} && h'.counted.Keys !! h'.dropped.Keys
  {
    hide Closed, MinuteOf;
  }

  lemma ArriveAdmits(w: World, h: History, r: Record)
    requires Agrees(w, w.job.windows.wm, h) && AllEvents(r).Some? && AllEvents(r).value.id !in w.job.seen
    ensures Agrees(Advance(w, Arrive(r)), w.job.windows.wm, Record1(h, w.job.windows.wm, AllEvents(r).value))
  {
    var ev := AllEvents(r).value;
    hide AllEvents, Reflects, Admit, MinuteOf, Closed, Deliver, Record1;
    AdmitReflects(w.job.windows, w.sinks, h, ev);
    RecordKeys(h, w.job.windows.wm, ev);
  }

  lemma ArriveAgrees(w: World, h: History, r: Record)
    requires Agrees(w, w.job.windows.wm, h)
    ensures var ev := AllEvents(r);
            Agrees(Advance(w, Arrive(r)), w.job.windows.wm,
                   if ev.None? || ev.value.id in h.counted || ev.value.id in h.dropped then h
                   else Record1(h, w.job.windows.wm, ev.value))
  {
    hide AllEvents, Reflects, Admit, MinuteOf, Closed, Deliver, Record1;
    if AllEvents(r).None? || AllEvents(r).value.id in w.job.seen {
      DeliverSilent(w.sinks);
    } else {
      ArriveAdmits(w, h, r);
    }
  }

  /** Main invariant, for every interleaving of events, duplicates and watermarks: the machine's
      watermark, seen ids, accumulators, emitted rows and late rows are the offline description. */
  lemma {:induction false} RunAgrees(items: seq<Item>)
    ensures Agrees(Run(items), WatermarkOf(items), HistoryOf(items))
  {
    if items == [] {
      InitReflects();
    } else {
      var before, it := items[..|items| - 1], items[|items| - 1];
      RunAgrees(before);
      match it
      case Mark(t) =>
        hide Reflects;
        TickReflects(Run(before).job.windows, Run(before).sinks, HistoryOf(before), t);
      case Arrive(r) =>
        hide Reflects, Advance, Record1, AllEvents;
        ArriveAgrees(Run(before), HistoryOf(before), r);
    }
  }

  // ---------------------------------------------------------------- what holds at every moment

  /** The ids whose minute has been emitted, and those whose minute is still open. */
  function Placed(h: History, wm: Option<int>, closed: bool): set<string>
  {
    set id | id in h.counted && Closed(wm, MinuteOf(h.counted[id].time)) == closed
  }

  /** The admitted ids split into emitted, still open and late; the rows of each sink are exactly
      the groups of its own part. */
  lemma ThreeParts(items: seq<Item>)
    ensures var w, h := Run(items), HistoryOf(items); var wm := w.job.windows.wm;
            var fired, open, late := Placed(h, wm, true), Placed(h, wm, false), h.dropped.Keys;
            && w.job.seen == fired + open + late
            && fired !! open && fired !! late && open !! late
            && w.sinks.agg.Keys == (set id | id in fired :: WindowOf(h.counted[id]))
            && w.job.windows.open.Keys == (set id | id in open :: WindowOf(h.counted[id]))
            && w.sinks.late.Keys == late
            && (forall k :: k in w.sinks.agg ==> w.sinks.agg[k] == Tally(h.counted, k))
            && (forall k :: k in w.job.windows.open ==> w.job.windows.open[k] == Tally(h.counted, k))
            && (forall id :: id in late ==> Describes(w.sinks.late[id], h.dropped[id]))
  {
    RunAgrees(items);
    hide Run, HistoryOf, WatermarkOf, Tally, MinuteOf, Describes;
    var w, h := Run(items), HistoryOf(items);
    var wm := w.job.windows.wm;
    assert h.counted.Keys == Placed(h, wm, true) + Placed(h, wm, false);
    forall closed: bool
      ensures GroupBy(h.counted, wm, closed).Keys == set id | id in Placed(h, wm, closed) :: WindowOf(h.counted[id])
    {
      PlacedGroups(h, wm, closed);
    }
  }

  lemma PlacedGroups(h: History, wm: Option<int>, closed: bool)
    ensures GroupBy(h.counted, wm, closed).Keys == set id | id in Placed(h, wm, closed) :: WindowOf(h.counted[id])
  {
    hide Tally, MinuteOf;
    forall k | k in GroupBy(h.counted, wm, closed)
      ensures exists id :: id in Placed(h, wm, closed) && WindowOf(h.counted[id]) == k
    {
      var id :| id in h.counted && WindowOf(h.counted[id]) == k;
      assert id in Placed(h, wm, closed);
    }
  }

  /** A step emits only windows never emitted before, and drops only ids never dropped before. */
  lemma StepIsFresh(items: seq<Item>, it: Item)
    ensures var o := Step(Run(items).job, it).1;
            o.agg.Keys !! Run(items).sinks.agg.Keys && o.late.Keys !! Run(items).sinks.late.Keys
  {
    RunAgrees(items);
    hide Run, HistoryOf, WatermarkOf, Tally, MinuteOf, Groups;
  }

  ghost predicate Extends<K, V>(small: map<K, V>, big: map<K, V>)
  {
    small.Keys <= big.Keys && forall k :: k in small ==> big[k] == small[k]
  }

  lemma MergeExtends<K, V>(small: map<K, V>, m: map<K, V>, n: map<K, V>)
    requires Extends(small, m) && m.Keys !! n.Keys
    ensures Extends(small, m + n)
  {
  }

  /** What has been emitted or dropped is never changed by a later event or watermark. */
  lemma {:induction false} WrittenForever(items: seq<Item>, n: nat)
    requires n <= |items|
    ensures Extends(Run(items[..n]).sinks.agg, Run(items).sinks.agg)
    ensures Extends(Run(items[..n]).sinks.late, Run(items).sinks.late)
    decreases |items|
  {
    if n == |items| {
      assert items[..n] == items;
    } else {
      var before, it := items[..|items| - 1], items[|items| - 1];
      WrittenForever(before, n);
      assert before[..n] == items[..n];
      StepIsFresh(before, it);
      hide Step, Extends;
      var s, o := Run(before).sinks, Step(Run(before).job, it).1;
      assert Run(items).sinks == Deliver(s, o);
      hide Run;
      MergeExtends(Run(items[..n]).sinks.agg, s.agg, o.agg);
      MergeExtends(Run(items[..n]).sinks.late, s.late, o.late);
    }
  }

  /** Without a crash the counter is the number of rows: every dropped id is reported once. */
  lemma {:induction false} LateTotalIsExact(items: seq<Item>)
    ensures Run(items).sinks.lateTotal == |Run(items).sinks.late|
  {
    if items != [] {
      var before, it := items[..|items| - 1], items[|items| - 1];
      LateTotalIsExact(before);
      StepIsFresh(before, it);
      var s, o := Run(before).sinks, Step(Run(before).job, it).1;
      assert Run(items).sinks == Deliver(s, o);
      hide Run, Step;
      MergeSize(s.late, o.late);
    }
  }

  lemma MergeSize<K, V>(m: map<K, V>, n: map<K, V>)
    requires m.Keys !! n.Keys
    ensures |m + n| == |m| + |n|
  {
    assert (m + n).Keys == m.Keys + n.Keys;
    assert |m + n| == |(m + n).Keys| && |m| == |m.Keys| && |n| == |n.Keys|;
  }

  // ---------------------------------------------------------------- first arrival

  predicate ArrivesAt(items: seq<Item>, i: nat, ev: Event)
  {
    i < |items| && items[i].Arrive? && AllEvents(items[i].r) == Some(ev)
  }

  /** items[i] is the first arrival of ev's id. */
  ghost predicate FirstArrival(items: seq<Item>, i: nat, ev: Event)
  {
    ArrivesAt(items, i, ev) &&
    forall j: nat, e :: j < i && ArrivesAt(items, j, e) ==> e.id != ev.id
  }

  lemma HistoryIds(items: seq<Item>, id: string)
    ensures id in HistoryOf(items).counted || id in HistoryOf(items).dropped <==>
            exists i: nat, ev :: ArrivesAt(items, i, ev) && ev.id == id
  {
    hide AllEvents, MinuteOf;
    if items != [] {
      var before, it := items[..|items| - 1], items[|items| - 1];
      HistoryIds(before, id);
      if i: nat, ev :| ArrivesAt(items, i, ev) && ev.id == id {
        if i < |before| { assert ArrivesAt(before, i, ev); }
      }
      if i: nat, ev :| ArrivesAt(before, i, ev) && ev.id == id {
        assert ArrivesAt(items, i, ev);
      }
      if it.Arrive? && AllEvents(it.r).Some? && AllEvents(it.r).value.id == id {
        assert ArrivesAt(items, |items| - 1, AllEvents(it.r).value);
      }
    }
  }

  /** The event kept of an id is its first arrival, dropped exactly when its minute was closed then. */
  lemma {:induction false} FirstArrivalDecides(items: seq<Item>, i: nat, ev: Event)
    requires FirstArrival(items, i, ev)
    ensures var h := HistoryOf(items);
            if Closed(WatermarkOf(items[..i]), MinuteOf(ev.time))
            then ev.id in h.dropped && h.dropped[ev.id] == ev && ev.id !in h.counted
            else ev.id in h.counted && h.counted[ev.id] == ev && ev.id !in h.dropped
  {
    hide AllEvents, MinuteOf;
    var before, it := items[..|items| - 1], items[|items| - 1];
    if i < |before| {
      assert items[..i] == before[..i];
      assert ArrivesAt(before, i, ev);
      forall j: nat, e | j < i && ArrivesAt(before, j, e)
        ensures e.id != ev.id
      {
        assert ArrivesAt(items, j, e);
      }
      FirstArrivalDecides(before, i, ev);
    } else {
      HistoryIds(before, ev.id);
      forall j: nat, e | ArrivesAt(before, j, e)
        ensures e.id != ev.id
      {
        assert ArrivesAt(items, j, e);
      }
    }
  }

  /** Every event placed is one that arrived. */
  ghost predicate Arrived(ev: Event, id: string, items: seq<Item>)
  {
    ev.id == id && exists i: nat :: ArrivesAt(items, i, ev)
  }

  ghost predicate AllArrived(h: History, items: seq<Item>)
  {
    && (forall id :: id in h.counted ==> Arrived(h.counted[id], id, items))
    && (forall id :: id in h.dropped ==> Arrived(h.dropped[id], id, items))
  }

  lemma ArrivedLater(ev: Event, id: string, items: seq<Item>, n: nat)
    requires n <= |items| && Arrived(ev, id, items[..n])
    ensures Arrived(ev, id, items)
  {
    var i: nat :| ArrivesAt(items[..n], i, ev);
    assert ArrivesAt(items, i, ev);
  }

  lemma AllArrivedLater(h: History, items: seq<Item>, n: nat)
    requires n <= |items| && AllArrived(h, items[..n])
    ensures AllArrived(h, items)
  {
    forall id | id in h.counted { ArrivedLater(h.counted[id], id, items, n); }
    forall id | id in h.dropped { ArrivedLater(h.dropped[id], id, items, n); }
    hide Arrived;
  }

  lemma {:induction false} HistoryArrived(items: seq<Item>)
    ensures AllArrived(HistoryOf(items), items)
  {
    if items != [] {
      hide AllEvents, Closed, MinuteOf;
      var n := |items| - 1;
      HistoryArrived(items[..n]);
      AllArrivedLater(HistoryOf(items[..n]), items, n);
      if items[n].Arrive? && AllEvents(items[n].r).Some? {
        var ev := AllEvents(items[n].r).value;
        assert ArrivesAt(items, n, ev);
        assert Arrived(ev, ev.id, items);
      }
      hide Arrived;
    }
  }

  /** A minute that is closed stays closed. */
  lemma {:induction false} ClosedForever(items: seq<Item>, m: nat, n: nat, start: int)
    requires m <= n <= |items| && Closed(WatermarkOf(items[..m]), start)
    ensures Closed(WatermarkOf(items[..n]), start)
    decreases n
  {
    if m < n {
      ClosedForever(items, m, n - 1, start);
      assert items[..n][..n - 1] == items[..n - 1];
    }
  }
}
