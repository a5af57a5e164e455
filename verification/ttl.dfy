/** De-duplication state that forgets: `table.exec.state.ttl`. An id is remembered for the TTL after
    its admission; a copy that comes later is admitted again. */
module Ttl {
  import opened Events
  import opened Realtime

  /** An input together with the processing time (ms) at which it is read. */
  datatype Timed = Timed(it: Item, now: int)

  datatype TtlJob = TtlJob(seen: map<string, int>, windows: Windows)

  datatype TtlWorld = TtlWorld(job: TtlJob, sinks: Sinks)

  predicate Remembered(seen: map<string, int>, id: string, now: int, ttl: int)
  {
    id in seen && now < seen[id] + ttl
  }

  /** A duplicate does not renew the entry; an expired entry is written anew on re-admission. */
  function TtlStep(j: TtlJob, x: Timed, ttl: int): (TtlJob, Output)
  {
    match x.it
    case Mark(t) =>
      var (w, o) := Tick(j.windows, t);
      (j.(windows := w), o)
    case Arrive(r) =>
      var ev := AllEvents(r);
      if ev.None? || Remembered(j.seen, ev.value.id, x.now, ttl) then (j, SILENT)
      else
        var (w, o) := Admit(j.windows, ev.value);
        (TtlJob(j.seen[ev.value.id := x.now], w), o)
  }

  function TtlAdvance(w: TtlWorld, x: Timed, ttl: int): TtlWorld
  {
    var (j, o) := TtlStep(w.job, x, ttl);
    TtlWorld(j, Deliver(w.sinks, o))
  }

  function TtlRun(xs: seq<Timed>, ttl: int): TtlWorld
  {
    if xs == [] then TtlWorld(TtlJob(map[], FRESH.windows), EMPTY)
    else TtlAdvance(TtlRun(xs[..|xs| - 1], ttl), xs[|xs| - 1], ttl)
  }

  function Items(xs: seq<Timed>): (items: seq<Item>)
    ensures |items| == |xs| && forall i :: 0 <= i < |xs| ==> items[i] == xs[i].it
  {
    seq(|xs|, i requires 0 <= i < |xs| => xs[i].it)
  }

  lemma ItemsPrefix(xs: seq<Timed>, n: nat)
    requires n <= |xs|
    ensures Items(xs[..n]) == Items(xs)[..n]
  {
  }

  /** Clocks do not run backwards. */
  predicate Monotone(xs: seq<Timed>)
  {
    forall i, j :: 0 <= i < j < |xs| ==> xs[i].now <= xs[j].now
  }

  /** The admissions and the placements, when ids may be admitted more than once. */
  function TtlSeen(xs: seq<Timed>, ttl: int): map<string, int>
  {
    if xs == [] then map[]
    else
      var seen, x := TtlSeen(xs[..|xs| - 1], ttl), xs[|xs| - 1];
      if x.it.Mark? || AllEvents(x.it.r).None? || Remembered(seen, AllEvents(x.it.r).value.id, x.now, ttl) then seen
      else seen[AllEvents(x.it.r).value.id := x.now]
  }

  function TtlHistory(xs: seq<Timed>, ttl: int): History
  {
    if xs == [] then History(map[], map[])
    else
      var before, x := xs[..|xs| - 1], xs[|xs| - 1];
      var h := TtlHistory(before, ttl);
      if x.it.Mark? || AllEvents(x.it.r).None?
         || Remembered(TtlSeen(before, ttl), AllEvents(x.it.r).value.id, x.now, ttl) then h
      else Record1(h, WatermarkOf(Items(before)), AllEvents(x.it.r).value)
  }

  lemma {:induction false} TtlHistoryArrived(xs: seq<Timed>, ttl: int)
    ensures AllArrived(TtlHistory(xs, ttl), Items(xs))
  {
    if xs != [] {
      hide AllEvents, Closed, MinuteOf, Remembered;
      var n := |xs| - 1;
      ItemsPrefix(xs, n);
      TtlHistoryArrived(xs[..n], ttl);
      AllArrivedLater(TtlHistory(xs[..n], ttl), Items(xs), n);
      if xs[n].it.Arrive? && AllEvents(xs[n].it.r).Some? {
        var ev := AllEvents(xs[n].it.r).value;
        assert ArrivesAt(Items(xs), n, ev);
        assert Arrived(ev, ev.id, Items(xs));
      }
      hide Arrived;
    }
  }

  // ---------------------------------------------------------------- who can be admitted again

  lemma FirstArrivalPrefix(xs: seq<Timed>, n: nat, i: nat, ev: Event)
    requires n <= |xs| && i < n
    ensures FirstArrival(Items(xs[..n]), i, ev) <==> FirstArrival(Items(xs), i, ev)
  {
    hide AllEvents;
    ItemsPrefix(xs, n);
    var a, b := Items(xs[..n]), Items(xs);
    assert forall j: nat, e :: j < n ==> (ArrivesAt(a, j, e) <==> ArrivesAt(b, j, e));
  }

  /** Every id in the state was admitted no earlier than its first arrival. */
  lemma {:induction false} SeenSince(xs: seq<Timed>, ttl: int, id: string) returns (i: nat, first: Event)
    requires Monotone(xs) && id in TtlSeen(xs, ttl)
    ensures FirstArrival(Items(xs), i, first) && first.id == id && xs[i].now <= TtlSeen(xs, ttl)[id]
  {
    hide AllEvents;
    var before, x := xs[..|xs| - 1], xs[|xs| - 1];
    var n := |before|;
    if id in TtlSeen(before, ttl) {
      i, first := SeenSince(before, ttl, id);
      FirstArrivalPrefix(xs, n, i, first);
    } else {
      i, first := n, AllEvents(x.it.r).value;
      NeverAdmitted(before, ttl, id);
      ItemsPrefix(xs, n);
      forall j: nat, e | j < i && ArrivesAt(Items(xs), j, e)
        ensures e.id != first.id
      {
        assert ArrivesAt(Items(before), j, e);
      }
    }
  }

  /** An id that is not in the state never arrived. */
  lemma {:induction false} NeverAdmitted(xs: seq<Timed>, ttl: int, id: string)
    requires id !in TtlSeen(xs, ttl)
    ensures forall j: nat, e :: ArrivesAt(Items(xs), j, e) ==> e.id != id
  {
    hide AllEvents;
    if xs != [] {
      var before := xs[..|xs| - 1];
      NeverAdmitted(before, ttl, id);
      ItemsPrefix(xs, |before|);
      forall j: nat, e | ArrivesAt(Items(xs), j, e)
        ensures e.id != id
      {
        if j < |before| { assert ArrivesAt(Items(before), j, e); }
      }
    }
  }

  /** Input xs[j] is a copy of an event whose id arrived first a TTL or more ago. */
  ghost predicate StaleCopy(xs: seq<Timed>, ttl: int, j: nat, ev: Event)
  {
    && ArrivesAt(Items(xs), j, ev)
    && exists i: nat, first ::
         i < j && FirstArrival(Items(xs), i, first) && first.id == ev.id && xs[j].now >= xs[i].now + ttl
  }

  /** Only stale copies get past an id that is in the state. */
  lemma ReadmittedIsStale(xs: seq<Timed>, ttl: int, ev: Event)
    requires Monotone(xs) && xs != [] && ArrivesAt(Items(xs), |xs| - 1, ev)
    requires var seen := TtlSeen(xs[..|xs| - 1], ttl);
             ev.id in seen && !Remembered(seen, ev.id, xs[|xs| - 1].now, ttl)
    ensures StaleCopy(xs, ttl, |xs| - 1, ev)
  {
    hide AllEvents;
    var n := |xs| - 1;
    var i, first := SeenSince(xs[..n], ttl, ev.id);
    FirstArrivalPrefix(xs, n, i, first);
    assert xs[i].now <= TtlSeen(xs[..n], ttl)[ev.id];
    hide FirstArrival;
  }

  // ---------------------------------------------------------------- no expiry: the plain job

  ghost predicate NothingExpires(xs: seq<Timed>, ttl: int)
  {
    forall j: nat, ev :: !StaleCopy(xs, ttl, j, ev)
  }

  /** Every stale copy finds its minute already closed: windows close within the TTL of the first
      admission of each of their ids. */
  ghost predicate ClosesInTime(xs: seq<Timed>, ttl: int)
  {
    forall j: nat, ev ::
      StaleCopy(xs, ttl, j, ev) ==> Closed(WatermarkOf(Items(xs[..j])), MinuteOf(ev.time))
  }

  lemma StaleCopyPrefix(xs: seq<Timed>, ttl: int, n: nat, j: nat, ev: Event)
    requires n <= |xs| && j < n && StaleCopy(xs[..n], ttl, j, ev)
    ensures StaleCopy(xs, ttl, j, ev)
  {
    hide AllEvents;
    ItemsPrefix(xs, n);
    var i: nat, first :| i < j && FirstArrival(Items(xs[..n]), i, first) && first.id == ev.id
                         && xs[..n][j].now >= xs[..n][i].now + ttl;
    FirstArrivalPrefix(xs, n, i, first);
    hide FirstArrival;
  }

  /** The job, read off its input: admissions, watermark, and a history that explains all its rows. */
  ghost predicate TtlAgrees(xs: seq<Timed>, ttl: int)
  {
    var w, h := TtlRun(xs, ttl), TtlHistory(xs, ttl);
    && w.job.seen == TtlSeen(xs, ttl)
    && w.job.windows.wm == WatermarkOf(Items(xs))
    && Reflects(w.job.windows, w.sinks, h)
    && h.counted.Keys + h.dropped.Keys == w.job.seen.Keys
  }

  /** The event of an arrival that the state does not hold back. */
  predicate Admits(seen: map<string, int>, x: Timed, ttl: int)
  {
    x.it.Arrive? && AllEvents(x.it.r).Some? && !Remembered(seen, AllEvents(x.it.r).value.id, x.now, ttl)
  }

  lemma AdmissionReflects(w: TtlWorld, h: History, x: Timed, ttl: int)
    requires Reflects(w.job.windows, w.sinks, h) && h.counted.Keys + h.dropped.Keys == w.job.seen.Keys
    requires Admits(w.job.seen, x, ttl)
    requires var ev := AllEvents(x.it.r).value;
             Closed(w.job.windows.wm, MinuteOf(ev.time)) || ev.id !in h.counted
    ensures var w', h' := TtlAdvance(w, x, ttl), Record1(h, w.job.windows.wm, AllEvents(x.it.r).value);
            && w'.job.seen == w.job.seen[AllEvents(x.it.r).value.id := x.now]
            && w'.job.windows.wm == w.job.windows.wm
            && Reflects(w'.job.windows, w'.sinks, h')
            && h'.counted.Keys + h'.dropped.Keys == w'.job.seen.Keys
  {
    hide AllEvents, Reflects, Admit, MinuteOf, Closed, Deliver;
    var ev := AllEvents(x.it.r).value;
    AdmitReflects(w.job.windows, w.sinks, h, ev);
    var h' := Record1(h, w.job.windows.wm, ev);
    assert h'.counted.Keys + h'.dropped.Keys == w.job.seen.Keys + {ev.id};
  }

  /** Under ClosesInTime, the last input is admitted a second time only into a closed minute. */
  lemma ReadmissionIsLate(xs: seq<Timed>, ttl: int)
    requires Monotone(xs) && xs != [] && ClosesInTime(xs, ttl)
    requires var n := |xs| - 1;
             Admits(TtlSeen(xs[..n], ttl), xs[n], ttl) && AllEvents(xs[n].it.r).value.id in TtlSeen(xs[..n], ttl)
    ensures var n := |xs| - 1;
            Closed(WatermarkOf(Items(xs[..n])), MinuteOf(AllEvents(xs[n].it.r).value.time))
  {
    hide AllEvents, MinuteOf, Closed;
    var n := |xs| - 1;
    var ev := AllEvents(xs[n].it.r).value;
    assert ArrivesAt(Items(xs), n, ev);
    ReadmittedIsStale(xs, ttl, ev);
  }

  /** Under NothingExpires, the last input is never admitted a second time. */
  lemma NoReadmission(xs: seq<Timed>, ttl: int)
    requires Monotone(xs) && xs != [] && NothingExpires(xs, ttl)
    requires var n := |xs| - 1; Admits(TtlSeen(xs[..n], ttl), xs[n], ttl)
    ensures var n := |xs| - 1; AllEvents(xs[n].it.r).value.id !in TtlSeen(xs[..n], ttl)
  {
    hide AllEvents;
    var n := |xs| - 1;
    var ev := AllEvents(xs[n].it.r).value;
    if ev.id in TtlSeen(xs[..n], ttl) {
      assert ArrivesAt(Items(xs), n, ev);
      ReadmittedIsStale(xs, ttl, ev);
    }
  }

  /** Main TTL theorem. If windows close within the TTL, forgetting ids never counts an event twice:
      every accumulator and every emitted row still counts distinct ids, once each. A copy admitted
      again only becomes a late row. */
  lemma {:induction false} ClosingInTimeNeverRecounts(xs: seq<Timed>, ttl: int)
    requires Monotone(xs) && ClosesInTime(xs, ttl)
    ensures TtlAgrees(xs, ttl)
  {
    if xs == [] {
      InitReflects();
      assert Items(xs) == [];
    } else {
      hide Reflects, AllEvents, Closed, MinuteOf, Record1, Admit, Tick, Deliver;
      var n := |xs| - 1;
      var before, x := xs[..n], xs[n];
      ItemsPrefix(xs, n);
      ClosesInTimePrefix(xs, ttl, n);
      ClosingInTimeNeverRecounts(before, ttl);
      var w, h := TtlRun(before, ttl), TtlHistory(before, ttl);
      if x.it.Mark? {
        TickReflects(w.job.windows, w.sinks, h, x.it.t);
      } else if Admits(w.job.seen, x, ttl) {
        if AllEvents(x.it.r).value.id in w.job.seen { ReadmissionIsLate(xs, ttl); }
        hide ClosesInTime;
        AdmissionReflects(w, h, x, ttl);
        hide TtlAdvance;
      } else {
        DeliverSilent(w.sinks);
      }
    }
  }

  lemma ClosesInTimePrefix(xs: seq<Timed>, ttl: int, n: nat)
    requires n <= |xs| && ClosesInTime(xs, ttl)
    ensures ClosesInTime(xs[..n], ttl)
  {
    forall j: nat, ev | StaleCopy(xs[..n], ttl, j, ev)
      ensures Closed(WatermarkOf(Items(xs[..n][..j])), MinuteOf(ev.time))
    {
      assert j < n;
      StaleCopyPrefix(xs, ttl, n, j, ev);
      assert xs[..n][..j] == xs[..j];
      hide StaleCopy;
    }
  }

  /** The timed job and the plain job differ only in the timestamps of the state. */
  ghost predicate SameJob(w: TtlWorld, plain: World)
  {
    w.job.windows == plain.job.windows && w.sinks == plain.sinks && w.job.seen.Keys == plain.job.seen
  }

  lemma SameStep(w: TtlWorld, plain: World, x: Timed, ttl: int)
    requires SameJob(w, plain)
    requires Admits(w.job.seen, x, ttl) ==> AllEvents(x.it.r).value.id !in w.job.seen
    ensures SameJob(TtlAdvance(w, x, ttl), Advance(plain, x.it))
  {
    hide AllEvents, Admit, Tick, Deliver;
  }

  /** If no copy comes after its id expired, the clock plays no part: the job is the plain one. */
  lemma {:induction false} WithoutExpiry(xs: seq<Timed>, ttl: int)
    requires Monotone(xs) && NothingExpires(xs, ttl)
    ensures SameJob(TtlRun(xs, ttl), Run(Items(xs)))
  {
    if xs == [] {
      assert Items(xs) == [];
    } else {
      hide AllEvents, Admit, Tick, Deliver, NothingExpires, SameJob, Advance;
      var n := |xs| - 1;
      var before, x := xs[..n], xs[n];
      ItemsPrefix(xs, n);
      NothingExpiresPrefix(xs, ttl, n);
      WithoutExpiry(before, ttl);
      SeenIsSeen(before, ttl);
      if Admits(TtlSeen(before, ttl), x, ttl) { NoReadmission(xs, ttl); }
      hide TtlSeen;
      SameStep(TtlRun(before, ttl), Run(Items(before)), x, ttl);
    }
  }

  lemma {:induction false} SeenIsSeen(xs: seq<Timed>, ttl: int)
    ensures TtlRun(xs, ttl).job.seen == TtlSeen(xs, ttl)
  {
    if xs != [] {
      hide AllEvents, Admit, Tick, Deliver;
      SeenIsSeen(xs[..|xs| - 1], ttl);
    }
  }

  lemma NothingExpiresPrefix(xs: seq<Timed>, ttl: int, n: nat)
    requires n <= |xs| && NothingExpires(xs, ttl)
    ensures NothingExpires(xs[..n], ttl)
  {
    forall j: nat, ev
      ensures !StaleCopy(xs[..n], ttl, j, ev)
    {
      if StaleCopy(xs[..n], ttl, j, ev) {
        assert j < n;
        StaleCopyPrefix(xs, ttl, n, j, ev);
        assert false;
      }
    }
  }

  // ---------------------------------------------------------------- exactly when ids are recounted

  /** Copies of one event lie in one window of one campaign and are of one kind. */
  ghost predicate SameCells(items: seq<Item>)
  {
    forall i: nat, j: nat, a, b :: ArrivesAt(items, i, a) && ArrivesAt(items, j, b) && a.id == b.id ==>
      WindowOf(a) == WindowOf(b) && a.kind == b.kind
  }

  /** The kinds that some column of the window counts. */
  predicate HasColumn(ev: Event)
  {
    ev.kind != Quartile
  }

  /** Input n is admitted although its id is in the state. */
  predicate Readmits(xs: seq<Timed>, ttl: int, n: nat)
  {
    n < |xs| && Admits(TtlSeen(xs[..n], ttl), xs[n], ttl) && AllEvents(xs[n].it.r).value.id in TtlSeen(xs[..n], ttl)
  }

  /** Input n is admitted again into a minute that is still open, and counted there. */
  predicate Recounts(xs: seq<Timed>, ttl: int, n: nat)
  {
    Readmits(xs, ttl, n) &&
    var ev := AllEvents(xs[n].it.r).value;
    HasColumn(ev) && !Closed(WatermarkOf(Items(xs[..n])), MinuteOf(ev.time))
  }

  lemma NoTwinQuartile(r: Record)
    requires AllEvents(r).Some? && AllEvents(r).value.kind == Quartile
    ensures !AllEvents(r).value.twin
  {
  }

  lemma TallyAgain(events: map<string, Event>, ev: Event, k: Window)
    requires ev.id in events && WindowOf(events[ev.id]) == WindowOf(ev) && events[ev.id].kind == ev.kind
    ensures forall kind :: Cell(events[ev.id := ev], k, kind) == Cell(events, k, kind)
    ensures events[ev.id].twin == ev.twin ==> Tally(events[ev.id := ev], k) == Tally(events, k)
    ensures Groups(events[ev.id := ev]) == Groups(events)
  {
    var events' := events[ev.id := ev];
    hide WindowOf;
    forall id | id in events
      ensures WindowOf(events[id]) == WindowOf(events'[id]) && events[id].kind == events'[id].kind
    {
    }
    assert forall kind :: Cell(events', k, kind) == Cell(events, k, kind);
    assert events[ev.id].twin == ev.twin ==> Twins(events', k) == Twins(events, k);
    forall g
      ensures g in Groups(events) <==> g in Groups(events')
    {
      if id :| id in events && WindowOf(events[id]) == g { assert id in events' && WindowOf(events'[id]) == g; }
      if id :| id in events' && WindowOf(events'[id]) == g { assert id in events && WindowOf(events[id]) == g; }
    }
  }

  lemma GroupByAgain(events: map<string, Event>, ev: Event, wm: Option<int>)
    requires ev.id in events && WindowOf(events[ev.id]) == WindowOf(ev) && events[ev.id].kind == ev.kind
    requires events[ev.id].twin == ev.twin && !Closed(wm, MinuteOf(ev.time))
    ensures forall closed :: GroupBy(events[ev.id := ev], wm, closed) == GroupBy(events, wm, closed)
    ensures WindowOf(ev) in GroupBy(events, wm, false)
  {
    forall k
      ensures Tally(events[ev.id := ev], k) == Tally(events, k) && Groups(events[ev.id := ev]) == Groups(events)
    {
      TallyAgain(events, ev, k);
    }
    assert WindowOf(events[ev.id]) in Groups(events);
    hide Tally, MinuteOf, Groups;
  }

  /** Admitting a quartile again changes no count. */
  lemma QuartileAgain(w: Windows, s: Sinks, h: History, ev: Event)
    requires Reflects(w, s, h) && ev.id in h.counted && !Closed(w.wm, MinuteOf(ev.time))
    requires WindowOf(h.counted[ev.id]) == WindowOf(ev) && h.counted[ev.id].kind == ev.kind == Quartile
    requires !ev.twin && !h.counted[ev.id].twin
    ensures Reflects(Admit(w, ev).0, Deliver(s, Admit(w, ev).1), Record1(h, w.wm, ev))
    ensures Admit(w, ev).0.wm == w.wm
  {
    GroupByAgain(h.counted, ev, w.wm);
    hide MinuteOf, GroupBy, Deliver, Listed, Closed;
    assert WindowOf(ev) in w.open;
    assert Reflects(w, s, h.(counted := h.counted[ev.id := ev]));
    hide Reflects;
    QuartileIsSilent(w, ev);
    DeliverSilent(s);
  }

  lemma QuartileIsSilent(w: Windows, ev: Event)
    requires WindowOf(ev) in w.open && ev.kind == Quartile && !ev.twin && !Closed(w.wm, MinuteOf(ev.time))
    ensures Admit(w, ev) == (w, SILENT)
  {
    hide MinuteOf;
    var k := WindowOf(ev);
    assert Bump(w.open[k], ev) == w.open[k];
    assert w.open[k := w.open[k]] == w.open;
  }

  /** Admitting any other event again makes the accumulator count an id twice. */
  lemma CountedAgain(w: Windows, s: Sinks, h: History, ev: Event)
    requires Reflects(w, s, h) && ev.id in h.counted && !Closed(w.wm, MinuteOf(ev.time))
    requires WindowOf(h.counted[ev.id]) == WindowOf(ev) && h.counted[ev.id].kind == ev.kind && HasColumn(ev)
    ensures !Reflects(Admit(w, ev).0, Deliver(s, Admit(w, ev).1), Record1(h, w.wm, ev))
  {
    var k := WindowOf(ev);
    TallyAgain(h.counted, ev, k);
    assert WindowOf(h.counted[ev.id]) in Groups(h.counted);
    hide MinuteOf, Cell, Twins, Groups, Deliver, Listed;
    assert w.open[k] == Tally(h.counted, k);
    assert Admit(w, ev).0.open[k] == Bump(Tally(h.counted, k), ev);
    assert Bump(Tally(h.counted, k), ev) != Tally(h.counted[ev.id := ev], k);
    assert k in GroupBy(h.counted[ev.id := ev], w.wm, false);
  }

  /** What is dropped lies in a closed minute. */
  lemma {:induction false} DroppedIsClosed(xs: seq<Timed>, ttl: int, id: string)
    requires id in TtlHistory(xs, ttl).dropped
    ensures Closed(WatermarkOf(Items(xs)), MinuteOf(TtlHistory(xs, ttl).dropped[id].time))
  {
    hide AllEvents, MinuteOf;
    var n := |xs| - 1;
    ItemsPrefix(xs, n);
    var h := TtlHistory(xs[..n], ttl);
    var wm := WatermarkOf(Items(xs[..n]));
    if id in h.dropped { DroppedIsClosed(xs[..n], ttl, id); }
    assert forall start :: Closed(wm, start) ==> Closed(WatermarkOf(Items(xs)), start);
  }

  /** A copy of a placed event is of its cell and kind. */
  lemma CopyOfPlaced(xs: seq<Timed>, ttl: int, n: nat, id: string, placed: Event)
    requires SameCells(Items(xs)) && n < |xs| && xs[n].it.Arrive? && AllEvents(xs[n].it.r).Some?
    requires AllEvents(xs[n].it.r).value.id == id
    requires var h := TtlHistory(xs[..n], ttl);
             (id in h.counted && h.counted[id] == placed) || (id in h.dropped && h.dropped[id] == placed)
    ensures var ev := AllEvents(xs[n].it.r).value;
            WindowOf(placed) == WindowOf(ev) && placed.kind == ev.kind && (placed.kind == Quartile ==> !placed.twin && !ev.twin)
  {
    hide AllEvents, WindowOf, TtlHistory;
    var ev := AllEvents(xs[n].it.r).value;
    TtlHistoryArrived(xs[..n], ttl);
    assert Arrived(placed, id, Items(xs[..n]));
    var i: nat :| ArrivesAt(Items(xs[..n]), i, placed);
    ItemsPrefix(xs, n);
    assert ArrivesAt(Items(xs), i, placed) && ArrivesAt(Items(xs), n, ev);
    if ev.kind == Quartile {
      NoTwinQuartile(xs[n].it.r);
      NoTwinQuartile(xs[i].it.r);
    }
  }

  /** The last input, admitted again, is of an id that was counted, unless its minute is closed. */
  lemma ReadmittedWasCounted(xs: seq<Timed>, ttl: int, n: nat)
    requires SameCells(Items(xs)) && Readmits(xs, ttl, n) && TtlAgrees(xs[..n], ttl)
    requires var ev := AllEvents(xs[n].it.r).value; !Closed(WatermarkOf(Items(xs[..n])), MinuteOf(ev.time))
    ensures var ev, h := AllEvents(xs[n].it.r).value, TtlHistory(xs[..n], ttl);
            && ev.id in h.counted && WindowOf(h.counted[ev.id]) == WindowOf(ev) && h.counted[ev.id].kind == ev.kind
            && (ev.kind == Quartile ==> !ev.twin && !h.counted[ev.id].twin)
  {
    hide AllEvents, Reflects, MinuteOf, SameCells, Closed, Remembered;
    var ev, h := AllEvents(xs[n].it.r).value, TtlHistory(xs[..n], ttl);
    if ev.id in h.counted {
      CopyOfPlaced(xs, ttl, n, ev.id, h.counted[ev.id]);
    } else {
      CopyOfPlaced(xs, ttl, n, ev.id, h.dropped[ev.id]);
      DroppedIsClosed(xs[..n], ttl, ev.id);
      assert false;
    }
  }

  lemma RecountsPrefix(xs: seq<Timed>, ttl: int, m: nat, n: nat)
    requires n < m <= |xs|
    ensures Readmits(xs[..m], ttl, n) <==> Readmits(xs, ttl, n)
    ensures Recounts(xs[..m], ttl, n) <==> Recounts(xs, ttl, n)
  {
    assert xs[..m][..n] == xs[..n];
    hide AllEvents, MinuteOf, Closed, Remembered;
  }

  /** An input that is not recounted keeps the job explained by its history. */
  lemma StepAgrees(xs: seq<Timed>, ttl: int)
    requires xs != [] && SameCells(Items(xs)) && TtlAgrees(xs[..|xs| - 1], ttl) && !Recounts(xs, ttl, |xs| - 1)
    ensures TtlAgrees(xs, ttl)
  {
    hide Reflects, AllEvents, Closed, MinuteOf, Record1, Admit, Tick, Deliver, SameCells;
    var n := |xs| - 1;
    var before, x := xs[..n], xs[n];
    ItemsPrefix(xs, n);
    var w, h := TtlRun(before, ttl), TtlHistory(before, ttl);
    if x.it.Mark? {
      TickReflects(w.job.windows, w.sinks, h, x.it.t);
    } else if Admits(w.job.seen, x, ttl) {
      var ev := AllEvents(x.it.r).value;
      if Closed(w.job.windows.wm, MinuteOf(ev.time)) || ev.id !in h.counted {
        AdmissionReflects(w, h, x, ttl);
      } else {
        ReadmittedWasCounted(xs, ttl, n);
        QuartileAgain(w.job.windows, w.sinks, h, ev);
        RecordedKeys(h, w.job.windows.wm, ev);
      }
      hide TtlAdvance;
    } else {
      DeliverSilent(w.sinks);
    }
  }

  lemma RecordedKeys(h: History, wm: Option<int>, ev: Event)
    ensures Record1(h, wm, ev).counted.Keys + Record1(h, wm, ev).dropped.Keys == h.counted.Keys + h.dropped.Keys + {ev.id}
  {
    hide Closed, MinuteOf;
  }

  /** An input that is recounted ends the agreement. */
  lemma RecountBreaks(xs: seq<Timed>, ttl: int)
    requires xs != [] && SameCells(Items(xs)) && TtlAgrees(xs[..|xs| - 1], ttl) && Recounts(xs, ttl, |xs| - 1)
    ensures !TtlAgrees(xs, ttl)
  {
    hide Reflects, AllEvents, Closed, MinuteOf, Record1, Admit, Deliver, SameCells, Remembered;
    var n := |xs| - 1;
    var w, h := TtlRun(xs[..n], ttl), TtlHistory(xs[..n], ttl);
    ReadmittedWasCounted(xs, ttl, n);
    CountedAgain(w.job.windows, w.sinks, h, AllEvents(xs[n].it.r).value);
  }

  lemma {:induction false} AgreesUpTo(xs: seq<Timed>, ttl: int, n: nat)
    requires n <= |xs| && SameCells(Items(xs)) && forall m: nat :: m < n ==> !Recounts(xs, ttl, m)
    ensures TtlAgrees(xs[..n], ttl)
  {
    if n == 0 {
      InitReflects();
      assert Items(xs[..0]) == [];
    } else {
      hide TtlAgrees, Recounts;
      AgreesUpTo(xs, ttl, n - 1);
      assert xs[..n][..n - 1] == xs[..n - 1];
      SameCellsPrefix(xs, n);
      RecountsPrefix(xs, ttl, n, n - 1);
      StepAgrees(xs[..n], ttl);
    }
  }

  lemma SameCellsPrefix(xs: seq<Timed>, n: nat)
    requires n <= |xs| && SameCells(Items(xs))
    ensures SameCells(Items(xs[..n]))
  {
    hide AllEvents, WindowOf;
    ItemsPrefix(xs, n);
    assert forall i: nat, ev :: ArrivesAt(Items(xs[..n]), i, ev) ==> ArrivesAt(Items(xs), i, ev);
  }

  /** Exactly when forgetting does no harm: when copies lie in one cell, every accumulator, emitted row
      and late row is explained by the history at every moment, if and only if no event that has a
      column is ever admitted again into an open minute. */
  lemma RecountsExactlyWhen(xs: seq<Timed>, ttl: int)
    requires SameCells(Items(xs))
    ensures (forall n: nat :: n <= |xs| ==> TtlAgrees(xs[..n], ttl)) <==> forall n: nat :: !Recounts(xs, ttl, n)
  {
    hide TtlAgrees, SameCells;
    if forall n: nat :: !Recounts(xs, ttl, n) {
      forall n: nat | n <= |xs|
        ensures TtlAgrees(xs[..n], ttl)
      {
        AgreesUpTo(xs, ttl, n);
      }
    }
    if n: nat :| Recounts(xs, ttl, n) {
      RecountsPrefix(xs, ttl, n + 1, n);
      assert xs[..n + 1][..n] == xs[..n];
      SameCellsPrefix(xs, n + 1);
      if TtlAgrees(xs[..n], ttl) { RecountBreaks(xs[..n + 1], ttl); }
    }
  }

  /** Every stale copy that has a column finds its minute closed. */
  ghost predicate CountedInTime(xs: seq<Timed>, ttl: int)
  {
    forall j: nat, ev ::
      StaleCopy(xs, ttl, j, ev) && HasColumn(ev) ==> Closed(WatermarkOf(Items(xs[..j])), MinuteOf(ev.time))
  }

  lemma SeenArrived(xs: seq<Timed>, ttl: int, n: nat, id: string)
    requires Monotone(xs) && n <= |xs| && id in TtlSeen(xs[..n], ttl)
    ensures exists k: nat, e :: k < n && ArrivesAt(Items(xs), k, e) && e.id == id
  {
    hide AllEvents;
    var k, e := SeenSince(xs[..n], ttl, id);
    ItemsPrefix(xs, n);
    assert ArrivesAt(Items(xs), k, e);
  }

  /** The state of an id dates from its first arrival, unless it was admitted again since. */
  lemma {:induction false} SeenFromFirst(xs: seq<Timed>, ttl: int, i: nat, first: Event, j: nat) returns (n: nat)
    requires Monotone(xs) && i < j <= |xs| && FirstArrival(Items(xs), i, first)
    ensures first.id in TtlSeen(xs[..j], ttl)
    ensures TtlSeen(xs[..j], ttl)[first.id] == xs[i].now ||
            (n < j && Readmits(xs, ttl, n) && AllEvents(xs[n].it.r).value.id == first.id)
    decreases j
  {
    hide AllEvents;
    n := 0;
    assert xs[..j][..j - 1] == xs[..j - 1];
    if j == i + 1 {
      if first.id in TtlSeen(xs[..i], ttl) {
        SeenArrived(xs, ttl, i, first.id);
      }
    } else {
      n := SeenFromFirst(xs, ttl, i, first, j - 1);
      hide FirstArrival;
      if Readmits(xs, ttl, j - 1) && AllEvents(xs[j - 1].it.r).value.id == first.id { n := j - 1; }
    }
  }

  /** The same in terms of the input alone: no recount, if and only if minutes close within the TTL of
      the first arrival of each of their ids that has a column and comes again. */
  lemma InTimeExactlyWhen(xs: seq<Timed>, ttl: int)
    requires Monotone(xs) && SameCells(Items(xs))
    ensures (forall n: nat :: !Recounts(xs, ttl, n)) <==> CountedInTime(xs, ttl)
  {
    hide Recounts, SameCells, AllEvents, MinuteOf, FirstArrival;
    if forall n: nat :: !Recounts(xs, ttl, n) {
      forall j: nat, ev | StaleCopy(xs, ttl, j, ev) && HasColumn(ev)
        ensures Closed(WatermarkOf(Items(xs[..j])), MinuteOf(ev.time))
      {
        StaleIsClosed(xs, ttl, j, ev);
      }
    }
    if CountedInTime(xs, ttl) {
      forall n: nat
        ensures !Recounts(xs, ttl, n)
      {
        hide StaleCopy;
        if Recounts(xs, ttl, n) {
          var ev := RecountIsStale(xs, ttl, n);
        }
      }
    }
  }

  lemma RecountIsStale(xs: seq<Timed>, ttl: int, n: nat) returns (ev: Event)
    requires Monotone(xs) && Recounts(xs, ttl, n)
    ensures n < |xs| && StaleCopy(xs, ttl, n, ev) && HasColumn(ev) && !Closed(WatermarkOf(Items(xs[..n])), MinuteOf(ev.time))
  {
    hide AllEvents, MinuteOf, Closed;
    ev := AllEvents(xs[n].it.r).value;
    assert xs[..n + 1][..n] == xs[..n];
    assert ArrivesAt(Items(xs[..n + 1]), n, ev);
    ReadmittedIsStale(xs[..n + 1], ttl, ev);
    StaleCopyPrefix(xs, ttl, n + 1, n, ev);
  }

  lemma StaleIsClosed(xs: seq<Timed>, ttl: int, j: nat, ev: Event)
    requires Monotone(xs) && SameCells(Items(xs)) && StaleCopy(xs, ttl, j, ev) && HasColumn(ev)
    requires forall n: nat :: !Recounts(xs, ttl, n)
    ensures Closed(WatermarkOf(Items(xs[..j])), MinuteOf(ev.time))
  {
    hide AllEvents, MinuteOf;
    var i: nat, first :| i < j && FirstArrival(Items(xs), i, first) && first.id == ev.id && xs[j].now >= xs[i].now + ttl;
    var n := SeenFromFirst(xs, ttl, i, first, j);
    if TtlSeen(xs[..j], ttl)[ev.id] == xs[i].now {
      n := j;
    }
    assert Readmits(xs, ttl, n) && !Recounts(xs, ttl, n);
    hide Readmits, FirstArrival, TtlSeen;
    var e := AllEvents(xs[n].it.r).value;
    assert ArrivesAt(Items(xs), n, e) && ArrivesAt(Items(xs), j, ev);
    ItemsPrefix(xs, n);
    ItemsPrefix(xs, j);
    ClosedForever(Items(xs), n, j, MinuteOf(ev.time));
  }

  /** A failing input: with no watermark in between, the same impression read twice a TTL apart is
      counted twice in its open window. */
  lemma StalledWatermarkRecounts(r: Record, ttl: int)
    requires AllEvents(r).Some? && AllEvents(r).value.kind == Impression
    ensures var xs := [Timed(Arrive(r), 0), Timed(Arrive(r), ttl)];
            var k := WindowOf(AllEvents(r).value);
            && k in TtlRun(xs, ttl).job.windows.open
            && TtlRun(xs, ttl).job.windows.open[k].impressions == 2
  {
    hide AllEvents, MinuteOf, Deliver;
    var one, two := Timed(Arrive(r), 0), Timed(Arrive(r), ttl);
    assert [one][..0] == [] && [one, two][..1] == [one];
    var w1 := TtlAdvance(TtlRun([], ttl), one, ttl);
    assert TtlRun([one], ttl) == w1;
    assert TtlRun([one, two], ttl) == TtlAdvance(w1, two, ttl);
  }
}
