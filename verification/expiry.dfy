/** The job that forgets ids against the job that never does: exactly when their minute rows agree, and
    exactly when their late rows do. */
module Expiry {
  import opened Events
  import opened Realtime
  import opened Ttl

  lemma {:induction false} TtlWatermark(xs: seq<Timed>, ttl: int)
    ensures TtlRun(xs, ttl).job.windows.wm == WatermarkOf(Items(xs))
  {
    if xs != [] {
      hide AllEvents, MinuteOf, Deliver, Remembered, Closed, Due;
      TtlWatermark(xs[..|xs| - 1], ttl);
      ItemsPrefix(xs, |xs| - 1);
    } else {
      assert Items(xs) == [];
    }
  }

  /** The columns of a window: the events of one kind, or the twins. */
  datatype Count = Of(kind: Kind) | OfTwins

  function Value(a: Acc, q: Count): nat
  {
    match q
    case Of(Impression) => a.impressions
    case Of(Click) => a.clicks
    case Of(Complete) => a.completes
    case Of(Request) => a.requests
    case Of(Quartile) => 0
    case OfTwins => a.ssaiDupes
  }

  predicate CountsIn(ev: Event, q: Count)
  {
    match q
    case Of(kind) => ev.kind == kind && HasColumn(ev)
    case OfTwins => ev.twin
  }

  /** Input n is counted again in this column. */
  predicate RecountsIn(xs: seq<Timed>, ttl: int, n: nat, q: Count)
  {
    Readmits(xs, ttl, n) &&
    var ev := AllEvents(xs[n].it.r).value;
    CountsIn(ev, q) && !Closed(WatermarkOf(Items(xs[..n])), MinuteOf(ev.time))
  }

  lemma BumpValue(a: Acc, ev: Event, q: Count)
    ensures Value(Bump(a, ev), q) == Value(a, q) + if CountsIn(ev, q) then 1 else 0
  {
  }

  ghost predicate AllAtLeast(m: map<Window, Acc>, n: map<Window, Acc>, q: Count)
  {
    m.Keys == n.Keys && forall k :: k in n ==> Value(m[k], q) >= Value(n[k], q)
  }

  ghost predicate SomeMore(m: map<Window, Acc>, n: map<Window, Acc>, q: Count)
  {
    exists k :: k in m && k in n && Value(m[k], q) > Value(n[k], q)
  }

  /** The same windows, ids and watermark; no count of the column is less. */
  ghost predicate Beside(w: TtlWorld, p: World, q: Count)
  {
    && w.job.windows.wm == p.job.windows.wm && w.job.seen.Keys == p.job.seen
    && AllAtLeast(w.job.windows.open, p.job.windows.open, q) && AllAtLeast(w.sinks.agg, p.sinks.agg, q)
  }

  /** Some window counts more in the column. */
  ghost predicate More(w: TtlWorld, p: World, q: Count)
  {
    SomeMore(w.job.windows.open, p.job.windows.open, q) || SomeMore(w.sinks.agg, p.sinks.agg, q)
  }

  lemma DueBeside(m: map<Window, Acc>, n: map<Window, Acc>, t: int, q: Count)
    requires AllAtLeast(m, n, q)
    ensures AllAtLeast(Due(m, t), Due(n, t), q) && AllAtLeast(m - Due(m, t).Keys, n - Due(n, t).Keys, q)
    ensures SomeMore(m, n, q) <==> SomeMore(Due(m, t), Due(n, t), q) || SomeMore(m - Due(m, t).Keys, n - Due(n, t).Keys, q)
  {
    hide Value, Closed;
    assert Due(m, t).Keys == Due(n, t).Keys;
    if SomeMore(m, n, q) {
      var k :| k in m && k in n && Value(m[k], q) > Value(n[k], q);
      if k in Due(m, t) {
        assert k in Due(n, t) && Due(m, t)[k] == m[k] && Due(n, t)[k] == n[k];
      } else {
        assert k in m - Due(m, t).Keys && k in n - Due(n, t).Keys;
      }
    }
  }

  /** What is emitted was open, so it is new to the sink. */
  ghost predicate Fresh(p: World)
  {
    && (forall k :: k in p.job.windows.open ==> !Closed(p.job.windows.wm, k.start))
    && (forall k :: k in p.sinks.agg ==> Closed(p.job.windows.wm, k.start))
  }

  lemma RunIsFresh(items: seq<Item>)
    ensures Fresh(Run(items))
  {
    RunAgrees(items);
    hide Run, HistoryOf, WatermarkOf, Tally, Closed;
  }

  lemma MergeBeside(m: map<Window, Acc>, n: map<Window, Acc>, a: map<Window, Acc>, b: map<Window, Acc>, q: Count)
    requires AllAtLeast(m, n, q) && AllAtLeast(a, b, q) && n.Keys !! b.Keys
    ensures AllAtLeast(m + a, n + b, q)
    ensures SomeMore(m, n, q) || SomeMore(a, b, q) <==> SomeMore(m + a, n + b, q)
  {
    hide Value;
    if SomeMore(m, n, q) {
      var k :| k in m && k in n && Value(m[k], q) > Value(n[k], q);
      assert k in m + a && k in n + b && (m + a)[k] == m[k] && (n + b)[k] == n[k];
    } else if SomeMore(a, b, q) {
      var k :| k in a && k in b && Value(a[k], q) > Value(b[k], q);
      assert k in m + a && k in n + b && (m + a)[k] == a[k] && (n + b)[k] == b[k];
    }
  }

  lemma TickBeside(w: TtlWorld, p: World, x: Timed, ttl: int, q: Count)
    requires Beside(w, p, q) && Fresh(p) && x.it.Mark?
    ensures var w', p' := TtlAdvance(w, x, ttl), Advance(p, x.it);
            Beside(w', p', q) && (More(w, p, q) <==> More(w', p', q))
  {
    var t := x.it.t;
    hide AllAtLeast, SomeMore, Due, Deliver, Fresh;
    if p.job.windows.wm.Some? && t <= p.job.windows.wm.value {
      DeliverSilent(w.sinks);
      DeliverSilent(p.sinks);
    } else {
      AdvanceBeside(w, p, t, q);
      DeliverAgg(w.sinks, Due(w.job.windows.open, t));
      DeliverAgg(p.sinks, Due(p.job.windows.open, t));
    }
  }

  /** What fires at t moves from the open windows to the sink, on both sides. */
  lemma AdvanceBeside(w: TtlWorld, p: World, t: int, q: Count)
    requires Beside(w, p, q) && Fresh(p)
    ensures var m, n := w.job.windows.open, p.job.windows.open;
            var m', n' := m - Due(m, t).Keys, n - Due(n, t).Keys;
            var a, b := w.sinks.agg + Due(m, t), p.sinks.agg + Due(n, t);
            && AllAtLeast(m', n', q) && AllAtLeast(a, b, q)
            && (More(w, p, q) <==> SomeMore(m', n', q) || SomeMore(a, b, q))
  {
    hide AllAtLeast, SomeMore, Due, Fresh;
    DueBeside(w.job.windows.open, p.job.windows.open, t, q);
    DueIsNew(p, t);
    MergeBeside(w.sinks.agg, p.sinks.agg, Due(w.job.windows.open, t), Due(p.job.windows.open, t), q);
  }

  lemma DueIsNew(p: World, t: int)
    requires Fresh(p)
    ensures Due(p.job.windows.open, t).Keys !! p.sinks.agg.Keys
  {
    hide Closed;
  }

  lemma BumpBeside(m: map<Window, Acc>, n: map<Window, Acc>, ev: Event, q: Count)
    requires AllAtLeast(m, n, q)
    ensures var k := WindowOf(ev);
            var m' := m[k := Bump(if k in m then m[k] else ZERO, ev)]; var n' := n[k := Bump(if k in n then n[k] else ZERO, ev)];
            AllAtLeast(m', n', q) && (SomeMore(m, n, q) <==> SomeMore(m', n', q))
  {
    var k := WindowOf(ev);
    var x, y := if k in m then m[k] else ZERO, if k in n then n[k] else ZERO;
    var m', n' := m[k := Bump(x, ev)], n[k := Bump(y, ev)];
    BumpValue(x, ev, q);
    BumpValue(y, ev, q);
    hide WindowOf, Bump, Value, CountsIn;
    if SomeMore(m, n, q) {
      var j :| j in m && j in n && Value(m[j], q) > Value(n[j], q);
      assert j in m' && j in n' && Value(m'[j], q) > Value(n'[j], q);
    }
    if SomeMore(m', n', q) {
      var j :| j in m' && j in n' && Value(m'[j], q) > Value(n'[j], q);
      assert j in m && j in n && Value(m[j], q) > Value(n[j], q);
    }
  }

  /** Admitting touches the windows, and of the sinks only the late rows. */
  lemma AdmitWrites(w: Windows, s: Sinks, ev: Event)
    ensures var k := WindowOf(ev); var (w', o) := Admit(w, ev);
            && Deliver(s, o).agg == s.agg && w'.wm == w.wm
            && w'.open == if Closed(w.wm, k.start) then w.open else w.open[k := Bump(if k in w.open then w.open[k] else ZERO, ev)]
  {
    hide MinuteOf, Bump, Closed;
    MergeNone(s.agg);
  }

  lemma FirstBeside(w: TtlWorld, p: World, x: Timed, ttl: int, q: Count)
    requires Beside(w, p, q) && x.it.Arrive? && AllEvents(x.it.r).Some? && Admits(w.job.seen, x, ttl)
    requires AllEvents(x.it.r).value.id !in p.job.seen
    ensures var w', p' := TtlAdvance(w, x, ttl), Advance(p, x.it);
            Beside(w', p', q) && (More(w, p, q) <==> More(w', p', q))
  {
    var ev := AllEvents(x.it.r).value;
    hide AllEvents, Admit, AllAtLeast, SomeMore, Bump, Deliver, Closed, MinuteOf, Admits;
    TtlAdmission(w, x, ttl);
    PlainAdmission(p, x.it);
    AdmitWrites(w.job.windows, w.sinks, ev);
    AdmitWrites(p.job.windows, p.sinks, ev);
    BumpBeside(w.job.windows.open, p.job.windows.open, ev, q);
    hide TtlAdvance, Advance;
  }

  lemma TtlAdmission(w: TtlWorld, x: Timed, ttl: int)
    requires Admits(w.job.seen, x, ttl)
    ensures var ev := AllEvents(x.it.r).value; var (y, o) := Admit(w.job.windows, ev);
            && TtlAdvance(w, x, ttl) == TtlWorld(TtlJob(w.job.seen[ev.id := x.now], y), Deliver(w.sinks, o))
            && w.job.seen[ev.id := x.now].Keys == w.job.seen.Keys + {ev.id}
  {
    hide AllEvents, Admit, Deliver;
  }

  lemma PlainAdmission(p: World, it: Item)
    requires it.Arrive? && AllEvents(it.r).Some? && AllEvents(it.r).value.id !in p.job.seen
    ensures var ev := AllEvents(it.r).value; var (y, o) := Admit(p.job.windows, ev);
            Advance(p, it) == World(Job(p.job.seen + {ev.id}, y), Deliver(p.sinks, o))
  {
    hide AllEvents, Admit, Deliver;
  }

  /** Admitted again: the job that never forgets stands still. */
  lemma AgainBeside(w: TtlWorld, p: World, x: Timed, ttl: int, q: Count)
    requires Beside(w, p, q) && x.it.Arrive? && AllEvents(x.it.r).Some? && Admits(w.job.seen, x, ttl)
    requires AllEvents(x.it.r).value.id in p.job.seen
    requires var ev := AllEvents(x.it.r).value; !Closed(p.job.windows.wm, MinuteOf(ev.time)) ==> WindowOf(ev) in p.job.windows.open
    ensures var w', p' := TtlAdvance(w, x, ttl), Advance(p, x.it);
            var ev := AllEvents(x.it.r).value; var again := CountsIn(ev, q) && !Closed(p.job.windows.wm, MinuteOf(ev.time));
            Beside(w', p', q) && (More(w, p, q) || again <==> More(w', p', q))
  {
    var ev := AllEvents(x.it.r).value;
    hide AllEvents, Admit, AllAtLeast, SomeMore, Bump, Deliver, Closed, MinuteOf, Admits;
    TtlAdmission(w, x, ttl);
    AdmitWrites(w.job.windows, w.sinks, ev);
    DeliverSilent(p.sinks);
    var k := WindowOf(ev);
    SameKeys(w.job.windows.open, p.job.windows.open, q);
    if !Closed(p.job.windows.wm, k.start) { BumpAgain(w.job.windows.open, p.job.windows.open, ev, q); }
    PlainStands(p, x.it);
    assert w.job.seen.Keys + {ev.id} == w.job.seen.Keys;
    hide TtlAdvance, Advance;
  }

  lemma PlainStands(p: World, it: Item)
    requires it.Arrive? && AllEvents(it.r).Some? && AllEvents(it.r).value.id in p.job.seen
    ensures Advance(p, it) == p
  {
    hide AllEvents, Admit;
    DeliverSilent(p.sinks);
  }

  lemma SameKeys(m: map<Window, Acc>, n: map<Window, Acc>, q: Count)
    requires AllAtLeast(m, n, q)
    ensures m.Keys == n.Keys
  {
  }

  lemma BumpAgain(m: map<Window, Acc>, n: map<Window, Acc>, ev: Event, q: Count)
    requires AllAtLeast(m, n, q) && WindowOf(ev) in n
    ensures var k := WindowOf(ev); var m' := m[k := Bump(m[k], ev)];
            AllAtLeast(m', n, q) && (SomeMore(m, n, q) || CountsIn(ev, q) <==> SomeMore(m', n, q))
  {
    var k := WindowOf(ev);
    var m' := m[k := Bump(m[k], ev)];
    BumpValue(m[k], ev, q);
    hide WindowOf, Bump, Value, CountsIn;
    if CountsIn(ev, q) {
      assert k in m' && Value(m'[k], q) > Value(n[k], q);
    } else {
      assert forall j :: j in n ==> Value(m'[j], q) == Value(m[j], q);
      SameMore(m, m', n, q);
    }
  }

  lemma SameMore(m: map<Window, Acc>, m': map<Window, Acc>, n: map<Window, Acc>, q: Count)
    requires m.Keys == m'.Keys == n.Keys && forall j :: j in n ==> Value(m'[j], q) == Value(m[j], q)
    ensures SomeMore(m, n, q) <==> SomeMore(m', n, q)
  {
    hide Value;
    if SomeMore(m, n, q) {
      var j :| j in m && j in n && Value(m[j], q) > Value(n[j], q);
      assert j in m' && Value(m'[j], q) > Value(n[j], q);
    }
    if SomeMore(m', n, q) {
      var j :| j in m' && j in n && Value(m'[j], q) > Value(n[j], q);
      assert j in m && Value(m[j], q) > Value(n[j], q);
    }
  }

  /** An id that was seen and whose minute is open has its window open: its first arrival was counted. */
  lemma SeenIsOpen(items: seq<Item>, n: nat)
    requires SameCells(items) && n < |items| && items[n].Arrive? && AllEvents(items[n].r).Some?
    requires AllEvents(items[n].r).value.id in Run(items[..n]).job.seen
    requires !Closed(WatermarkOf(items[..n]), MinuteOf(AllEvents(items[n].r).value.time))
    ensures WindowOf(AllEvents(items[n].r).value) in Run(items[..n]).job.windows.open
  {
    var ev, h := AllEvents(items[n].r).value, HistoryOf(items[..n]);
    RunAgrees(items[..n]);
    HistoryArrived(items[..n]);
    var placed := if ev.id in h.counted then h.counted[ev.id] else h.dropped[ev.id];
    assert Arrived(placed, ev.id, items[..n]);
    var i: nat :| ArrivesAt(items[..n], i, placed);
    assert ArrivesAt(items, i, placed) && ArrivesAt(items, n, ev);
    hide AllEvents, SameCells, HistoryOf, WatermarkOf, Run, Tally;
    if ev.id in h.counted {
      assert WindowOf(placed) in Groups(h.counted);
    } else {
      assert Describes(Run(items[..n]).sinks.late[ev.id], placed);
      DroppedWasClosed(items[..n], ev.id);
    }
  }

  lemma {:induction false} DroppedWasClosed(items: seq<Item>, id: string)
    requires id in HistoryOf(items).dropped
    ensures Closed(WatermarkOf(items), MinuteOf(HistoryOf(items).dropped[id].time))
  {
    hide AllEvents, MinuteOf;
    var n := |items| - 1;
    if id in HistoryOf(items[..n]).dropped { DroppedWasClosed(items[..n], id); }
    assert forall start :: Closed(WatermarkOf(items[..n]), start) ==> Closed(WatermarkOf(items), start);
  }

  /** Some input was counted again in the column. */
  predicate AnyRecount(xs: seq<Timed>, ttl: int, q: Count)
  {
    xs != [] && (AnyRecount(xs[..|xs| - 1], ttl, q) || RecountsIn(xs, ttl, |xs| - 1, q))
  }

  lemma RecountsInPrefix(xs: seq<Timed>, ttl: int, m: nat, n: nat, q: Count)
    requires n < m <= |xs|
    ensures RecountsIn(xs[..m], ttl, n, q) <==> RecountsIn(xs, ttl, n, q)
  {
    assert xs[..m][..n] == xs[..n];
    hide AllEvents, MinuteOf, Closed, Remembered, CountsIn;
  }

  lemma RecountIsRead(xs: seq<Timed>, ttl: int, n: nat, q: Count)
    requires RecountsIn(xs, ttl, n, q)
    ensures n < |xs|
  {
  }

  lemma {:induction false} AnyIsSome(xs: seq<Timed>, ttl: int, q: Count)
    ensures AnyRecount(xs, ttl, q) <==> exists n: nat :: RecountsIn(xs, ttl, n, q)
  {
    hide RecountsIn;
    if xs != [] {
      var m := |xs| - 1;
      AnyIsSome(xs[..m], ttl, q);
      if n: nat :| RecountsIn(xs, ttl, n, q) {
        RecountIsRead(xs, ttl, n, q);
        if n < m { RecountsInPrefix(xs, ttl, m, n, q); }
      }
      if n: nat :| RecountsIn(xs[..m], ttl, n, q) {
        RecountIsRead(xs[..m], ttl, n, q);
        RecountsInPrefix(xs, ttl, m, n, q);
      }
    } else if n: nat :| RecountsIn(xs, ttl, n, q) {
      RecountIsRead(xs, ttl, n, q);
    }
  }

  /** Counted again means counted again in some column: of its kind, since only impressions are twins. */
  lemma RecountsSomewhere(xs: seq<Timed>, ttl: int, n: nat)
    ensures Recounts(xs, ttl, n) <==> exists q :: RecountsIn(xs, ttl, n, q)
  {
    if Readmits(xs, ttl, n) {
      var ev := AllEvents(xs[n].it.r).value;
      if ev.kind == Quartile { NoTwinQuartile(xs[n].it.r); }
      hide AllEvents, MinuteOf, Closed, Readmits;
      if Recounts(xs, ttl, n) { assert RecountsIn(xs, ttl, n, Of(ev.kind)); }
    }
  }

  /** The job that forgets runs beside the one that does not: in no column does it count less, and it
      counts more in a column exactly when an input was counted again in it. */
  lemma {:induction false} RunsBeside(xs: seq<Timed>, ttl: int, q: Count)
    requires SameCells(Items(xs))
    ensures Beside(TtlRun(xs, ttl), Run(Items(xs)), q)
    ensures AnyRecount(xs, ttl, q) <==> More(TtlRun(xs, ttl), Run(Items(xs)), q)
  {
    if xs == [] {
      assert Items(xs) == [];
    } else {
      hide AllEvents, Beside, More, SameCells, TtlAdvance, Advance, Closed, MinuteOf, RecountsIn;
      var n := |xs| - 1;
      var before, x := xs[..n], xs[n];
      ItemsPrefix(xs, n);
      SameCellsPrefix(xs, n);
      RunsBeside(before, ttl, q);
      var w, p := TtlRun(before, ttl), Run(Items(before));
      StepBeside(xs, ttl, w, p, q);
    }
  }

  lemma StepBeside(xs: seq<Timed>, ttl: int, w: TtlWorld, p: World, q: Count)
    requires xs != [] && SameCells(Items(xs)) && w == TtlRun(xs[..|xs| - 1], ttl) && p == Run(Items(xs[..|xs| - 1])) && Beside(w, p, q)
    ensures var x := xs[|xs| - 1]; var w', p' := TtlAdvance(w, x, ttl), Advance(p, x.it);
            Beside(w', p', q) && (More(w, p, q) || RecountsIn(xs, ttl, |xs| - 1, q) <==> More(w', p', q))
  {
    var n := |xs| - 1;
    var x := xs[n];
    SeenIsSeen(xs[..n], ttl);
    TtlWatermark(xs[..n], ttl);
    ItemsPrefix(xs, n);
    RunIsFresh(Items(xs[..n]));
    assert p.job.windows.wm == w.job.windows.wm && w.job.seen.Keys == p.job.seen;
    if x.it.Mark? {
      TickBeside(w, p, x, ttl, q);
    } else if Admits(w.job.seen, x, ttl) {
      var ev := AllEvents(x.it.r).value;
      if ev.id in p.job.seen {
        if !Closed(p.job.windows.wm, MinuteOf(ev.time)) { SeenIsOpen(Items(xs), n); }
        AgainBeside(w, p, x, ttl, q);
      } else {
        FirstBeside(w, p, x, ttl, q);
      }
    } else {
      IgnoredBeside(w, p, x, ttl);
    }
    hide AllEvents, Beside, More, SameCells, TtlAdvance, Advance, Closed, MinuteOf, Fresh, CountsIn;
  }

  lemma IgnoredBeside(w: TtlWorld, p: World, x: Timed, ttl: int)
    requires w.job.seen.Keys == p.job.seen && x.it.Arrive? && !Admits(w.job.seen, x, ttl)
    ensures TtlAdvance(w, x, ttl) == w && Advance(p, x.it) == p
  {
    hide AllEvents, Admit, Tick;
    DeliverSilent(w.sinks);
    DeliverSilent(p.sinks);
  }

  lemma SameAcc(a: Acc, b: Acc)
    ensures a == b <==> forall q :: Value(a, q) == Value(b, q)
  {
    if forall q :: Value(a, q) == Value(b, q) {
      assert Value(a, Of(Impression)) == Value(b, Of(Impression)) && Value(a, Of(Click)) == Value(b, Of(Click));
      assert Value(a, Of(Complete)) == Value(b, Of(Complete)) && Value(a, Of(Request)) == Value(b, Of(Request));
      assert Value(a, OfTwins) == Value(b, OfTwins);
    }
  }

  /** When copies lie in one cell and every window has fired: per column, the rows the job emits count no
      less than those of the job that never forgets, and more somewhere exactly when an input was counted
      again in it. */
  lemma ColumnExactlyWhen(xs: seq<Timed>, ttl: int, q: Count)
    requires SameCells(Items(xs)) && Run(Items(xs)).job.windows.open == map[]
    ensures TtlRun(xs, ttl).job.windows.open == map[]
    ensures var agg, full := TtlRun(xs, ttl).sinks.agg, Run(Items(xs)).sinks.agg;
            && AllAtLeast(agg, full, q)
            && (SomeMore(agg, full, q) <==> exists n: nat :: RecountsIn(xs, ttl, n, q))
  {
    RunsBeside(xs, ttl, q);
    AnyIsSome(xs, ttl, q);
    hide TtlRun, Run, RecountsIn, SameCells, AnyRecount, Value;
    var w, p := TtlRun(xs, ttl), Run(Items(xs));
    assert w.job.windows.open.Keys == {};
    assert w.job.windows.open == map[];
  }

  /** Main result on the minute rows. When copies lie in one cell and every window has fired, the rows
      the job emits are those of the job that never forgets, if and only if no input was counted again. */
  lemma MinuteRowsExactlyWhen(xs: seq<Timed>, ttl: int)
    requires SameCells(Items(xs)) && Run(Items(xs)).job.windows.open == map[]
    ensures TtlRun(xs, ttl).job.windows.open == map[]
    ensures TtlRun(xs, ttl).sinks.agg.Keys == Run(Items(xs)).sinks.agg.Keys
    ensures TtlRun(xs, ttl).sinks.agg == Run(Items(xs)).sinks.agg <==> forall n: nat :: !Recounts(xs, ttl, n)
  {
    hide *;
    var agg, full := TtlRun(xs, ttl).sinks.agg, Run(Items(xs)).sinks.agg;
    forall q
      ensures AllAtLeast(agg, full, q)
    {
      ColumnExactlyWhen(xs, ttl, q);
    }
    ColumnExactlyWhen(xs, ttl, OfTwins);
    SameTables(agg, full);
    if q :| SomeMore(agg, full, q) {
      ColumnExactlyWhen(xs, ttl, q);
      var n: nat :| RecountsIn(xs, ttl, n, q);
      RecountsSomewhere(xs, ttl, n);
    }
    if n: nat :| Recounts(xs, ttl, n) {
      RecountsSomewhere(xs, ttl, n);
      var q :| RecountsIn(xs, ttl, n, q);
      ColumnExactlyWhen(xs, ttl, q);
      assert SomeMore(agg, full, q);
    }
    SameKeysAll(agg, full);
  }

  lemma SameKeysAll(m: map<Window, Acc>, n: map<Window, Acc>)
    requires AllAtLeast(m, n, OfTwins)
    ensures m.Keys == n.Keys
  {
  }

  lemma SameTables(m: map<Window, Acc>, n: map<Window, Acc>)
    requires forall q :: AllAtLeast(m, n, q)
    ensures m == n <==> forall q :: !SomeMore(m, n, q)
  {
    assert AllAtLeast(m, n, OfTwins);
    if forall q :: !SomeMore(m, n, q) {
      forall k | k in n
        ensures m[k] == n[k]
      {
        forall q
          ensures Value(m[k], q) == Value(n[k], q)
        {
          assert AllAtLeast(m, n, q) && !SomeMore(m, n, q);
          hide Value;
        }
        SameAcc(m[k], n[k]);
      }
    }
  }

  // ---------------------------------------------------------------- exactly when the late rows agree

  /** The row that an event read at place n makes when it comes late. */
  function RowAt(items: seq<Item>, n: nat, ev: Event): LateRow
    requires n <= |items| && WatermarkOf(items[..n]).Some?
  {
    LateRow(ev.kind, ev.campaign, ev.adRequestId, ev.time, MinuteOf(ev.time) + MINUTE, WatermarkOf(items[..n]).value)
  }

  /** Input n is admitted and comes late: event ev of it makes a row. */
  predicate LateRead(xs: seq<Timed>, ttl: int, n: nat, ev: Event)
  {
    && n < |xs| && Admits(TtlSeen(xs[..n], ttl), xs[n], ttl) && AllEvents(xs[n].it.r).value == ev
    && Closed(WatermarkOf(Items(xs[..n])), MinuteOf(ev.time))
  }

  /** And no later input makes a row of the same id. */
  ghost predicate LastLate(xs: seq<Timed>, ttl: int, n: nat, ev: Event)
  {
    LateRead(xs, ttl, n, ev) && forall m: nat, e :: n < m && LateRead(xs, ttl, m, e) ==> e.id != ev.id
  }

  lemma LateReadPrefix(xs: seq<Timed>, ttl: int, m: nat, n: nat, ev: Event)
    requires n < m <= |xs|
    ensures LateRead(xs[..m], ttl, n, ev) <==> LateRead(xs, ttl, n, ev)
  {
    assert xs[..m][..n] == xs[..n];
    hide AllEvents, MinuteOf, Closed, Remembered;
  }

  /** What the last step does to the late rows: a late read writes its row, anything else nothing. */
  lemma LateStepWrites(xs: seq<Timed>, ttl: int, ev: Event)
    requires xs != [] && LateRead(xs, ttl, |xs| - 1, ev)
    ensures var n := |xs| - 1;
            && WatermarkOf(Items(xs)[..n]).Some?
            && TtlRun(xs, ttl).sinks.late == TtlRun(xs[..n], ttl).sinks.late[ev.id := RowAt(Items(xs), n, ev)]
  {
    var n := |xs| - 1;
    var w := TtlRun(xs[..n], ttl);
    assert TtlRun(xs, ttl) == TtlAdvance(w, xs[n], ttl);
    hide *;
    TtlWatermark(xs[..n], ttl);
    SeenIsSeen(xs[..n], ttl);
    ItemsPrefix(xs, n);
    LateReadIs(xs, ttl, n, ev);
    AdmissionWritesLate(w, xs[n], ttl);
    RowIs(Items(xs), n, ev, w.job.windows.wm);
  }

  lemma LateReadIs(xs: seq<Timed>, ttl: int, n: nat, ev: Event)
    requires LateRead(xs, ttl, n, ev)
    ensures n < |xs| && Admits(TtlSeen(xs[..n], ttl), xs[n], ttl) && xs[n].it.Arrive? && AllEvents(xs[n].it.r) == Some(ev)
    ensures Closed(WatermarkOf(Items(xs[..n])), MinuteOf(ev.time)) && WatermarkOf(Items(xs[..n])).Some?
  {
    hide AllEvents, MinuteOf, Remembered;
  }

  lemma RowIs(items: seq<Item>, n: nat, ev: Event, wm: Option<int>)
    requires n <= |items| && WatermarkOf(items[..n]) == wm && wm.Some?
    ensures RowAt(items, n, ev) == LateRow(ev.kind, ev.campaign, ev.adRequestId, ev.time, MinuteOf(ev.time) + MINUTE, wm.value)
  {
    hide MinuteOf;
  }

  lemma AdmissionWritesLate(w: TtlWorld, x: Timed, ttl: int)
    requires x.it.Arrive? && AllEvents(x.it.r).Some? && Admits(w.job.seen, x, ttl)
    ensures var ev, wm := AllEvents(x.it.r).value, w.job.windows.wm;
            TtlAdvance(w, x, ttl).sinks.late ==
            if Closed(wm, MinuteOf(ev.time))
            then w.sinks.late[ev.id := LateRow(ev.kind, ev.campaign, ev.adRequestId, ev.time, MinuteOf(ev.time) + MINUTE, wm.value)]
            else w.sinks.late
  {
    TtlAdmission(w, x, ttl);
    hide TtlAdvance, AllEvents, Admit, Deliver, MinuteOf, Admits;
    AdmitWritesLate(w.job.windows, w.sinks, AllEvents(x.it.r).value);
  }

  lemma LateStepSilent(xs: seq<Timed>, ttl: int, n: nat)
    requires n + 1 == |xs| && forall ev :: !LateRead(xs, ttl, n, ev)
    ensures TtlRun(xs, ttl).sinks.late == TtlRun(xs[..n], ttl).sinks.late
  {
    var x, w := xs[n], TtlRun(xs[..n], ttl);
    assert TtlRun(xs, ttl) == TtlAdvance(w, x, ttl);
    hide TtlRun, TtlAdvance, AllEvents, Admit, Deliver, MinuteOf, Remembered, TtlSeen, WatermarkOf, Closed;
    TtlWatermark(xs[..n], ttl);
    SeenIsSeen(xs[..n], ttl);
    if x.it.Mark? {
      MarkWritesNoLate(w, x, ttl);
    } else if Admits(w.job.seen, x, ttl) {
      var ev := AllEvents(x.it.r).value;
      assert !LateRead(xs, ttl, n, ev);
      TtlAdmission(w, x, ttl);
      AdmitWritesLate(w.job.windows, w.sinks, ev);
    } else {
      NotAdmitted(w, x, ttl);
    }
  }

  lemma MarkWritesNoLate(w: TtlWorld, x: Timed, ttl: int)
    requires x.it.Mark?
    ensures TtlAdvance(w, x, ttl).sinks.late == w.sinks.late
  {
    hide Due;
    MergeNone(w.sinks.late);
  }

  lemma NotAdmitted(w: TtlWorld, x: Timed, ttl: int)
    requires x.it.Arrive? && !Admits(w.job.seen, x, ttl)
    ensures TtlAdvance(w, x, ttl) == w
  {
    hide AllEvents, Admit;
    DeliverSilent(w.sinks);
  }

  lemma AdmitWritesLate(w: Windows, s: Sinks, ev: Event)
    ensures Deliver(s, Admit(w, ev).1).late ==
            if Closed(w.wm, MinuteOf(ev.time))
            then s.late[ev.id := LateRow(ev.kind, ev.campaign, ev.adRequestId, ev.time, MinuteOf(ev.time) + MINUTE, w.wm.value)]
            else s.late
  {
    LateIsClosed(w, ev);
    hide MinuteOf, Bump, Deliver, Closed, LateAtWindow;
    if Closed(w.wm, MinuteOf(ev.time)) {
      var row := LateRow(ev.kind, ev.campaign, ev.adRequestId, ev.time, MinuteOf(ev.time) + MINUTE, w.wm.value);
      assert Admit(w, ev).1 == Output(map[], map[ev.id := row]);
      DeliverLate(s, ev.id, row);
    } else {
      assert Admit(w, ev).1 == SILENT;
      DeliverSilent(s);
    }
  }

  lemma LateIsClosed(w: Windows, ev: Event)
    ensures LateAtWindow(w.wm, ev) <==> Closed(w.wm, MinuteOf(ev.time))
    ensures Closed(w.wm, MinuteOf(ev.time)) ==> w.wm.Some?
  {
    hide MinuteOf;
  }

  /** The row kept of an id is that of its last late read. */
  lemma {:induction false} LastRowStays(xs: seq<Timed>, ttl: int, n: nat, ev: Event)
    requires LastLate(xs, ttl, n, ev)
    ensures WatermarkOf(Items(xs)[..n]).Some?
    ensures ev.id in TtlRun(xs, ttl).sinks.late && TtlRun(xs, ttl).sinks.late[ev.id] == RowAt(Items(xs), n, ev)
  {
    var m := |xs| - 1;
    hide TtlRun, LateRead;
    LateReadBound(xs, ttl, n, ev);
    if n == m {
      LateStepWrites(xs, ttl, ev);
    } else {
      LastLatePrefix(xs, ttl, m, n, ev);
      LastRowStays(xs[..m], ttl, n, ev);
      ItemsPrefix(xs, m);
      assert Items(xs[..m])[..n] == Items(xs)[..n];
      if e :| LateRead(xs, ttl, m, e) {
        LateStepWrites(xs, ttl, e);
        assert e.id != ev.id;
      } else {
        LateStepSilent(xs, ttl, m);
      }
      hide RowAt;
    }
  }

  lemma LateReadBound(xs: seq<Timed>, ttl: int, n: nat, ev: Event)
    requires LateRead(xs, ttl, n, ev)
    ensures n < |xs|
  {
  }

  lemma LastLatePrefix(xs: seq<Timed>, ttl: int, m: nat, n: nat, ev: Event)
    requires n < m <= |xs| && LastLate(xs, ttl, n, ev)
    ensures LastLate(xs[..m], ttl, n, ev)
  {
    LateReadPrefix(xs, ttl, m, n, ev);
    forall k: nat, e | n < k && LateRead(xs[..m], ttl, k, e)
      ensures e.id != ev.id
    {
      LateReadBound(xs[..m], ttl, k, e);
      LateReadPrefix(xs, ttl, m, k, e);
    }
    hide LateRead;
  }

  /** Every late row has a last late read. */
  lemma {:induction false} RowHasRead(xs: seq<Timed>, ttl: int, id: string) returns (n: nat, ev: Event)
    requires id in TtlRun(xs, ttl).sinks.late
    ensures LastLate(xs, ttl, n, ev) && ev.id == id
  {
    assert xs != [];
    var m: nat := |xs| - 1;
    hide TtlRun, LateRead, LastLate;
    if e :| LateRead(xs, ttl, m, e) {
      LateStepWrites(xs, ttl, e);
      if e.id == id {
        n, ev := m, e;
        EndIsLast(xs, ttl, e);
      } else {
        n, ev := RowHasRead(xs[..m], ttl, id);
        OneLateRead(xs, ttl, m, e);
        LastLateExtends(xs, ttl, m, n, ev);
      }
    } else {
      LateStepSilent(xs, ttl, m);
      n, ev := RowHasRead(xs[..m], ttl, id);
      LastLateExtends(xs, ttl, m, n, ev);
    }
  }

  lemma EndIsLast(xs: seq<Timed>, ttl: int, ev: Event)
    requires xs != [] && LateRead(xs, ttl, |xs| - 1, ev)
    ensures LastLate(xs, ttl, |xs| - 1, ev)
  {
    hide AllEvents, MinuteOf, Closed, Admits;
  }

  lemma OneLateRead(xs: seq<Timed>, ttl: int, n: nat, ev: Event)
    requires LateRead(xs, ttl, n, ev)
    ensures forall e :: LateRead(xs, ttl, n, e) ==> e == ev
  {
    hide AllEvents, MinuteOf, Closed, Admits;
  }

  lemma LastLateExtends(xs: seq<Timed>, ttl: int, m: nat, n: nat, ev: Event)
    requires m + 1 == |xs| && LastLate(xs[..m], ttl, n, ev) && forall e :: LateRead(xs, ttl, m, e) ==> e.id != ev.id
    ensures LastLate(xs, ttl, n, ev)
  {
    hide LateRead;
    LateReadBound(xs[..m], ttl, n, ev);
    LateReadPrefix(xs, ttl, m, n, ev);
    forall k: nat, e | n < k && LateRead(xs, ttl, k, e)
      ensures e.id != ev.id
    {
      LateReadBound(xs, ttl, k, e);
      if k < m { LateReadPrefix(xs, ttl, m, k, e); }
    }
  }

  /** A late first arrival is a late read of the job that forgets, too. */
  lemma FirstIsRead(xs: seq<Timed>, ttl: int, i: nat, ev: Event)
    requires FirstArrival(Items(xs), i, ev) && Closed(WatermarkOf(Items(xs)[..i]), MinuteOf(ev.time))
    ensures LateRead(xs, ttl, i, ev)
  {
    ItemsPrefix(xs, i);
    if ev.id in TtlSeen(xs[..i], ttl) {
      var k, e := SeenArrives(xs[..i], ttl, ev.id);
      FirstUnique(xs, i, ev, k, e);
    }
    hide AllEvents, MinuteOf, Closed;
  }

  lemma FirstUnique(xs: seq<Timed>, i: nat, ev: Event, k: nat, e: Event)
    requires i <= |xs| && FirstArrival(Items(xs), i, ev) && ArrivesAt(Items(xs[..i]), k, e)
    ensures e.id != ev.id
  {
    hide AllEvents;
    ItemsPrefix(xs, i);
    assert ArrivesAt(Items(xs), k, e);
  }

  lemma {:induction false} SeenArrives(xs: seq<Timed>, ttl: int, id: string) returns (k: nat, e: Event)
    requires id in TtlSeen(xs, ttl)
    ensures ArrivesAt(Items(xs), k, e) && e.id == id
  {
    hide AllEvents;
    var n := |xs| - 1;
    ItemsPrefix(xs, n);
    if id in TtlSeen(xs[..n], ttl) {
      k, e := SeenArrives(xs[..n], ttl, id);
    } else {
      k, e := n, AllEvents(xs[n].it.r).value;
    }
  }

  /** Some late read of an id is its last. */
  lemma {:induction false} SomeLast(xs: seq<Timed>, ttl: int, i: nat, ev: Event) returns (n: nat, e: Event)
    requires LateRead(xs, ttl, i, ev)
    ensures LastLate(xs, ttl, n, e) && e.id == ev.id
    decreases |xs| - i
  {
    hide LateRead;
    LateReadBound(xs, ttl, i, ev);
    if m: nat, f :| i < m && LateRead(xs, ttl, m, f) && f.id == ev.id {
      LateReadBound(xs, ttl, m, f);
      n, e := SomeLast(xs, ttl, m, f);
    } else {
      n, e := i, ev;
    }
  }

  /** The job that never forgets keeps the row of the first arrival. */
  lemma FirstRow(items: seq<Item>, i: nat, ev: Event)
    requires FirstArrival(items, i, ev) && Closed(WatermarkOf(items[..i]), MinuteOf(ev.time))
    ensures ev.id in Run(items).sinks.late && Run(items).sinks.late[ev.id] == RowAt(items, i, ev)
  {
    var before := items[..i];
    RunAgrees(before);
    HistoryIds(before, ev.id);
    forall k: nat, e | ArrivesAt(before, k, e)
      ensures e.id != ev.id
    {
      assert ArrivesAt(items, k, e);
    }
    assert ev.id !in Run(before).job.seen;
    assert items[..i + 1][..i] == before;
    PlainAdmission(Run(before), items[i]);
    AdmitWritesLate(Run(before).job.windows, Run(before).sinks, ev);
    assert Run(items[..i + 1]) == Advance(Run(before), items[i]);
    WrittenForever(items, i + 1);
    hide Run, Advance, AllEvents, Admit, Deliver, MinuteOf, Closed, HistoryOf, Reflects;
  }

  /** A late row of the job that never forgets is that of a first arrival. */
  lemma RowHasFirst(items: seq<Item>, id: string) returns (i: nat, ev: Event)
    requires id in Run(items).sinks.late
    ensures FirstArrival(items, i, ev) && ev.id == id && Closed(WatermarkOf(items[..i]), MinuteOf(ev.time))
  {
    RunAgrees(items);
    HistoryIds(items, id);
    hide Run, HistoryOf, Closed, MinuteOf, AllEvents, GroupBy;
    var k: nat, e :| ArrivesAt(items, k, e) && e.id == id;
    i, ev := FirstOfId(items, k, e);
    FirstArrivalDecides(items, i, ev);
  }

  lemma {:induction false} FirstOfId(items: seq<Item>, k: nat, e: Event) returns (i: nat, ev: Event)
    requires ArrivesAt(items, k, e)
    ensures FirstArrival(items, i, ev) && ev.id == e.id
    decreases k
  {
    hide ArrivesAt;
    if j: nat, f :| j < k && ArrivesAt(items, j, f) && f.id == e.id {
      i, ev := FirstOfId(items, j, f);
    } else {
      i, ev := k, e;
    }
  }

  /** The event came late first, and then left the same row. */
  ghost predicate LateAtFirst(items: seq<Item>, n: nat, ev: Event)
  {
    exists i: nat, first ::
      && FirstArrival(items, i, first) && first.id == ev.id && Closed(WatermarkOf(items[..i]), MinuteOf(first.time))
      && n <= |items| && WatermarkOf(items[..n]).Some? && RowAt(items, i, first) == RowAt(items, n, ev)
  }

  /** For one id: its row is that of the job that never forgets iff its last late read left the row of
      its first arrival. */
  lemma SameRowExactlyWhen(xs: seq<Timed>, ttl: int, n: nat, ev: Event)
    requires LastLate(xs, ttl, n, ev)
    ensures var late, full := TtlRun(xs, ttl).sinks.late, Run(Items(xs)).sinks.late;
            ev.id in late && ((ev.id in full && full[ev.id] == late[ev.id]) <==> LateAtFirst(Items(xs), n, ev))
  {
    LastRowStays(xs, ttl, n, ev);
    LateReadBound(xs, ttl, n, ev);
    hide TtlRun, Run, LateRead, FirstArrival, Closed, MinuteOf, RowAt;
    var items := Items(xs);
    if LateAtFirst(items, n, ev) {
      var i: nat, first :| FirstArrival(items, i, first) && first.id == ev.id && Closed(WatermarkOf(items[..i]), MinuteOf(first.time))
                           && RowAt(items, i, first) == RowAt(items, n, ev);
      FirstRow(items, i, first);
    }
    if ev.id in Run(items).sinks.late && Run(items).sinks.late[ev.id] == TtlRun(xs, ttl).sinks.late[ev.id] {
      var i, first := RowHasFirst(items, ev.id);
      FirstRow(items, i, first);
    }
  }

  /** The job that forgets lists every id the other lists. */
  lemma LateIdsGrow(xs: seq<Timed>, ttl: int)
    ensures Run(Items(xs)).sinks.late.Keys <= TtlRun(xs, ttl).sinks.late.Keys
  {
    hide TtlRun, Run, LateRead, FirstArrival, Closed, MinuteOf, RowAt, LastLate;
    forall id | id in Run(Items(xs)).sinks.late
      ensures id in TtlRun(xs, ttl).sinks.late
    {
      var i, first := RowHasFirst(Items(xs), id);
      FirstIsRead(xs, ttl, i, first);
      var n, ev := SomeLast(xs, ttl, i, first);
      LastRowStays(xs, ttl, n, ev);
    }
  }

  /** Main result on the late rows: they are those of the job that never forgets, if and only if every
      last late read of an id leaves the row its first arrival left. */
  lemma LateRowsExactlyWhen(xs: seq<Timed>, ttl: int)
    ensures TtlRun(xs, ttl).sinks.late == Run(Items(xs)).sinks.late <==>
            forall n: nat, ev :: LastLate(xs, ttl, n, ev) ==> LateAtFirst(Items(xs), n, ev)
  {
    LateIdsGrow(xs, ttl);
    hide TtlRun, Run, LastLate, LateAtFirst;
    var late, full := TtlRun(xs, ttl).sinks.late, Run(Items(xs)).sinks.late;
    if late == full {
      forall n: nat, ev | LastLate(xs, ttl, n, ev)
        ensures LateAtFirst(Items(xs), n, ev)
      {
        SameRowExactlyWhen(xs, ttl, n, ev);
      }
    }
    if forall n: nat, ev :: LastLate(xs, ttl, n, ev) ==> LateAtFirst(Items(xs), n, ev) {
      forall id | id in late
        ensures id in full && full[id] == late[id]
      {
        var n, ev := RowHasRead(xs, ttl, id);
        SameRowExactlyWhen(xs, ttl, n, ev);
      }
      assert late.Keys == full.Keys;
    }
  }

  // ---------------------------------------------------------------- late rows describe arrivals

  /** The row is of an event that arrived with this id. */
  ghost predicate RowOf(items: seq<Item>, id: string, row: LateRow)
  {
    exists i: nat, ev :: ArrivesAt(items, i, ev) && ev.id == id && row.kind == ev.kind && row.campaign == ev.campaign && row.time == ev.time
  }

  ghost predicate RowsArrived(items: seq<Item>, late: map<string, LateRow>)
  {
    forall id :: id in late ==> RowOf(items, id, late[id])
  }

  lemma StepRowsArrive(items: seq<Item>, j: TtlJob, x: Timed, ttl: int, n: nat)
    requires n < |items| && items[n] == x.it
    ensures RowsArrived(items, TtlStep(j, x, ttl).1.late)
  {
    if Admits(j.seen, x, ttl) {
      assert ArrivesAt(items, n, AllEvents(x.it.r).value);
    }
    hide AllEvents, MinuteOf, Bump, Closed;
  }

  lemma ExpiredRowsArrive(xs: seq<Timed>, ttl: int)
    ensures RowsArrived(Items(xs), TtlRun(xs, ttl).sinks.late)
  {
    forall id | id in TtlRun(xs, ttl).sinks.late
      ensures RowOf(Items(xs), id, TtlRun(xs, ttl).sinks.late[id])
    {
      hide *;
      var n, ev := RowHasRead(xs, ttl, id);
      LastRowStays(xs, ttl, n, ev);
      RowArrives(xs, ttl, n, ev);
    }
  }

  lemma RowArrives(xs: seq<Timed>, ttl: int, n: nat, ev: Event)
    requires LastLate(xs, ttl, n, ev) && n <= |xs| && WatermarkOf(Items(xs)[..n]).Some?
    ensures RowOf(Items(xs), ev.id, RowAt(Items(xs), n, ev))
  {
    LateReadIs(xs, ttl, n, ev);
    hide LateRead, AllEvents, MinuteOf, WatermarkOf;
    assert ArrivesAt(Items(xs), n, ev);
  }
}
