/** Concrete runs in which a crash can be seen: an id expires in between, a row of a read taken back
    stays, a late message is counted twice. */
module CrashInputs {
  import opened Events
  import opened Realtime
  import opened Ttl
  import opened Expiry
  import opened Recovery

  lemma ExecStep(items: seq<Item>, ttl: int, a: seq<Action>, n: nat)
    requires n < |a|
    ensures Exec(items, ttl, a[..n + 1]) == Act(items, ttl, Exec(items, ttl, a[..n]), a[n])
  {
    assert a[..n + 1][..n] == a[..n];
    hide Act;
  }

  lemma ReadStep(items: seq<Item>, a: seq<Action>, n: nat)
    requires n < |a|
    ensures Surviving(items, a[..n + 1]) == Keep(items, Surviving(items, a[..n]), a[n])
  {
    assert a[..n + 1][..n] == a[..n];
    hide Keep;
  }

  /** The cluster stands where its reads lead. */
  lemma AtReads(items: seq<Item>, ttl: int, actions: seq<Action>)
    ensures var c, r := Exec(items, ttl, actions), Surviving(items, actions);
            && c.savedPos == |r.saved| && c.pos == |r.all| == c.savedPos + |c.buffer|
            && c.live == TtlRun(r.all, ttl).job
            && (r.saved == [] ==> RowsOf(c.buffer) == TtlRun(r.all, ttl).sinks.late)
  {
    Reachable(items, ttl, actions);
    hide *;
    PositionsOf(items, ttl, Exec(items, ttl, actions), Surviving(items, actions));
  }

  lemma PositionsOf(items: seq<Item>, ttl: int, c: Cluster, r: Reads)
    requires Inv(items, ttl, c, r)
    ensures c.savedPos == |r.saved| && c.pos == |r.all| == c.savedPos + |c.buffer| && c.live == TtlRun(r.all, ttl).job
    ensures r.saved == [] ==> RowsOf(c.buffer) == TtlRun(r.all, ttl).sinks.late
  {
    hide Standing, Layered, Numbered, Items, RowsOf, DeliverAll;
    DeliverLateRows(TtlRun(r.saved, ttl).sinks, c.buffer);
    if r.saved == [] {
      assert TtlRun([], ttl).sinks == EMPTY;
      assert map[] + RowsOf(c.buffer) == RowsOf(c.buffer);
    }
    hide TtlRun;
  }

  /** Without a flush of late rows no row of a read taken back can stand. */
  lemma {:induction false} NoRowsFlushed(items: seq<Item>, ttl: int, actions: seq<Action>)
    requires forall a :: a in actions && a.Flush? ==> a.rows == {}
    ensures Exec(items, ttl, actions).stale == map[] && Exec(items, ttl, actions).flushed == map[]
  {
    if actions != [] {
      var n := |actions| - 1;
      NoRowsFlushed(items, ttl, actions[..n]);
      assert actions[n] in actions;
      hide TtlStep, Recovery.Complete, Messages;
      var c := Exec(items, ttl, actions[..n]);
      assert c.stale - RowsOf(c.buffer).Keys == map[];
      MergeNone(c.stale);
      hide RowsOf;
    }
  }

  // ---------------------------------------------------------------- an id expires in between

  /** An event, the watermark that closes its minute, and a copy. */
  function Copied(r: Record, t: int): seq<Item>
  {
    [Arrive(r), Mark(t), Arrive(r)]
  }

  /** The three reads at these times. */
  function ReadsAt(r: Record, t: int, a: int, b: int, c: int): seq<Timed>
  {
    [Timed(Arrive(r), a), Timed(Mark(t), b), Timed(Arrive(r), c)]
  }

  lemma TtlRunStep(xs: seq<Timed>, ttl: int, n: nat)
    requires n < |xs|
    ensures TtlRun(xs[..n + 1], ttl) == TtlAdvance(TtlRun(xs[..n], ttl), xs[n], ttl)
  {
    assert xs[..n + 1][..n] == xs[..n];
    hide TtlAdvance;
  }

  /** After the event and the watermark: seen, and nothing late. */
  lemma SeenAndClosed(r: Record, t: int, ttl: int, a: int, b: int, c: int)
    requires AllEvents(r).Some?
    ensures var w := TtlRun(ReadsAt(r, t, a, b, c)[..2], ttl);
            w.job.seen == map[r.eventId := a] && w.job.windows.wm == Some(t) && w.sinks.late == map[]
  {
    var xs, ev := ReadsAt(r, t, a, b, c), AllEvents(r).value;
    assert ev.id == r.eventId;
    TtlRunStep(xs, ttl, 0);
    TtlRunStep(xs, ttl, 1);
    assert xs[..0] == [];
    var w0 := TtlRun([], ttl);
    assert w0 == TtlWorld(TtlJob(map[], FRESH.windows), EMPTY);
    var w1 := TtlAdvance(w0, xs[0], ttl);
    FirstAdmission(w0, xs[0], ttl);
    hide TtlRun, TtlAdvance, AllEvents;
    MarkOnly(w1, xs[1], ttl);
  }

  lemma FirstAdmission(w: TtlWorld, x: Timed, ttl: int)
    requires w == TtlWorld(TtlJob(map[], FRESH.windows), EMPTY) && x.it.Arrive? && AllEvents(x.it.r).Some?
    ensures var w' := TtlAdvance(w, x, ttl);
            w'.job.seen == map[AllEvents(x.it.r).value.id := x.now] && w'.job.windows.wm == None && w'.sinks.late == map[]
  {
    TtlAdmission(w, x, ttl);
    hide AllEvents, TtlAdvance, Admit, Deliver, MinuteOf;
    AdmitWrites(w.job.windows, w.sinks, AllEvents(x.it.r).value);
    AdmitWritesLate(w.job.windows, w.sinks, AllEvents(x.it.r).value);
  }

  lemma MarkOnly(w: TtlWorld, x: Timed, ttl: int)
    requires x.it.Mark? && w.job.windows.wm.None?
    ensures var w' := TtlAdvance(w, x, ttl);
            w'.job.seen == w.job.seen && w'.job.windows.wm == Some(x.it.t) && w'.sinks.late == w.sinks.late
  {
    MarkWritesNoLate(w, x, ttl);
    hide Due, Deliver;
  }

  /** The event is counted; its copy makes a late row exactly when the id has expired. */
  lemma CopyIsLate(r: Record, t: int, ttl: int, a: int, b: int, c: int)
    requires AllEvents(r).Some? && Closed(Some(t), MinuteOf(r.eventTime))
    ensures TtlRun(ReadsAt(r, t, a, b, c), ttl).sinks.late.Keys == if c >= a + ttl then {r.eventId} else {}
  {
    var xs, ev := ReadsAt(r, t, a, b, c), AllEvents(r).value;
    assert ev.id == r.eventId && ev.time == r.eventTime;
    assert xs[..3] == xs;
    TtlRunStep(xs, ttl, 2);
    SeenAndClosed(r, t, ttl, a, b, c);
    hide TtlRun, TtlAdvance, AllEvents, MinuteOf, Closed;
    ThirdRead(TtlRun(xs[..2], ttl), r, t, ttl, a, c);
  }

  lemma ThirdRead(w: TtlWorld, r: Record, t: int, ttl: int, a: int, c: int)
    requires AllEvents(r).Some? && Closed(Some(t), MinuteOf(AllEvents(r).value.time)) && AllEvents(r).value.id == r.eventId
    requires w.job.seen == map[r.eventId := a] && w.job.windows.wm == Some(t) && w.sinks.late == map[]
    ensures TtlAdvance(w, Timed(Arrive(r), c), ttl).sinks.late.Keys == if c >= a + ttl then {r.eventId} else {}
  {
    hide TtlAdvance, AllEvents, MinuteOf, Closed;
    if c >= a + ttl {
      AdmissionWritesLate(w, Timed(Arrive(r), c), ttl);
    } else {
      NotAdmitted(w, Timed(Arrive(r), c), ttl);
    }
  }

  /** The copy is read just before its id expires. */
  function ReadOnce(ttl: int): seq<Action>
  {
    [Process(0), Process(1), Checkpoint, Process(ttl - 1), Checkpoint]
  }

  /** The same, but the job crashes after that read and repeats it when the id has expired. */
  function ReadTwice(ttl: int): seq<Action>
  {
    [Process(0), Process(1), Checkpoint, Process(ttl - 1), Fail, Process(ttl), Checkpoint]
  }

  lemma OnceReads(r: Record, t: int, ttl: int)
    ensures Surviving(Copied(r, t), ReadOnce(ttl)).saved == ReadsAt(r, t, 0, 1, ttl - 1)
  {
    var items, a := Copied(r, t), ReadOnce(ttl);
    assert a[..5] == a && a[..0] == [] && Surviving(items, []) == Reads([], []);
    forall n: nat | n < 5 ensures Surviving(items, a[..n + 1]) == Keep(items, Surviving(items, a[..n]), a[n]) { ReadStep(items, a, n); }
    hide Surviving;
    var x, y := Timed(Arrive(r), 0), Timed(Mark(t), 1);
    assert Surviving(items, a[..1]).all == [x];
    assert Surviving(items, a[..3]) == Reads([x, y], [x, y]);
  }

  lemma TwiceReads(r: Record, t: int, ttl: int)
    ensures Surviving(Copied(r, t), ReadTwice(ttl)).saved == ReadsAt(r, t, 0, 1, ttl)
  {
    var items, a := Copied(r, t), ReadTwice(ttl);
    assert a[..7] == a && a[..0] == [] && Surviving(items, []) == Reads([], []);
    forall n: nat | n < 7 ensures Surviving(items, a[..n + 1]) == Keep(items, Surviving(items, a[..n]), a[n]) { ReadStep(items, a, n); }
    hide Surviving;
    var x, y := Timed(Arrive(r), 0), Timed(Mark(t), 1);
    assert Surviving(items, a[..1]).all == [x];
    assert Surviving(items, a[..3]) == Reads([x, y], [x, y]);
    assert Surviving(items, a[..5]) == Reads([x, y], [x, y]);
  }

  /** A run without a flush ends with the late rows of its surviving reads. */
  lemma EndsWith(items: seq<Item>, ttl: int, actions: seq<Action>, xs: seq<Timed>)
    requires Surviving(items, actions).saved == xs && |xs| == |items| && forall a :: a in actions && a.Flush? ==> a.rows == {}
    ensures var c := Exec(items, ttl, actions); c.savedPos == |items| && c.sinks.late == TtlRun(xs, ttl).sinks.late
  {
    hide Exec, Surviving, TtlRun;
    AtReads(items, ttl, actions);
    NoRowsFlushed(items, ttl, actions);
    Recovered(items, ttl, actions);
    MergeNone(TtlRun(xs, ttl).sinks.late);
  }

  /** The crash alone makes a late row of an event that was counted: the reads that survive differ. */
  lemma ExpiresInBetween(r: Record, t: int, ttl: int)
    requires AllEvents(r).Some? && Closed(Some(t), MinuteOf(r.eventTime))
    ensures var c := Exec(Copied(r, t), ttl, ReadOnce(ttl)); c.savedPos == 3 && c.sinks.late == map[]
    ensures var c := Exec(Copied(r, t), ttl, ReadTwice(ttl)); c.savedPos == 3 && c.sinks.late.Keys == {r.eventId}
  {
    OnceReads(r, t, ttl);
    TwiceReads(r, t, ttl);
    hide Exec, Surviving, AllEvents, Closed, MinuteOf, TtlRun;
    CopyIsLate(r, t, ttl, 0, 1, ttl - 1);
    CopyIsLate(r, t, ttl, 0, 1, ttl);
    EndsWith(Copied(r, t), ttl, ReadOnce(ttl), ReadsAt(r, t, 0, 1, ttl - 1));
    EndsWith(Copied(r, t), ttl, ReadTwice(ttl), ReadsAt(r, t, 0, 1, ttl));
  }

  // ---------------------------------------------------------------- a row of a read taken back

  /** All three reads are taken back, but not the late row of the expired copy; read again, faster, the
      copy is a duplicate. */
  function TakenBack(r: Record, ttl: int): seq<Action>
  {
    [Process(0), Process(1), Process(ttl), Flush(2, {}, {r.eventId}, false), Fail,
     Process(ttl + 1), Process(ttl + 1), Process(ttl + 1), Checkpoint]
  }

  lemma TakenBackReads(r: Record, t: int, ttl: int)
    ensures var items, a := Copied(r, t), TakenBack(r, ttl);
            && Surviving(items, a[..2]) == Reads(ReadsAt(r, t, 0, 1, ttl)[..2], [])
            && Surviving(items, a[..3]) == Reads(ReadsAt(r, t, 0, 1, ttl), [])
            && Surviving(items, a).saved == ReadsAt(r, t, ttl + 1, ttl + 1, ttl + 1)
  {
    var items, a := Copied(r, t), TakenBack(r, ttl);
    assert a[..9] == a && a[..0] == [] && Surviving(items, []) == Reads([], []);
    forall n: nat | n < 9 ensures Surviving(items, a[..n + 1]) == Keep(items, Surviving(items, a[..n]), a[n]) { ReadStep(items, a, n); }
    hide Surviving;
    var x, y, z := Timed(Arrive(r), 0), Timed(Mark(t), 1), Timed(Arrive(r), ttl);
    assert Surviving(items, a[..1]) == Reads([x], []);
    assert Surviving(items, a[..2]) == Reads([x, y], []);
    assert Surviving(items, a[..3]) == Reads([x, y, z], []);
    assert Surviving(items, a[..5]) == Reads([], []);
    assert Surviving(items, a[..6]).all == [Timed(Arrive(r), ttl + 1)];
    assert Surviving(items, a[..7]).all == [Timed(Arrive(r), ttl + 1), Timed(Mark(t), ttl + 1)];
  }

  lemma {:induction false} LateKeysGrow(items: seq<Item>, ttl: int, actions: seq<Action>, n: nat)
    requires n <= |actions|
    ensures Exec(items, ttl, actions[..n]).sinks.late.Keys <= Exec(items, ttl, actions).sinks.late.Keys
    decreases |actions|
  {
    if n == |actions| {
      assert actions[..n] == actions;
    } else {
      var init := actions[..|actions| - 1];
      LateKeysGrow(items, ttl, init, n);
      assert init[..n] == actions[..n];
      ActGrows(items, ttl, Exec(items, ttl, init), actions[|actions| - 1]);
      hide Act;
    }
  }

  lemma ActGrows(items: seq<Item>, ttl: int, c: Cluster, a: Action)
    ensures c.sinks.late.Keys <= Act(items, ttl, c, a).sinks.late.Keys
  {
    DeliverLateRows(c.sinks, c.buffer);
    hide TtlStep, DeliverAll, RowsOf, Messages, Restrict;
  }

  /** After three reads the third output holds the late row. */
  lemma ThirdOutput(r: Record, t: int, ttl: int)
    requires AllEvents(r).Some? && Closed(Some(t), MinuteOf(r.eventTime))
    ensures var c := Exec(Copied(r, t), ttl, TakenBack(r, ttl)[..3]); |c.buffer| == 3 && r.eventId in c.buffer[2].late
  {
    hide *;
    var items, a := Copied(r, t), TakenBack(r, ttl);
    TakenBackReads(r, t, ttl);
    CopyIsLate(r, t, ttl, 0, 1, ttl);
    SeenAndClosed(r, t, ttl, 0, 1, ttl);
    TakenBackScript(r, t, ttl);
    AtReads(items, ttl, a[..2]);
    AtReads(items, ttl, a[..3]);
    ExecStep(items, ttl, a, 2);
    var c2, c3 := Exec(items, ttl, a[..2]), Exec(items, ttl, a[..3]);
    ProcessAppends(items, ttl, c2, ttl);
    RowsAppend(c2.buffer, c3.buffer[2]);
  }

  lemma ProcessAppends(items: seq<Item>, ttl: int, c: Cluster, now: int)
    requires c.pos < |items|
    ensures var c' := Act(items, ttl, c, Process(now)); |c'.buffer| == |c.buffer| + 1 && c'.buffer == c.buffer + [c'.buffer[|c.buffer|]]
  {
    hide TtlStep;
  }

  lemma TakenBackScript(r: Record, t: int, ttl: int)
    ensures var a, xs := TakenBack(r, ttl), ReadsAt(r, t, 0, 1, ttl);
            && |Copied(r, t)| == 3 && |a| == 9 && |xs| == |xs[..3]| == 3 && |xs[..2]| == 2 && a[..9] == a
            && a[2] == Process(ttl) && a[3] == Flush(2, {}, {r.eventId}, false) && |ReadsAt(r, t, ttl + 1, ttl + 1, ttl + 1)| == 3
    ensures ttl > 0 ==> Timely(TakenBack(r, ttl))
  {
  }

  lemma FlushedStands(items: seq<Item>, ttl: int, c: Cluster, id: string)
    requires |c.buffer| == 3 && id in c.buffer[2].late
    ensures id in Act(items, ttl, c, Flush(2, {}, {id}, false)).sinks.late
  {
  }

  /** The row stays although no surviving read makes it. */
  lemma StaleRowStays(r: Record, t: int, ttl: int)
    requires AllEvents(r).Some? && Closed(Some(t), MinuteOf(r.eventTime)) && ttl > 0
    ensures var items, a := Copied(r, t), TakenBack(r, ttl); var c := Exec(items, ttl, a);
            && c.savedPos == 3 && Timely(a) && r.eventId in c.sinks.late
            && TtlRun(Surviving(items, a).saved, ttl).sinks.late == map[]
  {
    hide *;
    var items, a := Copied(r, t), TakenBack(r, ttl);
    TakenBackScript(r, t, ttl);
    ThirdOutput(r, t, ttl);
    ExecStep(items, ttl, a, 3);
    FlushedStands(items, ttl, Exec(items, ttl, a[..3]), r.eventId);
    LateKeysGrow(items, ttl, a, 4);
    TakenBackReads(r, t, ttl);
    CopyIsLate(r, t, ttl, ttl + 1, ttl + 1, ttl + 1);
    AtReads(items, ttl, a);
  }

  // ---------------------------------------------------------------- a row that is overwritten

  /** A late event, a later watermark, and a copy read when the id has expired. */
  function Rewritten(r: Record, t: int, u: int, ttl: int): seq<Timed>
  {
    [Timed(Mark(t), 0), Timed(Arrive(r), 0), Timed(Mark(u), 0), Timed(Arrive(r), ttl)]
  }

  /** The copy overwrites the row, although no id was counted and the ids of the table stay the same. */
  lemma RowOverwritten(r: Record, t: int, u: int, ttl: int)
    requires AllEvents(r).Some? && Closed(Some(t), MinuteOf(r.eventTime)) && t < u && ttl > 0
    ensures var late, full := TtlRun(Rewritten(r, t, u, ttl), ttl).sinks.late, Run(Items(Rewritten(r, t, u, ttl))).sinks.late;
            && late.Keys == full.Keys == {r.eventId}
            && late[r.eventId].watermark == u && full[r.eventId].watermark == t
  {
    hide *;
    var xs, ev := Rewritten(r, t, u, ttl), AllEvents(r).value;
    EventId(r, ev);
    TwoLateReads(r, t, u, ttl);
    OneIdLate(r, t, u, ttl);
    LastRowStays(xs, ttl, 3, ev);
    FirstRow(Items(xs), 1, ev);
    RewrittenMarks(r, t, u, ttl);
    RowIs(Items(xs), 3, ev, Some(u));
    RowIs(Items(xs), 1, ev, Some(t));
    LateIdsGrow(xs, ttl);
  }

  lemma RewrittenMarks(r: Record, t: int, u: int, ttl: int)
    requires t < u
    ensures var items := Items(Rewritten(r, t, u, ttl)); |items| == 4 && WatermarkOf(items[..1]) == Some(t) && WatermarkOf(items[..3]) == Some(u)
  {
    Watermarks(r, t, u);
    var items := Items(Rewritten(r, t, u, ttl));
    assert items[..1] == [Mark(t)] && items[..3] == [Mark(t), Arrive(r), Mark(u)];
    hide WatermarkOf;
  }

  lemma Watermarks(r: Record, t: int, u: int)
    requires t < u
    ensures WatermarkOf([Mark(t)]) == Some(t) && WatermarkOf([Mark(t), Arrive(r), Mark(u)]) == Some(u)
  {
    assert [Mark(t), Arrive(r), Mark(u)][..2] == [Mark(t), Arrive(r)] && [Mark(t), Arrive(r)][..1] == [Mark(t)] && [Mark(t)][..0] == [];
  }

  lemma TwoLateReads(r: Record, t: int, u: int, ttl: int)
    requires AllEvents(r).Some? && Closed(Some(t), MinuteOf(r.eventTime)) && t < u && ttl > 0
    ensures var xs := Rewritten(r, t, u, ttl); var ev := AllEvents(r).value;
            && LastLate(xs, ttl, 3, ev) && FirstArrival(Items(xs), 1, ev)
            && Closed(WatermarkOf(Items(xs)[..1]), MinuteOf(ev.time))
  {
    var xs, ev := Rewritten(r, t, u, ttl), AllEvents(r).value;
    assert ev.id == r.eventId && ev.time == r.eventTime;
    Watermarks(r, t, u);
    assert Items(xs)[..1] == [Mark(t)] && Items(xs[..3]) == [Mark(t), Arrive(r), Mark(u)];
    assert xs[..3][..2] == xs[..2] && xs[..2][..1] == xs[..1] && xs[..1][..0] == [];
    assert TtlSeen(xs[..1], ttl) == map[];
    assert TtlSeen(xs[..2], ttl) == map[ev.id := 0];
    assert TtlSeen(xs[..3], ttl) == map[ev.id := 0];
    hide AllEvents, MinuteOf, TtlSeen, WatermarkOf;
    assert ArrivesAt(Items(xs), 1, ev);
    assert LateRead(xs, ttl, 3, ev);
  }

  lemma OneIdLate(r: Record, t: int, u: int, ttl: int)
    requires AllEvents(r).Some?
    ensures var xs := Rewritten(r, t, u, ttl);
            TtlRun(xs, ttl).sinks.late.Keys <= {r.eventId}
  {
    var xs := Rewritten(r, t, u, ttl);
    forall id | id in TtlRun(xs, ttl).sinks.late
      ensures id == r.eventId
    {
      hide TtlRun, AllEvents;
      var n, ev := RowHasRead(xs, ttl, id);
      hide *;
      LastIsArrival(xs, ttl, n, ev);
      EventId(r, ev);
    }
  }

  lemma LastIsArrival(xs: seq<Timed>, ttl: int, n: nat, ev: Event)
    requires LastLate(xs, ttl, n, ev)
    ensures n < |xs| && xs[n].it.Arrive? && AllEvents(xs[n].it.r) == Some(ev)
  {
    LateReadIs(xs, ttl, n, ev);
    hide LateRead, AllEvents;
  }

  lemma EventId(r: Record, ev: Event)
    ensures AllEvents(r) == Some(ev) ==> ev.id == r.eventId
  {
  }

  // ---------------------------------------------------------------- a message sent twice

  /** The late message is sent, the job crashes and reads on from the start. */
  function SentTwice(): seq<Action>
  {
    [Process(0), Process(0), Flush(1, {}, {}, true), Fail, Process(0), Process(0), Checkpoint]
  }

  lemma SentTwiceReads(r: Record, t: int)
    ensures var items, a, x, y := [Mark(t), Arrive(r)], SentTwice(), Timed(Mark(t), 0), Timed(Arrive(r), 0);
            Surviving(items, a[..1]) == Reads([x], []) && Surviving(items, a).saved == [x, y]
  {
    var items, a, x, y := [Mark(t), Arrive(r)], SentTwice(), Timed(Mark(t), 0), Timed(Arrive(r), 0);
    assert a[..7] == a && a[..0] == [] && Surviving(items, []) == Reads([], []);
    forall n: nat | n < 7 ensures Surviving(items, a[..n + 1]) == Keep(items, Surviving(items, a[..n]), a[n]) { ReadStep(items, a, n); }
    hide Surviving;
    assert Surviving(items, a[..1]) == Reads([x], []);
    assert Surviving(items, a[..2]) == Reads([x, y], []);
    assert Surviving(items, a[..4]) == Reads([], []);
    assert Surviving(items, a[..5]).all == [x];
    assert Surviving(items, a[..6]).all == [x, y];
  }

  lemma OneLateRow(r: Record, t: int, ttl: int)
    requires AllEvents(r).Some? && Closed(Some(t), MinuteOf(r.eventTime))
    ensures var s := TtlRun([Timed(Mark(t), 0), Timed(Arrive(r), 0)], ttl).sinks; |s.late| == 1 && s.lateTotal == 1
    ensures |TtlStep(TtlRun([Timed(Mark(t), 0)], ttl).job, Timed(Arrive(r), 0), ttl).1.late| == 1
  {
    var ev, x, y := AllEvents(r).value, Timed(Mark(t), 0), Timed(Arrive(r), 0);
    assert ev.id == r.eventId && ev.time == r.eventTime;
    hide AllEvents, MinuteOf, Deliver;
    var w := Windows(Some(t), map[]);
    var none: map<Window, Acc> := map[];
    assert Due(none, t) == none && none - none.Keys == none;
    assert TtlStep(NEW, x, ttl) == (TtlJob(map[], w), SILENT);
    DeliverSilent(EMPTY);
    var row := LateRow(ev.kind, ev.campaign, ev.adRequestId, ev.time, MinuteOf(ev.time) + MINUTE, t);
    assert Admit(w, ev) == (w, Output(map[], map[ev.id := row]));
    DeliverLate(EMPTY, ev.id, row);
    MergeOne<string, LateRow>(map[], ev.id, row);
    assert [x, y][..1] == [x] && [x][..0] == [];
    assert TtlRun([x], ttl) == TtlAdvance(TtlRun([], ttl), x, ttl);
    assert TtlRun([x, y], ttl) == TtlAdvance(TtlRun([x], ttl), y, ttl);
  }

  lemma SendAndFail(items: seq<Item>, ttl: int, c: Cluster)
    requires c.pos == 1 < |items| && |c.buffer| == 1 && c.sent == {} && c.repeated == 0
    requires |TtlStep(c.live, Timed(items[1], 0), ttl).1.late| == 1
    ensures Act(items, ttl, Act(items, ttl, Act(items, ttl, c, Process(0)), Flush(1, {}, {}, true)), Fail).repeated == 1
  {
    var o := TtlStep(c.live, Timed(items[1], 0), ttl).1;
    FirstNotSent(c.buffer);
    MessagesAppend(c.buffer, o, {1}, true);
    hide TtlStep, Messages, Restrict;
  }

  lemma KeepsRepeated(items: seq<Item>, ttl: int, c: Cluster, a: Action)
    requires a.Process? || a.Checkpoint?
    ensures Act(items, ttl, c, a).repeated == c.repeated
  {
    hide TtlStep, Recovery.Complete, RowsOf;
  }

  lemma FirstRead(items: seq<Item>, ttl: int)
    requires |items| > 0
    ensures var c := Act(items, ttl, START, Process(0)); c.pos == 1 && |c.buffer| == 1 && c.sent == {} && c.repeated == 0
  {
    hide TtlStep;
  }

  lemma RepeatedOnce(r: Record, t: int, ttl: int)
    requires AllEvents(r).Some? && Closed(Some(t), MinuteOf(r.eventTime))
    ensures Exec([Mark(t), Arrive(r)], ttl, SentTwice()).repeated == 1
  {
    var items, a := [Mark(t), Arrive(r)], SentTwice();
    assert a[..7] == a && a[..0] == [] && Exec(items, ttl, a[..0]) == START;
    assert items[1] == Arrive(r);
    hide *;
    OneLateRow(r, t, ttl);
    SentTwiceReads(r, t);
    AtReads(items, ttl, a[..1]);
    ExecStep(items, ttl, a, 0);
    ExecStep(items, ttl, a, 1);
    ExecStep(items, ttl, a, 2);
    ExecStep(items, ttl, a, 3);
    FirstRead(items, ttl);
    SentTwiceScript();
    SendAndFail(items, ttl, Exec(items, ttl, a[..1]));
    ExecStep(items, ttl, a, 4);
    ExecStep(items, ttl, a, 5);
    ExecStep(items, ttl, a, 6);
    KeepsRepeated(items, ttl, Exec(items, ttl, a[..4]), a[4]);
    KeepsRepeated(items, ttl, Exec(items, ttl, a[..5]), a[5]);
    KeepsRepeated(items, ttl, Exec(items, ttl, a[..6]), a[6]);
  }

  lemma SentTwiceScript()
    ensures var a := SentTwice();
            && |a| == 7 && a[0] == a[1] == a[4] == a[5] == Process(0) && a[2] == Flush(1, {}, {}, true) && a[3] == Fail && a[6] == Checkpoint
  {
  }

  lemma FirstNotSent(os: seq<Output>)
    requires |os| == 1
    ensures Messages(os, {1}, true) == 0
  {
    assert os[..0] == [];
  }

  /** The counter exceeds the table: a late message that reached the broker before a crash is sent again. */
  lemma LateTotalOvercounts(r: Record, t: int, ttl: int)
    requires AllEvents(r).Some? && Closed(Some(t), MinuteOf(r.eventTime))
    ensures var c := Exec([Mark(t), Arrive(r)], ttl, SentTwice());
            c.savedPos == 2 && |c.sinks.late| == 1 && c.sinks.lateTotal == 2 && c.repeated == 1
  {
    var items, a := [Mark(t), Arrive(r)], SentTwice();
    var xs := [Timed(Mark(t), 0), Timed(Arrive(r), 0)];
    hide Exec, Surviving, AllEvents, Closed, MinuteOf, TtlRun;
    SentTwiceReads(r, t);
    OneLateRow(r, t, ttl);
    RepeatedOnce(r, t, ttl);
    EndsWith(items, ttl, a, xs);
    Recovered(items, ttl, a);
  }
}
