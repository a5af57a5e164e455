/** Checkpoints and crashes of the streaming job. A checkpoint saves the job's state and its read
    position and makes every earlier write durable; a crash returns to it and reads on from there,
    while any part of the later writes may or may not have reached the sinks. Each read has a
    processing time of its own, so a read repeated after a crash may find an id expired. */
module Recovery {
  import opened Events
  import opened Realtime
  import opened Ttl
  import opened Expiry

  /** Flush(i, agg, rows, message): of buffered output i, these keys of `agg.minute`, these rows of
      `late_dropped` and, if `message`, its message of `late.events` reach their sinks, possibly not
      for the first time: the three sinks are at-least-once and independent. */
  datatype Action =
    | Process(now: int)
    | Flush(i: nat, agg: set<Window>, rows: set<string>, message: bool)
    | Checkpoint
    | Fail

  /** `buffer` holds the outputs produced since the last checkpoint, `sent` those of them whose message
      is in `late.events` already. The last three fields are not in the program: the late rows written
      of the buffer so far; the rows still standing that were written of reads a crash took back; and
      the late messages that were sent once more than their row needs. */
  datatype Cluster = Cluster(
    live: TtlJob, pos: nat, saved: TtlJob, savedPos: nat, sinks: Sinks, buffer: seq<Output>, sent: set<nat>,
    flushed: map<string, LateRow>, stale: map<string, LateRow>, repeated: nat)

  const NEW := TtlJob(map[], FRESH.windows)

  const START := Cluster(NEW, 0, NEW, 0, EMPTY, [], {}, map[], map[], 0)

  function Restrict<K, V>(m: map<K, V>, keys: set<K>): map<K, V>
  {
    map k | k in m && k in keys :: m[k]
  }

  function DeliverAll(s: Sinks, os: seq<Output>): Sinks
  {
    if os == [] then s else Deliver(DeliverAll(s, os[..|os| - 1]), os[|os| - 1])
  }

  /** The late messages of the outputs that are (or are not) among the chosen ones. */
  function Messages(os: seq<Output>, chosen: set<nat>, among: bool): nat
  {
    if os == [] then 0
    else
      var n := |os| - 1;
      Messages(os[..n], chosen, among) + if (n in chosen) == among then |os[n].late| else 0
  }

  /** The late rows of a buffer, the last of each id. */
  function RowsOf(os: seq<Output>): map<string, LateRow>
  {
    if os == [] then map[] else RowsOf(os[..|os| - 1]) + os[|os| - 1].late
  }

  /** Some of an output's writes reach the sinks. */
  function Part(s: Sinks, o: Output, agg: set<Window>, rows: set<string>, message: bool): Sinks
  {
    Sinks(s.agg + Restrict(o.agg, agg), s.late + Restrict(o.late, rows), s.lateTotal + if message then |o.late| else 0)
  }

  /** Before a checkpoint completes, every write still missing is made. */
  function Complete(s: Sinks, os: seq<Output>, sent: set<nat>): Sinks
  {
    DeliverAll(s, os).(lateTotal := s.lateTotal + Messages(os, sent, false))
  }

  function Act(items: seq<Item>, ttl: int, c: Cluster, a: Action): Cluster
  {
    match a
    case Process(now) =>
      if c.pos >= |items| then c
      else
        var (j, o) := TtlStep(c.live, Timed(items[c.pos], now), ttl);
        c.(live := j, pos := c.pos + 1, buffer := c.buffer + [o])
    case Flush(i, agg, rows, message) =>
      if i >= |c.buffer| then c
      else
        var o := c.buffer[i];
        c.(sinks := Part(c.sinks, o, agg, rows, message),
           sent := if message then c.sent + {i} else c.sent,
           flushed := c.flushed + Restrict(o.late, rows),
           repeated := c.repeated + if message && i in c.sent then |o.late| else 0)
    case Checkpoint =>
      c.(saved := c.live, savedPos := c.pos, sinks := Complete(c.sinks, c.buffer, c.sent), buffer := [], sent := {},
         flushed := map[], stale := c.stale - RowsOf(c.buffer).Keys)
    case Fail =>
      c.(live := c.saved, pos := c.savedPos, buffer := [], sent := {},
         flushed := map[], stale := c.stale + c.flushed,
         repeated := c.repeated + Messages(c.buffer, c.sent, true))
  }

  function Exec(items: seq<Item>, ttl: int, actions: seq<Action>): Cluster
  {
    if actions == [] then START
    else Act(items, ttl, Exec(items, ttl, actions[..|actions| - 1]), actions[|actions| - 1])
  }

  /** A flush makes exactly the writes it names: the chosen minute rows and late rows of the output are in the
      sinks as the job made them, every other row is as before, and the counter goes by the message alone. */
  lemma FlushWrites(items: seq<Item>, ttl: int, c: Cluster, i: nat, agg: set<Window>, rows: set<string>, message: bool)
    requires i < |c.buffer|
    ensures var s, s', o := c.sinks, Act(items, ttl, c, Flush(i, agg, rows, message)).sinks, c.buffer[i];
            && (forall k :: k in agg && k in o.agg ==> k in s'.agg && s'.agg[k] == o.agg[k])
            && (forall k :: !(k in agg && k in o.agg) ==> (k in s'.agg <==> k in s.agg) && (k in s.agg ==> s'.agg[k] == s.agg[k]))
            && (forall id :: id in rows && id in o.late ==> id in s'.late && s'.late[id] == o.late[id])
            && (forall id :: !(id in rows && id in o.late) ==> (id in s'.late <==> id in s.late) && (id in s.late ==> s'.late[id] == s.late[id]))
            && s'.lateTotal == s.lateTotal + if message then |o.late| else 0
  {
  }

  // ---------------------------------------------------------------- the reads that survive

  /** The timed reads that no crash took back so far, and those of them before the last checkpoint. */
  datatype Reads = Reads(all: seq<Timed>, saved: seq<Timed>)

  function Keep(items: seq<Item>, r: Reads, a: Action): Reads
  {
    match a
    case Process(now) => if |r.all| >= |items| then r else r.(all := r.all + [Timed(items[|r.all|], now)])
    case Flush(_, _, _, _) => r
    case Checkpoint => r.(saved := r.all)
    case Fail => r.(all := r.saved)
  }

  /** It takes the script of the run only: neither the TTL nor what the job did. */
  function Surviving(items: seq<Item>, actions: seq<Action>): Reads
  {
    if actions == [] then Reads([], [])
    else Keep(items, Surviving(items, actions[..|actions| - 1]), actions[|actions| - 1])
  }

  /** From any run the job can get through with its input: read what is left, then save. */
  lemma {:induction false} CanCover(items: seq<Item>, ttl: int, actions: seq<Action>, now: int) returns (more: seq<Action>)
    requires Exec(items, ttl, actions).pos <= |items|
    ensures Exec(items, ttl, actions + more).savedPos == |items|
    decreases |items| - Exec(items, ttl, actions).pos
  {
    hide TtlStep, Complete, RowsOf, Messages;
    var next := if Exec(items, ttl, actions).pos == |items| then Checkpoint else Process(now);
    assert (actions + [next])[..|actions|] == actions;
    if next == Checkpoint {
      more := [next];
    } else {
      var rest := CanCover(items, ttl, actions + [next], now);
      more := [next] + rest;
      assert actions + more == actions + [next] + rest;
    }
  }

  // ---------------------------------------------------------------- invariant

  /** The counter holds the messages of the run up to the checkpoint, those sent since, and repeats. */
  ghost predicate Numbered(ttl: int, c: Cluster, r: Reads)
  {
    && (forall i :: i in c.sent ==> i < |c.buffer|)
    && c.sinks.lateTotal == TtlRun(r.saved, ttl).sinks.lateTotal + Messages(c.buffer, c.sent, true) + c.repeated
  }

  /** Minute rows up to the checkpoint stand, and the buffer holds no window of theirs. */
  ghost predicate Standing(ttl: int, c: Cluster, r: Reads)
  {
    && Extends(TtlRun(r.saved, ttl).sinks.agg, c.sinks.agg)
    && (forall o :: o in c.buffer ==> o.agg.Keys !! TtlRun(r.saved, ttl).sinks.agg.Keys)
  }

  /** Late rows up to the checkpoint, overwritten by rows of reads taken back, then by the buffer's. */
  ghost predicate Layered(ttl: int, c: Cluster, r: Reads)
  {
    && c.sinks.late == TtlRun(r.saved, ttl).sinks.late + c.stale + c.flushed
    && c.flushed.Keys <= RowsOf(c.buffer).Keys
  }

  /** The positions are those of the surviving reads. */
  ghost predicate Placed(items: seq<Item>, c: Cluster, r: Reads)
  {
    && c.savedPos == |r.saved| && c.pos == |r.all| == c.savedPos + |c.buffer| <= |items|
    && r.saved <= r.all && Items(r.all) == items[..c.pos]
  }

  /** The job is where the surviving reads lead. */
  ghost predicate Follows(items: seq<Item>, ttl: int, c: Cluster, r: Reads)
  {
    && Placed(items, c, r)
    && c.live == TtlRun(r.all, ttl).job && c.saved == TtlRun(r.saved, ttl).job
    && DeliverAll(TtlRun(r.saved, ttl).sinks, c.buffer) == TtlRun(r.all, ttl).sinks
  }

  ghost predicate Inv(items: seq<Item>, ttl: int, c: Cluster, r: Reads)
  {
    Follows(items, ttl, c, r) && Standing(ttl, c, r) && Layered(ttl, c, r) && Numbered(ttl, c, r)
  }

  // ---------------------------------------------------------------- messages and rows

  lemma MessagesAppend(os: seq<Output>, o: Output, chosen: set<nat>, among: bool)
    ensures Messages(os + [o], chosen, among) ==
            Messages(os, chosen, among) + if (|os| in chosen) == among then |o.late| else 0
  {
    assert (os + [o])[..|os|] == os;
  }

  /** Choosing one more output moves its messages from one side to the other. */
  lemma {:induction false} MessagesChoose(os: seq<Output>, chosen: set<nat>, i: nat)
    requires i < |os|
    ensures Messages(os, chosen + {i}, true) == Messages(os, chosen, true) + if i in chosen then 0 else |os[i].late|
  {
    var n := |os| - 1;
    if i < n {
      MessagesChoose(os[..n], chosen, i);
    } else {
      MessagesBeyond(os[..n], chosen, i);
    }
  }

  lemma {:induction false} MessagesBeyond(os: seq<Output>, chosen: set<nat>, i: nat)
    requires i >= |os|
    ensures Messages(os, chosen + {i}, true) == Messages(os, chosen, true)
  {
    if os != [] { MessagesBeyond(os[..|os| - 1], chosen, i); }
  }

  lemma {:induction false} MessagesSplit(s: Sinks, os: seq<Output>, chosen: set<nat>)
    ensures DeliverAll(s, os).lateTotal == s.lateTotal + Messages(os, chosen, true) + Messages(os, chosen, false)
  {
    if os != [] { MessagesSplit(s, os[..|os| - 1], chosen); }
  }

  lemma RowsAppend(os: seq<Output>, o: Output)
    ensures RowsOf(os + [o]) == RowsOf(os) + o.late
  {
    assert (os + [o])[..|os|] == os;
  }

  lemma {:induction false} RowsHas(os: seq<Output>, i: nat)
    requires i < |os|
    ensures os[i].late.Keys <= RowsOf(os).Keys
  {
    var n := |os| - 1;
    if i < n { RowsHas(os[..n], i); }
  }

  lemma MergeThree<K, V>(a: map<K, V>, b: map<K, V>, c: map<K, V>)
    ensures (a + b) + c == a + (b + c)
  {
  }

  lemma {:induction false} DeliverLateRows(s: Sinks, os: seq<Output>)
    ensures DeliverAll(s, os).late == s.late + RowsOf(os)
  {
    if os == [] {
      MergeNone(s.late);
    } else {
      var n := |os| - 1;
      DeliverLateRows(s, os[..n]);
      MergeThree(s.late, RowsOf(os[..n]), os[n].late);
    }
  }

  /** What is delivered on top of more is on top of it. */
  lemma {:induction false} DeliverExtends(s: Sinks, big: Sinks, os: seq<Output>)
    requires Extends(s.agg, big.agg)
    ensures Extends(DeliverAll(s, os).agg, DeliverAll(big, os).agg)
  {
    if os != [] {
      var n := |os| - 1;
      DeliverExtends(s, big, os[..n]);
      MergeOver(DeliverAll(s, os[..n]).agg, DeliverAll(big, os[..n]).agg, os[n].agg);
    }
  }

  lemma MergeOver<K, V>(m: map<K, V>, big: map<K, V>, n: map<K, V>)
    requires Extends(m, big)
    ensures Extends(m + n, big + n)
  {
  }

  // ---------------------------------------------------------------- what is emitted is new

  /** Open windows are not closed, emitted ones are. */
  lemma {:induction false} EmittedIsClosed(xs: seq<Timed>, ttl: int)
    ensures var w := TtlRun(xs, ttl);
            && (forall k :: k in w.job.windows.open ==> !Closed(w.job.windows.wm, k.start))
            && (forall k :: k in w.sinks.agg ==> Closed(w.job.windows.wm, k.start))
  {
    if xs != [] {
      var n := |xs| - 1;
      EmittedIsClosed(xs[..n], ttl);
      var w, x := TtlRun(xs[..n], ttl), xs[n];
      assert TtlRun(xs, ttl) == TtlAdvance(w, x, ttl);
      hide TtlRun;
      StepEmitsClosed(w, x, ttl);
    }
  }

  lemma StepEmitsClosed(w: TtlWorld, x: Timed, ttl: int)
    requires forall k :: k in w.job.windows.open ==> !Closed(w.job.windows.wm, k.start)
    requires forall k :: k in w.sinks.agg ==> Closed(w.job.windows.wm, k.start)
    ensures var w' := TtlAdvance(w, x, ttl);
            && (forall k :: k in w'.job.windows.open ==> !Closed(w'.job.windows.wm, k.start))
            && (forall k :: k in w'.sinks.agg ==> Closed(w'.job.windows.wm, k.start))
            && (forall k :: k in TtlStep(w.job, x, ttl).1.agg ==> k in w.job.windows.open)
  {
    if x.it.Mark? {
      MarkEmitsClosed(w, x, ttl);
    } else if Admits(w.job.seen, x, ttl) {
      var ev := AllEvents(x.it.r).value;
      hide AllEvents, MinuteOf, Deliver, Bump, Closed, Admits, Admit;
      TtlAdmission(w, x, ttl);
      AdmitWrites(w.job.windows, w.sinks, ev);
      AdmitEmitsNothing(w.job.windows, ev);
    } else {
      NotAdmitted(w, x, ttl);
      hide AllEvents;
    }
  }

  lemma AdmitEmitsNothing(w: Windows, ev: Event)
    ensures Admit(w, ev).1.agg == map[]
  {
    hide MinuteOf;
  }

  lemma MarkEmitsClosed(w: TtlWorld, x: Timed, ttl: int)
    requires x.it.Mark?
    requires forall k :: k in w.job.windows.open ==> !Closed(w.job.windows.wm, k.start)
    requires forall k :: k in w.sinks.agg ==> Closed(w.job.windows.wm, k.start)
    ensures var w' := TtlAdvance(w, x, ttl);
            && (forall k :: k in w'.job.windows.open ==> !Closed(w'.job.windows.wm, k.start))
            && (forall k :: k in w'.sinks.agg ==> Closed(w'.job.windows.wm, k.start))
            && (forall k :: k in TtlStep(w.job, x, ttl).1.agg ==> k in w.job.windows.open)
  {
    DeliverAgg(w.sinks, TtlStep(w.job, x, ttl).1.agg);
    hide Deliver;
  }

  /** A later read emits no window that was emitted before. */
  lemma ReadIsFresh(xs: seq<Timed>, ttl: int, n: nat, x: Timed)
    requires n <= |xs|
    ensures TtlStep(TtlRun(xs, ttl).job, x, ttl).1.agg.Keys !! TtlRun(xs[..n], ttl).sinks.agg.Keys
  {
    EmittedIsClosed(xs, ttl);
    EmittedIsClosed(xs[..n], ttl);
    TtlWatermark(xs, ttl);
    TtlWatermark(xs[..n], ttl);
    ItemsPrefix(xs, n);
    StepEmitsClosed(TtlRun(xs, ttl), x, ttl);
    var before, after := TtlRun(xs[..n], ttl), TtlRun(xs, ttl);
    assert Items(xs)[..|xs|] == Items(xs);
    hide TtlRun, TtlStep, WatermarkOf, Closed;
    forall k | k in before.sinks.agg
      ensures k !in after.job.windows.open
    {
      ClosedForever(Items(xs), n, |xs|, k.start);
    }
  }

  // ---------------------------------------------------------------- every action keeps it

  lemma ProcessPlaced(items: seq<Item>, ttl: int, c: Cluster, r: Reads, now: int)
    requires Placed(items, c, r) && c.pos < |items|
    ensures Placed(items, Act(items, ttl, c, Process(now)), Keep(items, r, Process(now)))
  {
    hide TtlStep;
    var x := Timed(items[c.pos], now);
    ItemsAppend(r.all, x);
    assert items[..c.pos] + [items[c.pos]] == items[..c.pos + 1];
    hide Items;
  }

  lemma ProcessFollows(items: seq<Item>, ttl: int, c: Cluster, r: Reads, now: int)
    requires Follows(items, ttl, c, r) && c.pos < |items|
    ensures Follows(items, ttl, Act(items, ttl, c, Process(now)), Keep(items, r, Process(now)))
  {
    assert |r.all| == c.pos;
    ProcessPlaced(items, ttl, c, r, now);
    var x := Timed(items[c.pos], now);
    hide Placed, TtlStep, Deliver;
    TtlRunAppend(r.all, x, ttl);
    DeliverAppend(TtlRun(r.saved, ttl).sinks, c.buffer, TtlStep(c.live, x, ttl).1);
    hide TtlRun, DeliverAll;
  }

  lemma TtlRunAppend(xs: seq<Timed>, x: Timed, ttl: int)
    ensures TtlRun(xs + [x], ttl) == TtlAdvance(TtlRun(xs, ttl), x, ttl)
  {
    assert (xs + [x])[..|xs|] == xs;
    hide TtlAdvance;
  }

  lemma DeliverAppend(s: Sinks, os: seq<Output>, o: Output)
    ensures DeliverAll(s, os + [o]) == Deliver(DeliverAll(s, os), o)
  {
    assert (os + [o])[..|os|] == os;
    hide Deliver;
  }

  lemma ProcessStands(items: seq<Item>, ttl: int, c: Cluster, r: Reads, now: int)
    requires Follows(items, ttl, c, r) && Standing(ttl, c, r) && c.pos < |items|
    ensures Standing(ttl, Act(items, ttl, c, Process(now)), Keep(items, r, Process(now)))
  {
    hide TtlRun, TtlStep, Extends, Items, DeliverAll;
    assert r.all[..|r.saved|] == r.saved && c.pos == |r.all| && c.live == TtlRun(r.all, ttl).job;
    hide Follows;
    ReadIsFresh(r.all, ttl, |r.saved|, Timed(items[c.pos], now));
  }

  lemma ProcessLayers(items: seq<Item>, ttl: int, c: Cluster, r: Reads, now: int)
    requires Layered(ttl, c, r) && c.pos < |items| && c.pos == |r.all|
    ensures Layered(ttl, Act(items, ttl, c, Process(now)), Keep(items, r, Process(now)))
  {
    RowsAppend(c.buffer, TtlStep(c.live, Timed(items[c.pos], now), ttl).1);
    hide TtlRun, TtlStep, RowsOf;
  }

  lemma ProcessNumbers(items: seq<Item>, ttl: int, c: Cluster, r: Reads, now: int)
    requires Numbered(ttl, c, r) && c.pos < |items| && c.pos == |r.all|
    ensures Numbered(ttl, Act(items, ttl, c, Process(now)), Keep(items, r, Process(now)))
  {
    MessagesAppend(c.buffer, TtlStep(c.live, Timed(items[c.pos], now), ttl).1, c.sent, true);
    hide TtlRun, TtlStep, Messages;
  }

  lemma ProcessKeepsInv(items: seq<Item>, ttl: int, c: Cluster, r: Reads, now: int)
    requires Inv(items, ttl, c, r) && c.pos < |items|
    ensures Inv(items, ttl, Act(items, ttl, c, Process(now)), Keep(items, r, Process(now)))
  {
    assert c.pos == |r.all|;
    hide Follows, Standing, Layered, Numbered, Act, Keep;
    ProcessFollows(items, ttl, c, r, now);
    ProcessStands(items, ttl, c, r, now);
    ProcessLayers(items, ttl, c, r, now);
    ProcessNumbers(items, ttl, c, r, now);
  }

  lemma ItemsAppend(xs: seq<Timed>, x: Timed)
    ensures Items(xs + [x]) == Items(xs) + [x.it]
  {
  }

  lemma ExtendsBeside<K, V>(m: map<K, V>, big: map<K, V>, n: map<K, V>, keys: set<K>)
    requires Extends(m, big) && n.Keys !! m.Keys
    ensures Extends(m, big + Restrict(n, keys))
  {
  }

  lemma FlushStands(items: seq<Item>, ttl: int, c: Cluster, r: Reads, i: nat, agg: set<Window>, rows: set<string>, message: bool)
    requires Standing(ttl, c, r) && i < |c.buffer|
    ensures Standing(ttl, Act(items, ttl, c, Flush(i, agg, rows, message)), r)
  {
    assert c.buffer[i] in c.buffer;
    hide TtlRun, Extends, Restrict;
    ExtendsBeside(TtlRun(r.saved, ttl).sinks.agg, c.sinks.agg, c.buffer[i].agg, agg);
  }

  lemma FlushLayers(items: seq<Item>, ttl: int, c: Cluster, r: Reads, i: nat, agg: set<Window>, rows: set<string>, message: bool)
    requires Layered(ttl, c, r) && i < |c.buffer|
    ensures Layered(ttl, Act(items, ttl, c, Flush(i, agg, rows, message)), r)
  {
    var o := c.buffer[i];
    RowsHas(c.buffer, i);
    assert Restrict(o.late, rows).Keys <= o.late.Keys;
    hide TtlRun, RowsOf, Restrict;
    MergeThree(TtlRun(r.saved, ttl).sinks.late + c.stale, c.flushed, Restrict(o.late, rows));
  }

  lemma FlushNumbers(items: seq<Item>, ttl: int, c: Cluster, r: Reads, i: nat, agg: set<Window>, rows: set<string>, message: bool)
    requires Numbered(ttl, c, r) && i < |c.buffer|
    ensures Numbered(ttl, Act(items, ttl, c, Flush(i, agg, rows, message)), r)
  {
    MessagesChoose(c.buffer, c.sent, i);
    hide TtlRun, Messages, Restrict;
  }

  lemma FlushFollows(items: seq<Item>, ttl: int, c: Cluster, r: Reads, i: nat, agg: set<Window>, rows: set<string>, message: bool)
    requires Follows(items, ttl, c, r)
    ensures Follows(items, ttl, Act(items, ttl, c, Flush(i, agg, rows, message)), r)
  {
    hide TtlRun, Part, Restrict, DeliverAll, Items;
  }

  lemma FlushKeepsInv(items: seq<Item>, ttl: int, c: Cluster, r: Reads, i: nat, agg: set<Window>, rows: set<string>, message: bool)
    requires Inv(items, ttl, c, r) && i < |c.buffer|
    ensures Inv(items, ttl, Act(items, ttl, c, Flush(i, agg, rows, message)), r)
  {
    hide Follows, Standing, Layered, Numbered, Act;
    FlushFollows(items, ttl, c, r, i, agg, rows, message);
    FlushStands(items, ttl, c, r, i, agg, rows, message);
    FlushLayers(items, ttl, c, r, i, agg, rows, message);
    FlushNumbers(items, ttl, c, r, i, agg, rows, message);
  }

  lemma CheckpointFollows(items: seq<Item>, ttl: int, c: Cluster, r: Reads)
    requires Follows(items, ttl, c, r)
    ensures Follows(items, ttl, Act(items, ttl, c, Checkpoint), Keep(items, r, Checkpoint))
  {
    DeliverNothing(TtlRun(r.all, ttl).sinks);
    hide TtlRun, DeliverAll, Complete, Items, RowsOf;
  }

  lemma DeliverNothing(s: Sinks)
    ensures DeliverAll(s, []) == s
  {
  }

  lemma CheckpointStands(items: seq<Item>, ttl: int, c: Cluster, r: Reads)
    requires Follows(items, ttl, c, r) && Standing(ttl, c, r)
    ensures Standing(ttl, Act(items, ttl, c, Checkpoint), Keep(items, r, Checkpoint))
  {
    DeliverExtends(TtlRun(r.saved, ttl).sinks, c.sinks, c.buffer);
    hide TtlRun, DeliverAll, Extends, Messages, Items, RowsOf;
  }

  /** Rows of a base, of reads taken back and of the buffer: the buffer's are on top of all. */
  lemma Restack<K, V>(base: map<K, V>, stale: map<K, V>, flushed: map<K, V>, rows: map<K, V>)
    requires flushed.Keys <= rows.Keys
    ensures base + stale + flushed + rows == base + rows + (stale - rows.Keys)
  {
  }

  lemma CheckpointLayers(items: seq<Item>, ttl: int, c: Cluster, r: Reads)
    requires Follows(items, ttl, c, r) && Layered(ttl, c, r)
    ensures Layered(ttl, Act(items, ttl, c, Checkpoint), Keep(items, r, Checkpoint))
  {
    var base, rows := TtlRun(r.saved, ttl).sinks, RowsOf(c.buffer);
    DeliverLateRows(c.sinks, c.buffer);
    DeliverLateRows(base, c.buffer);
    Restack(base.late, c.stale, c.flushed, rows);
    MergeNone(TtlRun(r.all, ttl).sinks.late + (c.stale - rows.Keys));
    hide TtlRun, DeliverAll, RowsOf, Messages, Items;
  }

  lemma CheckpointNumbers(items: seq<Item>, ttl: int, c: Cluster, r: Reads)
    requires Follows(items, ttl, c, r) && Numbered(ttl, c, r)
    ensures Numbered(ttl, Act(items, ttl, c, Checkpoint), Keep(items, r, Checkpoint))
  {
    MessagesSplit(TtlRun(r.saved, ttl).sinks, c.buffer, c.sent);
    assert Messages([], {}, true) == 0;
    hide TtlRun, DeliverAll, Messages, Items, RowsOf;
  }

  lemma CheckpointKeepsInv(items: seq<Item>, ttl: int, c: Cluster, r: Reads)
    requires Inv(items, ttl, c, r)
    ensures Inv(items, ttl, Act(items, ttl, c, Checkpoint), Keep(items, r, Checkpoint))
  {
    hide Follows, Standing, Layered, Numbered, Act, Keep;
    CheckpointFollows(items, ttl, c, r);
    CheckpointStands(items, ttl, c, r);
    CheckpointLayers(items, ttl, c, r);
    CheckpointNumbers(items, ttl, c, r);
  }

  lemma FailFollows(items: seq<Item>, ttl: int, c: Cluster, r: Reads)
    requires Follows(items, ttl, c, r)
    ensures Follows(items, ttl, Act(items, ttl, c, Fail), Keep(items, r, Fail))
  {
    FailPlaced(items, ttl, c, r);
    FailFields(items, ttl, c, r);
    assert DeliverAll(TtlRun(r.saved, ttl).sinks, []) == TtlRun(r.saved, ttl).sinks;
    hide TtlRun, DeliverAll, Act, Keep, Placed;
  }

  lemma FailFields(items: seq<Item>, ttl: int, c: Cluster, r: Reads)
    ensures var c' := Act(items, ttl, c, Fail);
            c'.live == c'.saved == c.saved && c'.buffer == [] && Keep(items, r, Fail) == Reads(r.saved, r.saved)
  {
    hide Messages;
  }

  lemma FailPlaced(items: seq<Item>, ttl: int, c: Cluster, r: Reads)
    requires Placed(items, c, r)
    ensures Placed(items, Act(items, ttl, c, Fail), Keep(items, r, Fail))
  {
    ItemsPrefix(r.all, |r.saved|);
    assert r.all[..|r.saved|] == r.saved;
    assert items[..c.pos][..c.savedPos] == items[..c.savedPos];
    hide Messages, Items;
  }

  lemma FailLayers(items: seq<Item>, ttl: int, c: Cluster, r: Reads)
    requires Layered(ttl, c, r)
    ensures Layered(ttl, Act(items, ttl, c, Fail), Keep(items, r, Fail))
  {
    var base := TtlRun(r.saved, ttl).sinks.late;
    MergeThree(base, c.stale, c.flushed);
    MergeNone(base + (c.stale + c.flushed));
    hide TtlRun, Messages;
  }

  lemma FailStands(items: seq<Item>, ttl: int, c: Cluster, r: Reads)
    requires Standing(ttl, c, r)
    ensures Standing(ttl, Act(items, ttl, c, Fail), Keep(items, r, Fail))
  {
    hide TtlRun, Extends, Messages;
  }

  lemma FailNumbers(items: seq<Item>, ttl: int, c: Cluster, r: Reads)
    requires Numbered(ttl, c, r)
    ensures Numbered(ttl, Act(items, ttl, c, Fail), Keep(items, r, Fail))
  {
    assert Messages([], {}, true) == 0;
    hide TtlRun, Messages;
  }

  lemma FailKeepsInv(items: seq<Item>, ttl: int, c: Cluster, r: Reads)
    requires Inv(items, ttl, c, r)
    ensures Inv(items, ttl, Act(items, ttl, c, Fail), Keep(items, r, Fail))
  {
    hide Follows, Standing, Layered, Numbered, Act, Keep;
    FailFollows(items, ttl, c, r);
    FailStands(items, ttl, c, r);
    FailLayers(items, ttl, c, r);
    FailNumbers(items, ttl, c, r);
  }

  lemma ActKeepsInv(items: seq<Item>, ttl: int, c: Cluster, r: Reads, a: Action)
    requires Inv(items, ttl, c, r)
    ensures Inv(items, ttl, Act(items, ttl, c, a), Keep(items, r, a))
  {
    hide Standing, Layered, Numbered;
    match a
    case Process(now) =>
      if c.pos < |items| { ProcessKeepsInv(items, ttl, c, r, now); }
    case Flush(i, agg, rows, message) =>
      if i < |c.buffer| { FlushKeepsInv(items, ttl, c, r, i, agg, rows, message); }
    case Checkpoint => CheckpointKeepsInv(items, ttl, c, r);
    case Fail => FailKeepsInv(items, ttl, c, r);
  }

  /** Every run of timed reads, partial writes, checkpoints and crashes. */
  lemma {:induction false} Reachable(items: seq<Item>, ttl: int, actions: seq<Action>)
    ensures Inv(items, ttl, Exec(items, ttl, actions), Surviving(items, actions))
  {
    if actions == [] {
      assert Items([]) == [] && items[..0] == [];
      assert DeliverAll(EMPTY, []) == EMPTY;
    } else {
      hide Inv, Act, Keep;
      var n := |actions| - 1;
      Reachable(items, ttl, actions[..n]);
      ActKeepsInv(items, ttl, Exec(items, ttl, actions[..n]), Surviving(items, actions[..n]), actions[n]);
    }
  }

  // ---------------------------------------------------------------- main results, for every run

  /** At every moment: the minute rows up to the last checkpoint are those of the surviving reads; and so
      are the late rows, but for those written since and those written of reads that a crash took back. */
  lemma CheckpointHolds(items: seq<Item>, ttl: int, actions: seq<Action>)
    ensures var c, xs := Exec(items, ttl, actions), Surviving(items, actions).saved;
            && c.savedPos == |xs| <= |items| && Items(xs) == items[..c.savedPos] && c.saved == TtlRun(xs, ttl).job
            && Extends(TtlRun(xs, ttl).sinks.agg, c.sinks.agg)
            && c.sinks.late == TtlRun(xs, ttl).sinks.late + c.stale + c.flushed
  {
    Reachable(items, ttl, actions);
    var c, r := Exec(items, ttl, actions), Surviving(items, actions);
    hide Exec, Surviving, TtlRun, DeliverAll, Messages, Extends, RowsOf;
    ItemsPrefix(r.all, |r.saved|);
    assert r.all[..|r.saved|] == r.saved && items[..c.pos][..c.savedPos] == items[..c.savedPos];
  }

  /** Once a checkpoint covers the input, whatever crashed: the late rows are those of a run without a
      crash that makes the surviving reads, overwritten by rows of reads taken back that still stand; they
      are that run's exactly when every such row is one of its rows. The counter is that run's plus the
      messages sent again. Its minute rows are all there. */
  lemma Recovered(items: seq<Item>, ttl: int, actions: seq<Action>)
    requires Exec(items, ttl, actions).savedPos == |items|
    ensures var c, xs := Exec(items, ttl, actions), Surviving(items, actions).saved; var run := TtlRun(xs, ttl).sinks;
            && Items(xs) == items
            && Extends(run.agg, c.sinks.agg)
            && c.sinks.late == run.late + c.stale
            && (c.sinks.late == run.late <==> Extends(c.stale, run.late))
            && c.sinks.lateTotal == run.lateTotal + c.repeated
  {
    Reachable(items, ttl, actions);
    var c, r := Exec(items, ttl, actions), Surviving(items, actions);
    assert c.buffer == [] && c.sent == {} && r.all == r.saved by {
      hide Exec, Surviving, TtlRun, Messages, RowsOf, Standing, Layered, Numbered, Items, DeliverAll;
      assert r.saved <= r.all && |r.saved| == |r.all|;
      NothingSent(ttl, c, r);
    }
    assert items[..|items|] == items;
    assert RowsOf([]) == map[] && Messages([], {}, true) == 0;
    hide Exec, Surviving, TtlRun, DeliverAll, Messages, RowsOf;
    assert c.flushed == map[];
    MergeNone(TtlRun(r.saved, ttl).sinks.late + c.stale);
    OverwrittenSame(TtlRun(r.saved, ttl).sinks.late, c.stale);
  }

  lemma NothingSent(ttl: int, c: Cluster, r: Reads)
    requires Numbered(ttl, c, r) && c.buffer == []
    ensures c.sent == {}
  {
  }

  lemma OverwrittenSame<K, V>(m: map<K, V>, over: map<K, V>)
    ensures m + over == m <==> Extends(over, m)
  {
    if Extends(over, m) {
      assert (m + over).Keys == m.Keys;
    }
    if m + over == m {
      forall k | k in over
        ensures k in m && m[k] == over[k]
      {
        assert (m + over)[k] == over[k];
      }
    }
  }

  // ---------------------------------------------------------------- minute rows

  ghost predicate KeysIn(c: Cluster, keys: set<Window>)
  {
    c.sinks.agg.Keys <= keys && forall o :: o in c.buffer ==> o.agg.Keys <= keys
  }

  lemma {:induction false} DeliverKeys(s: Sinks, os: seq<Output>, keys: set<Window>)
    requires s.agg.Keys <= keys && forall o :: o in os ==> o.agg.Keys <= keys
    ensures DeliverAll(s, os).agg.Keys <= keys
  {
    if os != [] {
      var n := |os| - 1;
      assert os[n] in os;
      DeliverKeys(s, os[..n], keys);
    }
  }

  /** A read emits only windows that the job that never forgets emits as well. */
  lemma ReadKeys(items: seq<Item>, ttl: int, xs: seq<Timed>, now: int)
    requires SameCells(items) && |xs| < |items| && Items(xs) == items[..|xs|]
    ensures TtlStep(TtlRun(xs, ttl).job, Timed(items[|xs|], now), ttl).1.agg.Keys <= Run(items).sinks.agg.Keys
  {
    var n, x := |xs|, Timed(items[|xs|], now);
    ItemsAppend(xs, x);
    assert items[..n] + [items[n]] == items[..n + 1];
    SameCellsUpTo(items, n + 1);
    TtlRunAppend(xs, x, ttl);
    hide SameCells, TtlRun, Items, Run, TtlStep, Closed;
    RunsBeside(xs + [x], ttl, OfTwins);
    WrittenForever(items, n + 1);
  }

  lemma SameCellsUpTo(items: seq<Item>, n: nat)
    requires n <= |items| && SameCells(items)
    ensures SameCells(items[..n])
  {
    hide AllEvents, WindowOf;
    assert forall i: nat, ev :: ArrivesAt(items[..n], i, ev) ==> ArrivesAt(items, i, ev);
  }

  lemma ProcessKeys(items: seq<Item>, ttl: int, c: Cluster, r: Reads, now: int)
    requires SameCells(items) && Follows(items, ttl, c, r) && KeysIn(c, Run(items).sinks.agg.Keys) && c.pos < |items|
    ensures KeysIn(Act(items, ttl, c, Process(now)), Run(items).sinks.agg.Keys)
  {
    assert c.pos == |r.all| && Items(r.all) == items[..c.pos] && c.live == TtlRun(r.all, ttl).job;
    hide Follows, Run, SameCells, TtlRun, TtlStep, Items;
    ReadKeys(items, ttl, r.all, now);
  }

  lemma CheckpointKeys(items: seq<Item>, ttl: int, c: Cluster, keys: set<Window>)
    requires KeysIn(c, keys)
    ensures KeysIn(Act(items, ttl, c, Checkpoint), keys)
  {
    DeliverKeys(c.sinks, c.buffer, keys);
    hide DeliverAll, Messages, RowsOf;
  }

  lemma ActKeys(items: seq<Item>, ttl: int, c: Cluster, r: Reads, a: Action)
    requires SameCells(items) && Follows(items, ttl, c, r) && KeysIn(c, Run(items).sinks.agg.Keys)
    ensures KeysIn(Act(items, ttl, c, a), Run(items).sinks.agg.Keys)
  {
    hide Run, SameCells, Follows;
    match a
    case Process(now) =>
      if c.pos < |items| { ProcessKeys(items, ttl, c, r, now); }
      hide TtlStep, KeysIn;
    case Flush(i, agg, rows, message) => FlushKeys(c, i, agg, rows, message, Run(items).sinks.agg.Keys); hide Part;
    case Checkpoint => CheckpointKeys(items, ttl, c, Run(items).sinks.agg.Keys);
    case Fail => hide Messages;
  }

  lemma {:induction false} KeysWithin(items: seq<Item>, ttl: int, actions: seq<Action>)
    requires SameCells(items)
    ensures KeysIn(Exec(items, ttl, actions), Run(items).sinks.agg.Keys)
  {
    if actions != [] {
      var n := |actions| - 1;
      KeysWithin(items, ttl, actions[..n]);
      Reachable(items, ttl, actions[..n]);
      hide Act, Run, SameCells, KeysIn, Follows, Standing, Layered, Numbered;
      ActKeys(items, ttl, Exec(items, ttl, actions[..n]), Surviving(items, actions[..n]), actions[n]);
    }
  }

  lemma FlushKeys(c: Cluster, i: nat, agg: set<Window>, rows: set<string>, message: bool, keys: set<Window>)
    requires KeysIn(c, keys)
    ensures i < |c.buffer| ==> Part(c.sinks, c.buffer[i], agg, rows, message).agg.Keys <= keys
  {
    if i < |c.buffer| { assert c.buffer[i] in c.buffer; }
  }

  /** Main result. When copies lie in one cell, a covering checkpoint leaves the minute rows of a run
      without a crash that makes the surviving reads: no crash can be seen in them. */
  lemma MinuteRowsSurvive(items: seq<Item>, ttl: int, actions: seq<Action>)
    requires Exec(items, ttl, actions).savedPos == |items| && SameCells(items)
    ensures Exec(items, ttl, actions).sinks.agg == TtlRun(Surviving(items, actions).saved, ttl).sinks.agg
  {
    Recovered(items, ttl, actions);
    KeysWithin(items, ttl, actions);
    var xs := Surviving(items, actions).saved;
    RunsBeside(xs, ttl, OfTwins);
    hide Exec, Surviving, TtlRun, Run, SameCells, More;
    SameMap(TtlRun(xs, ttl).sinks.agg, Exec(items, ttl, actions).sinks.agg);
  }

  lemma SameMap<K, V>(m: map<K, V>, full: map<K, V>)
    requires Extends(m, full) && full.Keys <= m.Keys
    ensures m == full
  {
    assert m.Keys == full.Keys;
  }

  /** Main result. With every window fired, they are those of the job that never forgets, if and only if
      no surviving read counted an id again; for clocks that do not run backwards, if and only if minutes
      close within the TTL of the first surviving read of each of their ids that comes again. */
  lemma MinuteRowsExactlyWhen(items: seq<Item>, ttl: int, actions: seq<Action>)
    requires Exec(items, ttl, actions).savedPos == |items| && SameCells(items) && Run(items).job.windows.open == map[]
    ensures var agg, xs := Exec(items, ttl, actions).sinks.agg, Surviving(items, actions).saved;
            && (agg == Run(items).sinks.agg <==> forall n: nat :: !Recounts(xs, ttl, n))
            && (Monotone(xs) ==> (agg == Run(items).sinks.agg <==> CountedInTime(xs, ttl)))
  {
    Recovered(items, ttl, actions);
    MinuteRowsSurvive(items, ttl, actions);
    var xs := Surviving(items, actions).saved;
    hide Exec, Surviving, TtlRun, Run, SameCells, Recounts, CountedInTime, Monotone;
    Expiry.MinuteRowsExactlyWhen(xs, ttl);
    if Monotone(xs) { InTimeExactlyWhen(xs, ttl); }
  }

  // ---------------------------------------------------------------- late rows

  /** Main result. The late rows are those of the job that never forgets, if and only if every standing row
      of a read taken back is one of its rows, and every other id's last late surviving read left the row
      that its first arrival left. */
  lemma LateRowsExactlyWhen(items: seq<Item>, ttl: int, actions: seq<Action>)
    requires Exec(items, ttl, actions).savedPos == |items|
    ensures var c, xs, full := Exec(items, ttl, actions), Surviving(items, actions).saved, Run(items).sinks.late;
            c.sinks.late == full <==>
            && Extends(c.stale, full)
            && forall n: nat, ev :: LastLate(xs, ttl, n, ev) && ev.id !in c.stale ==> LateAtFirst(items, n, ev)
  {
    Recovered(items, ttl, actions);
    var c, xs, full := Exec(items, ttl, actions), Surviving(items, actions).saved, Run(items).sinks.late;
    LateIdsGrow(xs, ttl);
    hide Exec, Surviving, TtlRun, Run, LastLate, LateAtFirst;
    var late := TtlRun(xs, ttl).sinks.late;
    if c.sinks.late == full {
      forall n: nat, ev | LastLate(xs, ttl, n, ev) && ev.id !in c.stale
        ensures LateAtFirst(items, n, ev)
      {
        SameRowExactlyWhen(xs, ttl, n, ev);
        assert (late + c.stale)[ev.id] == late[ev.id];
      }
      forall id | id in c.stale
        ensures id in full && full[id] == c.stale[id]
      {
        assert (late + c.stale)[id] == c.stale[id];
      }
    }
    if Extends(c.stale, full) && forall n: nat, ev :: LastLate(xs, ttl, n, ev) && ev.id !in c.stale ==> LateAtFirst(items, n, ev) {
      forall id | id in late + c.stale
        ensures id in full && full[id] == (late + c.stale)[id]
      {
        if id !in c.stale {
          var n, ev := RowHasRead(xs, ttl, id);
          SameRowExactlyWhen(xs, ttl, n, ev);
        }
      }
      AllAgree(late + c.stale, full);
    }
  }

  lemma AllAgree<K, V>(m: map<K, V>, full: map<K, V>)
    requires full.Keys <= m.Keys && forall k :: k in m ==> k in full && full[k] == m[k]
    ensures m == full
  {
  }

  // ---------------------------------------------------------------- when no read is stale

  /** Processing times do not run backwards, over crashes included. */
  predicate Timely(actions: seq<Action>)
  {
    forall i, j :: 0 <= i < j < |actions| && actions[i].Process? && actions[j].Process? ==> actions[i].now <= actions[j].now
  }

  /** No executed read, taken back or not, is a copy of an event whose id was read a TTL or more before
      by the reads that survived then. */
  ghost predicate NoneStale(items: seq<Item>, ttl: int, actions: seq<Action>)
  {
    forall n: nat :: n <= |actions| ==> NothingExpires(Surviving(items, actions[..n]).all, ttl)
  }

  predicate TimeOf(actions: seq<Action>, now: int)
  {
    exists i :: 0 <= i < |actions| && actions[i] == Process(now)
  }

  ghost predicate TimesOf(actions: seq<Action>, xs: seq<Timed>)
  {
    forall x :: x in xs ==> TimeOf(actions, x.now)
  }

  lemma TimesLater(actions: seq<Action>, n: nat, xs: seq<Timed>)
    requires n <= |actions| && TimesOf(actions[..n], xs)
    ensures TimesOf(actions, xs)
  {
    forall x | x in xs
      ensures TimeOf(actions, x.now)
    {
      var i :| 0 <= i < n && actions[..n][i] == Process(x.now);
      assert actions[i] == Process(x.now);
    }
  }

  lemma {:induction false} TimelyReads(items: seq<Item>, actions: seq<Action>)
    requires Timely(actions)
    ensures var r := Surviving(items, actions);
            Monotone(r.all) && Monotone(r.saved) && TimesOf(actions, r.all) && TimesOf(actions, r.saved)
  {
    if actions != [] {
      var n := |actions| - 1;
      var r := Surviving(items, actions[..n]);
      TimelyReads(items, actions[..n]);
      TimesLater(actions, n, r.all);
      TimesLater(actions, n, r.saved);
      if actions[n].Process? && |r.all| < |items| {
        var x := Timed(items[|r.all|], actions[n].now);
        forall y | y in r.all
          ensures y.now <= x.now
        {
          assert TimeOf(actions[..n], y.now);
          var i :| 0 <= i < n && actions[..n][i] == Process(y.now);
          assert actions[i] == Process(y.now);
        }
        assert TimeOf(actions, x.now);
        MonotoneAppend(r.all, x);
        hide Monotone;
      }
    }
  }

  lemma MonotoneAppend(xs: seq<Timed>, x: Timed)
    requires Monotone(xs) && forall y :: y in xs ==> y.now <= x.now
    ensures Monotone(xs + [x])
  {
  }

  /** Every write is one of the job that never forgets. */
  ghost predicate Plain(c: Cluster, full: Sinks)
  {
    && Extends(c.sinks.agg, full.agg) && Extends(c.sinks.late, full.late)
    && (forall o :: o in c.buffer ==> Extends(o.agg, full.agg) && Extends(o.late, full.late))
  }

  lemma PlainStep(items: seq<Item>, p: nat)
    requires p < |items|
    ensures var o := Step(Run(items[..p]).job, items[p]).1; Extends(o.agg, Run(items).sinks.agg) && Extends(o.late, Run(items).sinks.late)
  {
    hide Step;
    assert items[..p + 1][..p] == items[..p] && items[..p + 1][p] == items[p];
    WrittenForever(items, p + 1);
    var s, o := Run(items[..p]).sinks, Step(Run(items[..p]).job, items[p]).1;
    assert Run(items[..p + 1]).sinks == Deliver(s, o);
    hide Run;
    ExtendsRight(s.agg, o.agg, Run(items).sinks.agg);
    ExtendsRight(s.late, o.late, Run(items).sinks.late);
  }

  lemma ExtendsRight<K, V>(m: map<K, V>, n: map<K, V>, big: map<K, V>)
    requires Extends(m + n, big)
    ensures Extends(n, big)
  {
    forall k | k in n
      ensures k in big && big[k] == n[k]
    {
      assert (m + n)[k] == n[k];
    }
  }

  lemma MergeWithin<K, V>(m: map<K, V>, n: map<K, V>, big: map<K, V>, keys: set<K>)
    requires Extends(m, big) && Extends(n, big)
    ensures Extends(m + n, big) && Extends(m + Restrict(n, keys), big)
  {
  }

  /** A read that admits no id again does what the plain job does. */
  lemma PlainRead(xs: seq<Timed>, ttl: int, x: Timed)
    requires Monotone(xs + [x]) && NothingExpires(xs + [x], ttl)
    ensures TtlStep(TtlRun(xs, ttl).job, x, ttl).1 == Step(Run(Items(xs)).job, x.it).1
  {
    var all := xs + [x];
    assert all[..|all| - 1] == xs && all[|all| - 1] == x;
    MonotonePart(xs, x);
    NothingExpiresPrefix(all, ttl, |xs|);
    WithoutExpiry(xs, ttl);
    SeenIsSeen(xs, ttl);
    if Admits(TtlSeen(xs, ttl), x, ttl) { NoReadmission(all, ttl); }
    hide TtlRun, Run, TtlSeen, AllEvents, Admit, Tick, Monotone, NothingExpires;
  }

  lemma MonotonePart(xs: seq<Timed>, x: Timed)
    requires Monotone(xs + [x])
    ensures Monotone(xs)
  {
    assert forall i :: 0 <= i < |xs| ==> (xs + [x])[i] == xs[i];
  }

  lemma {:induction false} DeliverWithin(s: Sinks, os: seq<Output>, full: Sinks)
    requires Extends(s.agg, full.agg) && Extends(s.late, full.late)
    requires forall o :: o in os ==> Extends(o.agg, full.agg) && Extends(o.late, full.late)
    ensures Extends(DeliverAll(s, os).agg, full.agg) && Extends(DeliverAll(s, os).late, full.late)
  {
    if os != [] {
      var n := |os| - 1;
      assert os[n] in os;
      DeliverWithin(s, os[..n], full);
      MergeWithin(DeliverAll(s, os[..n]).agg, os[n].agg, full.agg, {});
      MergeWithin(DeliverAll(s, os[..n]).late, os[n].late, full.late, {});
      hide Extends;
    }
  }

  lemma FlushWithin(c: Cluster, full: Sinks, i: nat, agg: set<Window>, rows: set<string>, message: bool)
    requires Plain(c, full) && i < |c.buffer|
    ensures var s := Part(c.sinks, c.buffer[i], agg, rows, message); Extends(s.agg, full.agg) && Extends(s.late, full.late)
  {
    assert c.buffer[i] in c.buffer;
    hide Extends, Restrict;
    MergeWithin(c.sinks.agg, c.buffer[i].agg, full.agg, agg);
    MergeWithin(c.sinks.late, c.buffer[i].late, full.late, rows);
  }

  lemma NoneStalePrefix(items: seq<Item>, ttl: int, actions: seq<Action>)
    requires actions != [] && NoneStale(items, ttl, actions)
    ensures NoneStale(items, ttl, actions[..|actions| - 1]) && NothingExpires(Surviving(items, actions).all, ttl)
  {
    var before := actions[..|actions| - 1];
    forall n: nat | n <= |before|
      ensures NothingExpires(Surviving(items, before[..n]).all, ttl)
    {
      assert before[..n] == actions[..n];
    }
    assert actions[..|actions|] == actions;
  }

  lemma ProcessPlain(items: seq<Item>, ttl: int, c: Cluster, r: Reads, now: int)
    requires Follows(items, ttl, c, r) && Plain(c, Run(items).sinks) && c.pos < |items|
    requires var all := r.all + [Timed(items[c.pos], now)]; Monotone(all) && NothingExpires(all, ttl)
    ensures Plain(Act(items, ttl, c, Process(now)), Run(items).sinks)
  {
    var x := Timed(items[c.pos], now);
    assert Items(r.all) == items[..c.pos] && c.live == TtlRun(r.all, ttl).job;
    hide *;
    PlainRead(r.all, ttl, x);
    PlainStep(items, c.pos);
    ProcessMakes(items, ttl, c, now, Run(items).sinks);
  }

  lemma ProcessMakes(items: seq<Item>, ttl: int, c: Cluster, now: int, full: Sinks)
    requires Plain(c, full) && c.pos < |items|
    requires var o := TtlStep(c.live, Timed(items[c.pos], now), ttl).1; Extends(o.agg, full.agg) && Extends(o.late, full.late)
    ensures Plain(Act(items, ttl, c, Process(now)), full)
  {
    hide TtlStep, Extends;
  }

  lemma CheckpointPlain(items: seq<Item>, ttl: int, c: Cluster, full: Sinks)
    requires Plain(c, full)
    ensures Plain(Act(items, ttl, c, Checkpoint), full)
  {
    DeliverWithin(c.sinks, c.buffer, full);
    hide DeliverAll, Messages, RowsOf, Extends;
  }

  lemma FlushPlain(items: seq<Item>, ttl: int, c: Cluster, full: Sinks, i: nat, agg: set<Window>, rows: set<string>, message: bool)
    requires Plain(c, full)
    ensures Plain(Act(items, ttl, c, Flush(i, agg, rows, message)), full)
  {
    if i < |c.buffer| { FlushWithin(c, full, i, agg, rows, message); }
    hide Part, Extends, Restrict;
  }

  lemma FailPlain(items: seq<Item>, ttl: int, c: Cluster, full: Sinks)
    requires Plain(c, full)
    ensures Plain(Act(items, ttl, c, Fail), full)
  {
    hide Extends, Messages;
  }

  lemma {:induction false} PlainWrites(items: seq<Item>, ttl: int, actions: seq<Action>)
    requires Timely(actions) && NoneStale(items, ttl, actions)
    ensures Plain(Exec(items, ttl, actions), Run(items).sinks)
  {
    if actions == [] {
      hide Run;
    } else {
      var n, full := |actions| - 1, Run(items).sinks;
      var c, r, a := Exec(items, ttl, actions[..n]), Surviving(items, actions[..n]), actions[n];
      NoneStalePrefix(items, ttl, actions);
      TimelyReads(items, actions);
      assert Timely(actions[..n]);
      PlainWrites(items, ttl, actions[..n]);
      Reachable(items, ttl, actions[..n]);
      assert c.pos == |r.all|;
      assert Exec(items, ttl, actions) == Act(items, ttl, c, a) && Surviving(items, actions) == Keep(items, r, a);
      hide Exec, Surviving, Run, NothingExpires, Monotone, Plain, Follows, Standing, Layered, Numbered, NoneStale, Timely, TimesOf, Act;
      match a
      case Process(now) =>
        if c.pos < |items| {
          ProcessPlain(items, ttl, c, r, now);
        } else {
          AtEnd(items, ttl, c, now);
        }
      case Flush(i, agg, rows, message) => FlushPlain(items, ttl, c, full, i, agg, rows, message);
      case Checkpoint => CheckpointPlain(items, ttl, c, full);
      case Fail => FailPlain(items, ttl, c, full);
    }
  }

  lemma AtEnd(items: seq<Item>, ttl: int, c: Cluster, now: int)
    requires c.pos >= |items|
    ensures Act(items, ttl, c, Process(now)) == c
  {
  }

  /** Main result. However often the job crashed, if no executed read was stale: once a checkpoint covers
      the input, the minute values and `late_dropped` are those of the job that never forgets and never
      crashes, and `late:total` is right exactly when no late message was sent again. */
  lemma CrashesLeaveNoTrace(items: seq<Item>, ttl: int, actions: seq<Action>)
    requires Exec(items, ttl, actions).savedPos == |items| && Timely(actions) && NoneStale(items, ttl, actions)
    ensures var c, full := Exec(items, ttl, actions), Run(items).sinks;
            && c.sinks.agg == full.agg && c.sinks.late == full.late
            && c.sinks.lateTotal == |c.sinks.late| + c.repeated
            && (c.sinks.lateTotal == |c.sinks.late| <==> c.repeated == 0)
  {
    Recovered(items, ttl, actions);
    PlainWrites(items, ttl, actions);
    var c, r, full := Exec(items, ttl, actions), Surviving(items, actions), Run(items).sinks;
    Reachable(items, ttl, actions);
    assert r.all == r.saved by {
      hide Exec, Surviving, TtlRun, Standing, Layered, Numbered, Items, DeliverAll;
    }
    assert NothingExpires(r.saved, ttl) by { assert actions[..|actions|] == actions; }
    TimelyReads(items, actions);
    hide Exec, Surviving, Run, TtlRun, Inv, NothingExpires, Monotone, NoneStale, Timely, TimesOf;
    WithoutExpiry(r.saved, ttl);
    LateTotalIsExact(items);
    SameMap(full.agg, c.sinks.agg);
    SameMap(c.sinks.late, full.late);
  }

  /** And before that no row is ever wrong: each is the final one or absent. */
  lemma NeverWrong(items: seq<Item>, ttl: int, actions: seq<Action>)
    requires Timely(actions) && NoneStale(items, ttl, actions)
    ensures var s, full := Exec(items, ttl, actions).sinks, Run(items).sinks;
            Extends(s.agg, full.agg) && Extends(s.late, full.late)
  {
    PlainWrites(items, ttl, actions);
  }

  // ---------------------------------------------------------------- late rows describe arrivals

  ghost predicate RowsIn(items: seq<Item>, c: Cluster)
  {
    RowsArrived(items, c.sinks.late) && forall o :: o in c.buffer ==> RowsArrived(items, o.late)
  }

  lemma MergeArrived(items: seq<Item>, m: map<string, LateRow>, n: map<string, LateRow>, keys: set<string>)
    requires RowsArrived(items, m) && RowsArrived(items, n)
    ensures RowsArrived(items, m + n) && RowsArrived(items, m + Restrict(n, keys))
  {
    hide RowOf;
  }

  lemma {:induction false} DeliverArrived(items: seq<Item>, s: Sinks, os: seq<Output>)
    requires RowsArrived(items, s.late) && forall o :: o in os ==> RowsArrived(items, o.late)
    ensures RowsArrived(items, DeliverAll(s, os).late)
  {
    if os != [] {
      var n := |os| - 1;
      assert os[n] in os;
      DeliverArrived(items, s, os[..n]);
      MergeArrived(items, DeliverAll(s, os[..n]).late, os[n].late, {});
      hide RowsArrived;
    }
  }

  lemma ActArrived(items: seq<Item>, ttl: int, c: Cluster, a: Action)
    requires RowsIn(items, c)
    ensures RowsIn(items, Act(items, ttl, c, a))
  {
    match a
    case Process(now) =>
      if c.pos < |items| { StepRowsArrive(items, c.live, Timed(items[c.pos], now), ttl, c.pos); }
      hide TtlStep, RowsArrived;
    case Flush(i, agg, rows, message) =>
      if i < |c.buffer| {
        assert c.buffer[i] in c.buffer;
        MergeArrived(items, c.sinks.late, c.buffer[i].late, rows);
      }
      hide RowsArrived, Restrict;
    case Checkpoint =>
      DeliverArrived(items, c.sinks, c.buffer);
      hide RowsArrived, DeliverAll, Messages, RowsOf;
    case Fail => hide RowsArrived, Messages;
  }

  /** Every late row, of whatever read, describes an event that arrived. */
  lemma {:induction false} LateRowsArrive(items: seq<Item>, ttl: int, actions: seq<Action>)
    ensures RowsIn(items, Exec(items, ttl, actions))
  {
    if actions != [] {
      var n := |actions| - 1;
      LateRowsArrive(items, ttl, actions[..n]);
      hide Act, RowsIn;
      ActArrived(items, ttl, Exec(items, ttl, actions[..n]), actions[n]);
    }
  }

  /** A covering checkpoint lists every id that the job that never forgets lists. */
  lemma LateIdsCover(items: seq<Item>, ttl: int, actions: seq<Action>)
    requires Exec(items, ttl, actions).savedPos == |items|
    ensures Run(items).sinks.late.Keys <= Exec(items, ttl, actions).sinks.late.Keys
  {
    Recovered(items, ttl, actions);
    hide Exec, Surviving, TtlRun, Run;
    LateIdsGrow(Surviving(items, actions).saved, ttl);
  }
}
