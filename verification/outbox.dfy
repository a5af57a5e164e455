/** The transactional outbox with N workers (OutboxWorker.kt) as a transition system: the row table,
    the rows each worker's transaction holds, the broker's log and the counters. */
module Outbox {
  import opened Finite

  /** One worker's poll: between transactions, or inside one. `next` is the row to send next. */
  datatype Phase =
    | Idle
    | Busy(batch: seq<int>, next: nat, publishedIds: seq<int>, failed: bool, republished: nat)

  /** `send(...).get(5s)`: acknowledged, failed, or given up on although the broker may still get it. */
  datatype SendResult = Acked | Failed | TimedOut

  /** How a transaction ends after its sends: flags updated, update skipped, or rolled back. */
  datatype End = Updated | Skipped | RolledBack

  datatype Entry = Entry(worker: nat, id: int)

  datatype Config = Config(skipLocked: bool, limit: nat)

  /** Totals are kept over restarts. `rolledBack`, `timeouts`, `crashes` and `cleared` are not
      counters of the program; they record what kind of run this was. */
  datatype State = State(
    rows: set<int>, flagged: set<int>, workers: map<nat, Phase>, log: seq<Entry>, inFlight: multiset<Entry>, seen: set<int>,
    published: nat, republished: int, updateSkipped: int, publishErrors: nat,
    rolledBack: int, timeouts: nat, crashes: nat, cleared: bool)

  const SEEN_LIMIT := 200_000

  datatype Action =
    | Insert(id: int)
    | Select(w: nat, batch: seq<int>)
    | Send(w: nat, result: SendResult)
    | Deliver(e: Entry)
    | Finish(w: nat, end: End)
    | Crash

  predicate Ascending(ids: seq<int>)
  {
    forall i, j :: 0 <= i < j < |ids| ==> ids[i] < ids[j]
  }

  function Elements(ids: seq<int>): set<int>
  {
    set id | id in ids
  }

  /** The rows held by other transactions: FOR UPDATE locks the batch until commit or rollback. */
  function LockedByOthers(s: State, w: nat): set<int>
  {
    set v, id | v in s.workers && v != w && s.workers[v].Busy? && id in s.workers[v].batch :: id
  }

  /** WHERE published = false, and with SKIP LOCKED only rows nobody else holds. */
  function Candidates(c: Config, s: State, w: nat): set<int>
  {
    (s.rows - s.flagged) - (if c.skipLocked then LockedByOthers(s, w) else {})
  }

  /** ORDER BY id LIMIT n */
  predicate IsBatch(candidates: set<int>, limit: nat, batch: seq<int>)
  {
    && Ascending(batch) && Elements(batch) <= candidates && |batch| <= limit
    && (forall id :: id in candidates && id !in batch ==> |batch| == limit && forall b :: b in batch ==> b < id)
  }

  predicate Enabled(c: Config, s: State, a: Action)
  {
    match a
    case Insert(id) => id !in s.rows
    case Select(w, batch) => w in s.workers && s.workers[w].Idle? && IsBatch(Candidates(c, s, w), c.limit, batch)
    case Send(w, result) =>
      w in s.workers && s.workers[w].Busy? && !s.workers[w].failed && s.workers[w].next < |s.workers[w].batch|
    case Deliver(e) => e in s.inFlight
    case Finish(w, end) =>
      w in s.workers && s.workers[w].Busy? && (s.workers[w].failed || s.workers[w].next >= |s.workers[w].batch|)
    case Crash => true
  }

  function AfterSend(s: State, w: nat, result: SendResult): State
    requires w in s.workers && s.workers[w].Busy? && s.workers[w].next < |s.workers[w].batch|
  {
    var p := s.workers[w];
    var id := p.batch[p.next];
    match result
    case Acked =>
      var p' := p.(next := p.next + 1, publishedIds := p.publishedIds + [id],
                   republished := p.republished + if id in s.seen then 1 else 0);
      s.(workers := s.workers[w := p'], log := s.log + [Entry(w, id)], seen := s.seen + {id})
    case Failed =>
      s.(workers := s.workers[w := p.(failed := true)], publishErrors := s.publishErrors + 1)
    case TimedOut =>
      s.(workers := s.workers[w := p.(failed := true)], publishErrors := s.publishErrors + 1,
         inFlight := s.inFlight + multiset{Entry(w, id)}, timeouts := s.timeouts + 1)
  }

  /** What follows the send loop, up to the end of the transaction. */
  function AfterFinish(s: State, w: nat, end: End): State
    requires w in s.workers && s.workers[w].Busy?
  {
    var p := s.workers[w];
    var n := |p.publishedIds|;
    var s1 := s.(workers := s.workers[w := Idle],
                 seen := if |s.seen| > SEEN_LIMIT then {} else s.seen,
                 cleared := s.cleared || |s.seen| > SEEN_LIMIT);
    if n == 0 then s1
    else
      var s2 := s1.(published := s1.published + n, republished := s1.republished + p.republished);
      match end
      case Skipped => s2.(updateSkipped := s2.updateSkipped + n)
      case Updated => s2.(flagged := s2.flagged + Elements(p.publishedIds))
      case RolledBack => s2.(rolledBack := s2.rolledBack + n)
  }

  /** How many acknowledged sends each open transaction holds. */
  function Pending(workers: map<nat, Phase>): map<nat, int>
  {
    map w | w in workers :: if workers[w].Busy? then |workers[w].publishedIds| else 0
  }

  function PendingRepeats(workers: map<nat, Phase>): map<nat, int>
  {
    map w | w in workers :: if workers[w].Busy? then workers[w].republished else 0
  }

  /** An enabled action other than a crash. */
  function Move(c: Config, s: State, a: Action): State
    requires Enabled(c, s, a) && !a.Crash?
  {
    match a
    case Insert(id) => s.(rows := s.rows + {id})
    case Select(w, batch) =>
      if batch == [] then s else s.(workers := s.workers[w := Busy(batch, 0, [], false, 0)])
    case Send(w, result) => AfterSend(s, w, result)
    case Deliver(e) => s.(log := s.log + [e], inFlight := s.inFlight - multiset{e})
    case Finish(w, end) => AfterFinish(s, w, end)
  }

  /** One step. An action that is not enabled does nothing. */
  ghost function Act(c: Config, s: State, a: Action): State
  {
    if !Enabled(c, s, a) then s
    else if a.Crash? then
      s.(workers := map w | w in s.workers :: Idle, seen := {}, cleared := true, crashes := s.crashes + 1,
         rolledBack := s.rolledBack + SumMap(Pending(s.workers)))
    else Move(c, s, a)
  }

  ghost function Exec(c: Config, s: State, actions: seq<Action>): State
  {
    if actions == [] then s
    else Act(c, Exec(c, s, actions[..|actions| - 1]), actions[|actions| - 1])
  }

  predicate Initial(s: State)
  {
    && s.flagged == {} && s.log == [] && s.inFlight == multiset{} && s.seen == {}
    && (forall w :: w in s.workers ==> s.workers[w] == Idle)
    && s.published == 0 && s.republished == 0 && s.updateSkipped == 0 && s.publishErrors == 0
    && s.rolledBack == 0 && s.timeouts == 0 && s.crashes == 0 && !s.cleared
  }

  function LoggedIds(log: seq<Entry>): set<int>
  {
    set e | e in log :: e.id
  }

  // ---------------------------------------------------------------- what a poll takes, and what it counts

  /** A row that worker w may select: committed, unpublished and, under SKIP LOCKED, held by no other transaction. */
  predicate Free(c: Config, s: State, w: nat, id: int)
  {
    && id in s.rows && id !in s.flagged
    && (c.skipLocked ==> forall v :: v in s.workers && v != w && s.workers[v].Busy? ==> id !in s.workers[v].batch)
  }

  /** A poll takes the oldest free rows, in their order: one left over is younger than all, and then the batch is full. */
  lemma OldestFirst(c: Config, s: State, w: nat, batch: seq<int>)
    requires IsBatch(Candidates(c, s, w), c.limit, batch)
    ensures |batch| <= c.limit && forall i, j :: 0 <= i < j < |batch| ==> batch[i] < batch[j]
    ensures forall id :: id in batch ==> Free(c, s, w, id)
    ensures forall id :: Free(c, s, w, id) && id !in batch ==> |batch| == c.limit && forall b :: b in batch ==> b < id
  {
    forall id
      ensures id in Candidates(c, s, w) <==> Free(c, s, w, id)
    {
    }
    hide Candidates, Free;
    assert forall id :: id in batch ==> id in Elements(batch);
  }

  /** A committed row is free for every worker. */
  lemma InsertIsFree(c: Config, s: State, w: nat, id: int)
    requires Safe(s) && id !in s.rows
    ensures Free(c, Act(c, s, Insert(id)), w, id)
  {
    forall v | v in s.workers && s.workers[v].Busy?
      ensures id !in s.workers[v].batch
    {
      assert PhaseOk(s, v);
      assert id !in Elements(s.workers[v].batch);
    }
  }

  /** A send given up on may still arrive: the poll has ended without its row, the log has it. */
  lemma TimeoutMayArrive(c: Config, s: State, w: nat)
    requires Enabled(c, s, Send(w, TimedOut))
    ensures var p := s.workers[w];
            var e := Entry(w, p.batch[p.next]);
            var s1 := Act(c, s, Send(w, TimedOut));
            && w in s1.workers && s1.workers[w] == p.(failed := true) && s1.log == s.log
            && Act(c, s1, Deliver(e)).log == s.log + [e] && Act(c, s1, Deliver(e)).inFlight == s.inFlight
  {
    var e := Entry(w, s.workers[w].batch[s.workers[w].next]);
    assert s.inFlight + multiset{e} - multiset{e} == s.inFlight;
  }

  /** `seen` never outgrows its bound over a poll's end, and is left alone below it. */
  lemma SeenIsBounded(s: State, w: nat, end: End)
    requires w in s.workers && s.workers[w].Busy?
    ensures |AfterFinish(s, w, end).seen| <= 200_000
    ensures |s.seen| <= 200_000 ==> AfterFinish(s, w, end).seen == s.seen && AfterFinish(s, w, end).cleared == s.cleared
  {
    hide Elements;
  }

  /** The sends of a run that were not acknowledged, by position. */
  ghost function FailedSends(c: Config, s: State, actions: seq<Action>): set<int>
  {
    set i | 0 <= i < |actions| && FailedSend(c, Exec(c, s, actions[..i]), actions[i])
  }

  predicate FailedSend(c: Config, s: State, a: Action)
  {
    Enabled(c, s, a) && a.Send? && a.result != Acked
  }

  /** The error counter counts them. */
  lemma {:induction false} ErrorsAreFailedSends(c: Config, s: State, actions: seq<Action>)
    ensures Exec(c, s, actions).publishErrors == s.publishErrors + |FailedSends(c, s, actions)|
  {
    hide Enabled, Act;
    if actions == [] {
      assert FailedSends(c, s, []) == {};
    } else {
      var n := |actions| - 1;
      ErrorsAreFailedSends(c, s, actions[..n]);
      ErrorCounted(c, Exec(c, s, actions[..n]), actions[n]);
      hide FailedSend;
      FailedSendsAppend(c, s, actions, n);
    }
  }

  lemma ErrorCounted(c: Config, s: State, a: Action)
    ensures Act(c, s, a).publishErrors == s.publishErrors + if FailedSend(c, s, a) then 1 else 0
  {
    hide Candidates, IsBatch, Elements;
  }

  lemma FailedSendsAppend(c: Config, s: State, actions: seq<Action>, n: nat)
    requires |actions| == n + 1
    ensures |FailedSends(c, s, actions)| ==
            |FailedSends(c, s, actions[..n])| + if FailedSend(c, Exec(c, s, actions[..n]), actions[n]) then 1 else 0
  {
    hide FailedSend, Exec;
    assert forall i :: 0 <= i < n ==> actions[..n][..i] == actions[..i];
    assert FailedSends(c, s, actions) ==
           FailedSends(c, s, actions[..n]) + if FailedSend(c, Exec(c, s, actions[..n]), actions[n]) then {n} else {};
  }

  /** A poll that ends without its update. */
  predicate Skips(c: Config, s: State, a: Action)
  {
    Enabled(c, s, a) && a.Finish? && a.end == Skipped
  }

  /** How many rows it had published. */
  function SkippedRows(c: Config, s: State, a: Action): int
  {
    if Skips(c, s, a) then |s.workers[a.w].publishedIds| else 0
  }

  ghost function SkippedAt(c: Config, s: State, actions: seq<Action>): map<int, int>
  {
    map i | 0 <= i < |actions| :: SkippedRows(c, Exec(c, s, actions[..i]), actions[i])
  }

  /** The counter of skipped updates is the number of rows published by polls that ended so. */
  lemma {:induction false} SkippedIsSum(c: Config, s: State, actions: seq<Action>)
    ensures Exec(c, s, actions).updateSkipped == s.updateSkipped + SumMap(SkippedAt(c, s, actions))
  {
    hide Enabled, Act, SumMap, SkippedRows;
    if actions == [] {
      assert SkippedAt(c, s, []) == map[];
      NoneSkipped();
    } else {
      var n := |actions| - 1;
      var before := Exec(c, s, actions[..n]);
      SkippedIsSum(c, s, actions[..n]);
      SkippedCounted(c, before, actions[n]);
      SkippedAppend(c, s, actions, n);
      hide SkippedAt;
      SumUpdate(SkippedAt(c, s, actions[..n]), n, SkippedRows(c, before, actions[n]));
    }
  }

  lemma SkippedAppend(c: Config, s: State, actions: seq<Action>, n: nat)
    requires |actions| == n + 1
    ensures n !in SkippedAt(c, s, actions[..n])
    ensures SkippedAt(c, s, actions) == SkippedAt(c, s, actions[..n])[n := SkippedRows(c, Exec(c, s, actions[..n]), actions[n])]
  {
    hide Exec, SkippedRows;
    assert forall i :: 0 <= i < n ==> actions[..n][..i] == actions[..i];
  }

  lemma NoneSkipped()
    ensures SumMap<int>(map[]) == 0
  {
  }

  lemma SkippedCounted(c: Config, s: State, a: Action)
    ensures Act(c, s, a).updateSkipped == s.updateSkipped + SkippedRows(c, s, a)
  {
    hide Candidates, IsBatch, Elements;
  }

  // ---------------------------------------------------------------- what every step keeps

  ghost predicate PhaseOk(s: State, w: nat)
    requires w in s.workers
  {
    var p := s.workers[w];
    p.Busy? ==>
      && Ascending(p.batch) && Elements(p.batch) <= s.rows
      && p.next == |p.publishedIds| <= |p.batch| && p.publishedIds == p.batch[..p.next]
      && (p.failed ==> p.next < |p.batch|)
      && (forall id :: id in p.publishedIds ==> Entry(w, id) in s.log)
  }

  /** Any configuration: a poll publishes an ascending prefix of its batch, and a flagged row is in the log. */
  ghost predicate Safe(s: State)
  {
    && s.flagged <= s.rows
    && s.flagged <= LoggedIds(s.log)
    && (forall e :: e in s.log ==> e.id in s.rows)
    && (forall e :: e in s.inFlight ==> e.id in s.rows)
    && (forall w :: w in s.workers ==> PhaseOk(s, w))
  }

  /** With SKIP LOCKED: no row is in two transactions, and no flagged row is in any. */
  ghost predicate Exclusive(s: State)
  {
    && (forall v, w :: v in s.workers && w in s.workers && v != w && s.workers[v].Busy? && s.workers[w].Busy? ==>
         Elements(s.workers[v].batch) !! Elements(s.workers[w].batch))
    && (forall w :: w in s.workers && s.workers[w].Busy? ==> Elements(s.workers[w].batch) !! s.flagged)
  }

  lemma LoggedAppend(log: seq<Entry>, e: Entry)
    ensures LoggedIds(log + [e]) == LoggedIds(log) + {e.id}
  {
    assert forall x :: x in log + [e] <==> x in log || x == e;
  }

  /** A worker that did not move is still in order when rows and log only grew. */
  lemma StillOk(s: State, s': State, v: nat)
    requires v in s.workers && v in s'.workers && s.workers[v] == s'.workers[v] && PhaseOk(s, v)
    requires s.rows <= s'.rows && forall e :: e in s.log ==> e in s'.log
    ensures PhaseOk(s', v)
  {
  }

  lemma SendIsSafe(s: State, w: nat, result: SendResult)
    requires Safe(s) && w in s.workers && s.workers[w].Busy? && !s.workers[w].failed
    requires s.workers[w].next < |s.workers[w].batch|
    ensures Safe(AfterSend(s, w, result))
  {
    var p := s.workers[w];
    var id := p.batch[p.next];
    assert PhaseOk(s, w);
    assert id in Elements(p.batch);
    var s' := AfterSend(s, w, result);
    if result == Acked { LoggedAppend(s.log, Entry(w, id)); }
    assert PhaseOk(s', w);
    forall v | v in s'.workers
      ensures PhaseOk(s', v)
    {
      if v != w { StillOk(s, s', v); }
    }
    hide PhaseOk, LoggedIds, Elements;
    if result == TimedOut {
      assert forall e :: e in s'.inFlight ==> e in s.inFlight || e == Entry(w, id);
    }
  }

  lemma FinishIsSafe(s: State, w: nat, end: End)
    requires Safe(s) && w in s.workers && s.workers[w].Busy?
    ensures Safe(AfterFinish(s, w, end))
  {
    var s' := AfterFinish(s, w, end);
    var p := s.workers[w];
    assert PhaseOk(s, w);
    forall id | id in Elements(p.publishedIds)
      ensures id in LoggedIds(s.log) && id in s.rows
    {
      assert Entry(w, id) in s.log;
    }
    forall v | v in s'.workers
      ensures PhaseOk(s', v)
    {
      if v != w { StillOk(s, s', v); }
    }
  }

  lemma SelectIsSafe(c: Config, s: State, w: nat, batch: seq<int>)
    requires Safe(s) && Enabled(c, s, Select(w, batch))
    ensures Safe(Act(c, s, Select(w, batch)))
  {
    var s' := Act(c, s, Select(w, batch));
    hide LockedByOthers;
    forall v | v in s'.workers
      ensures PhaseOk(s', v)
    {
      if v != w { StillOk(s, s', v); }
    }
    hide PhaseOk;
  }

  lemma DeliverIsSafe(c: Config, s: State, e: Entry)
    requires Safe(s) && e in s.inFlight
    ensures Safe(Act(c, s, Deliver(e)))
  {
    var s' := Act(c, s, Deliver(e));
    LoggedAppend(s.log, e);
    forall v | v in s'.workers
      ensures PhaseOk(s', v)
    {
      StillOk(s, s', v);
    }
    hide PhaseOk, LoggedIds;
  }

  lemma InsertIsSafe(c: Config, s: State, id: int)
    requires Safe(s)
    ensures Safe(Act(c, s, Insert(id)))
  {
    var s' := Act(c, s, Insert(id));
    forall v | v in s'.workers
      ensures PhaseOk(s', v)
    {
      StillOk(s, s', v);
    }
    hide PhaseOk;
  }

  lemma ActIsSafe(c: Config, s: State, a: Action)
    requires Safe(s)
    ensures Safe(Act(c, s, a))
  {
    if Enabled(c, s, a) {
      match a
      case Insert(id) => InsertIsSafe(c, s, id);
      case Select(w, batch) => SelectIsSafe(c, s, w, batch);
      case Send(w, result) => SendIsSafe(s, w, result);
      case Deliver(e) => DeliverIsSafe(c, s, e);
      case Finish(w, end) => FinishIsSafe(s, w, end);
      case Crash => hide Elements, Ascending, LoggedIds;
    }
  }

  lemma BatchOfAscending(batch: seq<int>, n: nat)
    requires Ascending(batch) && n < |batch|
    ensures batch[n] !in batch[..n] && batch[..n] + [batch[n]] == batch[..n + 1]
  {
  }

  lemma {:induction false} AscendingSize(ids: seq<int>)
    requires Ascending(ids)
    ensures |Elements(ids)| == |ids|
  {
    if ids != [] {
      var n := |ids| - 1;
      AscendingSize(ids[..n]);
      assert Elements(ids) == Elements(ids[..n]) + {ids[n]};
      assert ids[n] !in ids[..n];
    }
  }

  lemma ActIsExclusive(c: Config, s: State, a: Action)
    requires c.skipLocked && Safe(s) && Exclusive(s)
    ensures Exclusive(Act(c, s, a))
  {
    if Enabled(c, s, a) {
      match a
      case Insert(id) =>
      case Select(w, batch) => SelectIsExclusive(c, s, w, batch);
      case Send(w, result) => SendIsExclusive(s, w, result);
      case Deliver(e) =>
      case Finish(w, end) => FinishIsExclusive(s, w, end);
      case Crash =>
    }
  }

  lemma SendIsExclusive(s: State, w: nat, result: SendResult)
    requires Exclusive(s) && w in s.workers && s.workers[w].Busy? && s.workers[w].next < |s.workers[w].batch|
    ensures Exclusive(AfterSend(s, w, result))
  {
    hide Elements;
  }

  lemma SelectIsExclusive(c: Config, s: State, w: nat, batch: seq<int>)
    requires c.skipLocked && Exclusive(s) && Enabled(c, s, Select(w, batch))
    ensures Exclusive(Act(c, s, Select(w, batch)))
  {
    forall v | v in s.workers && v != w && s.workers[v].Busy?
      ensures Elements(s.workers[v].batch) !! Elements(batch)
    {
      forall id | id in Elements(s.workers[v].batch)
        ensures id !in Elements(batch)
      {
        assert id in LockedByOthers(s, w);
      }
    }
  }

  lemma FinishIsExclusive(s: State, w: nat, end: End)
    requires Safe(s) && Exclusive(s) && w in s.workers && s.workers[w].Busy?
    ensures Exclusive(AfterFinish(s, w, end))
  {
    var p := s.workers[w];
    assert PhaseOk(s, w);
    assert Elements(p.publishedIds) <= Elements(p.batch);
    hide Safe, PhaseOk, Ascending;
  }

  // ---------------------------------------------------------------- at most once

  /** No update was skipped, nothing was rolled back, no send timed out, no process died. */
  predicate Clean(s: State)
  {
    s.updateSkipped == 0 && s.rolledBack == 0 && s.timeouts == 0 && s.crashes == 0
  }

  predicate Growing(s: State)
  {
    s.updateSkipped >= 0 && s.rolledBack >= 0
  }

  lemma CleanBefore(c: Config, s: State, a: Action)
    requires Growing(s)
    ensures Growing(Act(c, s, a))
    ensures Clean(Act(c, s, a)) ==> Clean(s)
    ensures Act(c, s, a).timeouts == 0 ==> s.timeouts == 0
    ensures !Act(c, s, a).cleared ==> !s.cleared
    ensures Act(c, s, a).crashes == 0 ==> s.crashes == 0
  {
    SumNatural(Pending(s.workers));
  }

  /** Every logged row is flagged or in the hands of the worker that logged it; no worker logs a row twice. */
  ghost predicate Once(s: State)
  {
    && s.inFlight == multiset{}
    && (forall e :: e in s.log ==> e.worker in s.workers && (e.id in s.flagged || Holds(s.workers[e.worker], e.id)))
    && (forall i, j :: 0 <= i < j < |s.log| ==> s.log[i] != s.log[j])
    && (forall w, id :: w in s.workers && s.workers[w].Busy? && id in s.workers[w].batch && Entry(w, id) in s.log
         ==> id in s.workers[w].publishedIds)
  }

  predicate Holds(p: Phase, id: int)
  {
    p.Busy? && id in p.publishedIds
  }

  lemma SendOnce(s: State, w: nat)
    requires Safe(s) && Once(s) && w in s.workers && s.workers[w].Busy? && !s.workers[w].failed
    requires s.workers[w].next < |s.workers[w].batch|
    ensures Once(AfterSend(s, w, Acked))
    ensures Entry(w, s.workers[w].batch[s.workers[w].next]) !in s.log
  {
    var p := s.workers[w];
    assert PhaseOk(s, w);
    BatchOfAscending(p.batch, p.next);
    hide Safe, PhaseOk, Ascending;
  }

  lemma SelectOnce(c: Config, s: State, w: nat, batch: seq<int>)
    requires Once(s) && Enabled(c, s, Select(w, batch))
    ensures Once(Act(c, s, Select(w, batch)))
  {
    forall id | id in batch
      ensures id !in s.flagged
    {
      assert id in Elements(batch);
    }
    hide Elements, Ascending, LockedByOthers, Candidates;
  }

  lemma FinishOnce(s: State, w: nat, end: End)
    requires Safe(s) && Growing(s) && Once(s) && w in s.workers && s.workers[w].Busy? && Clean(AfterFinish(s, w, end))
    ensures Once(AfterFinish(s, w, end))
  {
    assert PhaseOk(s, w);
    hide Safe, PhaseOk;
  }

  lemma ActOnce(c: Config, s: State, a: Action)
    requires Safe(s) && Growing(s) && Once(s) && Clean(Act(c, s, a))
    ensures Once(Act(c, s, a))
  {
    hide Safe;
    if Enabled(c, s, a) {
      match a
      case Insert(id) =>
      case Select(w, batch) => SelectOnce(c, s, w, batch);
      case Send(w, result) => if result == Acked { SendOnce(s, w); }
      case Deliver(e) =>
      case Finish(w, end) => FinishOnce(s, w, end);
      case Crash =>
    }
  }

  /** With SKIP LOCKED no row is in the log twice, whoever sent it. */
  ghost predicate Unique(s: State)
  {
    forall i, j :: 0 <= i < j < |s.log| ==> s.log[i].id != s.log[j].id
  }

  /** A logged row that is in a worker's batch was logged by that worker. */
  lemma LoggedByHolder(s: State, w: nat, e: Entry)
    requires Safe(s) && Exclusive(s) && Once(s) && w in s.workers && s.workers[w].Busy?
    requires e in s.log && e.id in Elements(s.workers[w].batch)
    ensures e.worker == w
  {
    assert e.id !in s.flagged;
    assert PhaseOk(s, e.worker);
    assert e.id in Elements(s.workers[e.worker].batch);
  }

  lemma SendUnique(s: State, w: nat)
    requires Safe(s) && Exclusive(s) && Once(s) && Unique(s) && w in s.workers && s.workers[w].Busy? && !s.workers[w].failed
    requires s.workers[w].next < |s.workers[w].batch|
    ensures Unique(AfterSend(s, w, Acked))
  {
    var p := s.workers[w];
    var id := p.batch[p.next];
    SendOnce(s, w);
    assert id in Elements(p.batch);
    forall e | e in s.log
      ensures e.id == id ==> e.worker == w
    {
      if e.id == id { LoggedByHolder(s, w, e); }
    }
    hide Safe, Exclusive, Once;
  }

  lemma ActUnique(c: Config, s: State, a: Action)
    requires Safe(s) && Growing(s) && Exclusive(s) && Once(s) && Unique(s) && Clean(Act(c, s, a))
    ensures Unique(Act(c, s, a))
  {
    hide Safe, Exclusive;
    if Enabled(c, s, a) && a.Send? && a.result == Acked { SendUnique(s, a.w); }
  }

  // ---------------------------------------------------------------- accounting

  /** Acknowledged sends: counted already, or waiting in an open transaction. */
  ghost predicate Counted(s: State)
  {
    s.timeouts == 0 ==> s.inFlight == multiset{} && (s.crashes == 0 ==> |s.log| == s.published + SumMap(Pending(s.workers)))
  }

  /** Where every message of the log went: flagged, skipped, rolled back, or still pending. */
  ghost predicate Balanced(s: State)
  {
    s.timeouts == 0 ==> |s.log| == |s.flagged| + s.updateSkipped + s.rolledBack + SumMap(Pending(s.workers))
  }

  /** Repeats of a row are counted one by one as long as `seen` was never emptied. */
  ghost predicate RepeatsCounted(s: State)
  {
    && (forall w :: w in s.workers && s.workers[w].Busy? && s.workers[w].publishedIds == [] ==> s.workers[w].republished == 0)
    && (s.timeouts == 0 && !s.cleared ==>
         && s.seen == LoggedIds(s.log)
         && |s.log| == |s.seen| + s.republished + SumMap(PendingRepeats(s.workers)))
  }

  lemma PendingUpdate(workers: map<nat, Phase>, w: nat, p: Phase)
    ensures Pending(workers[w := p]) == Pending(workers)[w := if p.Busy? then |p.publishedIds| else 0]
    ensures PendingRepeats(workers[w := p]) == PendingRepeats(workers)[w := if p.Busy? then p.republished else 0]
    ensures SumMap(Pending(workers[w := p])) ==
            SumMap(Pending(workers)) - (if w in workers && workers[w].Busy? then |workers[w].publishedIds| else 0)
            + if p.Busy? then |p.publishedIds| else 0
    ensures SumMap(PendingRepeats(workers[w := p])) ==
            SumMap(PendingRepeats(workers)) - (if w in workers && workers[w].Busy? then workers[w].republished else 0)
            + if p.Busy? then p.republished else 0
  {
    assert Pending(workers[w := p]) == Pending(workers)[w := if p.Busy? then |p.publishedIds| else 0];
    assert PendingRepeats(workers[w := p]) == PendingRepeats(workers)[w := if p.Busy? then p.republished else 0];
    SumUpdate(Pending(workers), w, if p.Busy? then |p.publishedIds| else 0);
    SumUpdate(PendingRepeats(workers), w, if p.Busy? then p.republished else 0);
  }

  lemma IdleSums(workers: map<nat, Phase>)
    requires forall w :: w in workers ==> workers[w].Idle?
    ensures SumMap(Pending(workers)) == 0 && SumMap(PendingRepeats(workers)) == 0
  {
    SumZero(Pending(workers));
    SumZero(PendingRepeats(workers));
  }

  /** Flags set by a transaction are new: its rows are distinct and were not flagged. */
  lemma FlagsAreNew(s: State, w: nat)
    requires Safe(s) && Exclusive(s) && w in s.workers && s.workers[w].Busy?
    ensures |s.flagged + Elements(s.workers[w].publishedIds)| == |s.flagged| + |s.workers[w].publishedIds|
  {
    var p := s.workers[w];
    assert PhaseOk(s, w);
    assert Ascending(p.publishedIds);
    assert Elements(p.publishedIds) <= Elements(p.batch);
    AscendingSize(p.publishedIds);
  }

  lemma AckAccounts(s: State, w: nat)
    requires w in s.workers && s.workers[w].Busy? && s.workers[w].next < |s.workers[w].batch|
    ensures Counted(s) ==> Counted(AfterSend(s, w, Acked))
    ensures Balanced(s) ==> Balanced(AfterSend(s, w, Acked))
  {
    PendingUpdate(s.workers, w, AfterSend(s, w, Acked).workers[w]);
    hide Pending, PendingRepeats;
  }

  lemma AckRepeats(s: State, w: nat)
    requires w in s.workers && s.workers[w].Busy? && s.workers[w].next < |s.workers[w].batch|
    requires RepeatsCounted(s)
    ensures RepeatsCounted(AfterSend(s, w, Acked))
  {
    var p := s.workers[w];
    var id := p.batch[p.next];
    PendingUpdate(s.workers, w, AfterSend(s, w, Acked).workers[w]);
    LoggedAppend(s.log, Entry(w, id));
    hide Pending, PendingRepeats, LoggedIds;
    if id in s.seen { assert s.seen + {id} == s.seen; }
  }

  lemma SendAccounts(s: State, w: nat, result: SendResult)
    requires w in s.workers && s.workers[w].Busy? && s.workers[w].next < |s.workers[w].batch|
    ensures Counted(s) ==> Counted(AfterSend(s, w, result))
    ensures Balanced(s) ==> Balanced(AfterSend(s, w, result))
    ensures RepeatsCounted(s) ==> RepeatsCounted(AfterSend(s, w, result))
  {
    if result == Acked {
      AckAccounts(s, w);
      if RepeatsCounted(s) { AckRepeats(s, w); }
      hide Counted, Balanced, RepeatsCounted;
    } else {
      PendingUpdate(s.workers, w, s.workers[w].(failed := true));
      hide Pending, PendingRepeats, LoggedIds;
    }
  }

  lemma FinishBalances(s: State, w: nat, end: End)
    requires w in s.workers && s.workers[w].Busy? && Safe(s) && Exclusive(s) && Balanced(s)
    ensures Balanced(AfterFinish(s, w, end))
  {
    PendingUpdate(s.workers, w, Idle);
    FlagsAreNew(s, w);
    hide Pending, PendingRepeats, Safe, Exclusive, Elements;
  }

  lemma FinishAccounts(s: State, w: nat, end: End)
    requires w in s.workers && s.workers[w].Busy?
    ensures Counted(s) ==> Counted(AfterFinish(s, w, end))
    ensures Safe(s) && Exclusive(s) && Balanced(s) ==> Balanced(AfterFinish(s, w, end))
    ensures RepeatsCounted(s) ==> RepeatsCounted(AfterFinish(s, w, end))
  {
    if Safe(s) && Exclusive(s) && Balanced(s) { FinishBalances(s, w, end); }
    hide Balanced, Safe, Exclusive;
    PendingUpdate(s.workers, w, Idle);
    hide Pending, PendingRepeats, LoggedIds, Elements;
  }

  lemma SelectAccounts(c: Config, s: State, w: nat, batch: seq<int>)
    requires Enabled(c, s, Select(w, batch))
    ensures var s' := Act(c, s, Select(w, batch));
            && (Counted(s) ==> Counted(s')) && (Balanced(s) ==> Balanced(s')) && (RepeatsCounted(s) ==> RepeatsCounted(s'))
  {
    PendingUpdate(s.workers, w, Busy(batch, 0, [], false, 0));
    hide Pending, PendingRepeats, LoggedIds;
  }

  lemma CrashAccounts(c: Config, s: State)
    ensures var s' := Act(c, s, Crash);
            && (Counted(s) ==> Counted(s')) && (Balanced(s) ==> Balanced(s')) && (RepeatsCounted(s) ==> RepeatsCounted(s'))
  {
    IdleSums(map w | w in s.workers :: Idle);
    hide Pending, PendingRepeats, LoggedIds;
  }

  lemma ActAccounts(c: Config, s: State, a: Action)
    requires c.skipLocked ==> Safe(s) && Exclusive(s)
    ensures Counted(s) ==> Counted(Act(c, s, a))
    ensures c.skipLocked && Balanced(s) && Counted(s) ==> Balanced(Act(c, s, a))
    ensures RepeatsCounted(s) && Counted(s) ==> RepeatsCounted(Act(c, s, a))
  {
    if Enabled(c, s, a) {
      match a
      case Insert(id) =>
      case Select(w, batch) => SelectAccounts(c, s, w, batch);
      case Send(w, result) => SendAccounts(s, w, result);
      case Deliver(e) => hide SumMap, Pending, PendingRepeats, LoggedIds;
      case Finish(w, end) => FinishAccounts(s, w, end);
      case Crash => CrashAccounts(c, s);
    }
  }

  // ---------------------------------------------------------------- runs

  ghost predicate Inv(c: Config, s: State)
  {
    && Safe(s) && Growing(s) && Counted(s) && RepeatsCounted(s)
    && (Clean(s) ==> Once(s))
    && (c.skipLocked ==> Exclusive(s) && Balanced(s) && (Clean(s) ==> Unique(s)))
  }

  lemma InitialInv(c: Config, s: State)
    requires Initial(s)
    ensures Inv(c, s)
  {
    IdleSums(s.workers);
  }

  lemma ActKeepsInv(c: Config, s: State, a: Action)
    requires Inv(c, s)
    ensures Inv(c, Act(c, s, a))
  {
    hide Act, Safe, Growing, Counted, RepeatsCounted, Once, Exclusive, Balanced, Unique, Clean;
    ActIsSafe(c, s, a);
    CleanBefore(c, s, a);
    if c.skipLocked { ActIsExclusive(c, s, a); }
    ActAccounts(c, s, a);
    if Clean(Act(c, s, a)) {
      ActOnce(c, s, a);
      if c.skipLocked { ActUnique(c, s, a); }
    }
  }

  /** Every interleaving of N workers keeps all of the above. */
  lemma {:induction false} RunInv(c: Config, s: State, actions: seq<Action>)
    requires Initial(s)
    ensures Inv(c, Exec(c, s, actions))
  {
    if actions == [] {
      InitialInv(c, s);
    } else {
      hide Inv, Act;
      RunInv(c, s, actions[..|actions| - 1]);
      ActKeepsInv(c, Exec(c, s, actions[..|actions| - 1]), actions[|actions| - 1]);
    }
  }

  /** Rows stay, workers stay, flags are never taken back, the log only grows. */
  lemma {:induction false} NothingReverts(c: Config, s: State, actions: seq<Action>, n: nat)
    requires n <= |actions|
    ensures var before, after := Exec(c, s, actions[..n]), Exec(c, s, actions);
            && before.rows <= after.rows && before.flagged <= after.flagged && before.log <= after.log
            && before.workers.Keys == after.workers.Keys
    decreases |actions|
  {
    if n == |actions| {
      assert actions[..n] == actions;
    } else {
      var init := actions[..|actions| - 1];
      NothingReverts(c, s, init, n);
      assert init[..n] == actions[..n];
      hide Act;
      ActGrows(c, Exec(c, s, init), actions[|actions| - 1]);
    }
  }

  predicate Grown(s: State, s': State)
  {
    s.rows <= s'.rows && s.flagged <= s'.flagged && s.log <= s'.log && s.workers.Keys == s'.workers.Keys
  }

  lemma ActGrows(c: Config, s: State, a: Action)
    ensures Grown(s, Act(c, s, a))
  {
    if Enabled(c, s, a) {
      hide Pending, SumMap, Candidates, IsBatch, Elements;
      match a
      case Insert(_) =>
      case Select(_, _) =>
      case Send(w, result) => SendGrows(s, w, result);
      case Deliver(_) =>
      case Finish(w, end) => FinishGrows(s, w, end);
      case Crash =>
    }
  }

  lemma SendGrows(s: State, w: nat, result: SendResult)
    requires w in s.workers && s.workers[w].Busy? && s.workers[w].next < |s.workers[w].batch|
    ensures Grown(s, AfterSend(s, w, result))
  {
  }

  lemma FinishGrows(s: State, w: nat, end: End)
    requires w in s.workers && s.workers[w].Busy?
    ensures Grown(s, AfterFinish(s, w, end))
  {
    hide Elements;
  }

  /** SKIP LOCKED, any interleaving: transactions hold disjoint, unflagged, ascending batches and have
      published a prefix of them; a flagged row is in the log. */
  lemma LocksAreDisjoint(c: Config, s0: State, actions: seq<Action>)
    requires Initial(s0) && c.skipLocked
    ensures var s := Exec(c, s0, actions);
            && s.flagged <= LoggedIds(s.log)
            && (forall v, w :: v in s.workers && w in s.workers && v != w && s.workers[v].Busy? && s.workers[w].Busy? ==>
                 Elements(s.workers[v].batch) !! Elements(s.workers[w].batch))
            && (forall w :: w in s.workers && s.workers[w].Busy? ==>
                 Ascending(s.workers[w].batch) && s.workers[w].publishedIds <= s.workers[w].batch
                 && Elements(s.workers[w].batch) !! s.flagged)
  {
    RunInv(c, s0, actions);
    var s := Exec(c, s0, actions);
    forall w | w in s.workers && s.workers[w].Busy?
      ensures Ascending(s.workers[w].batch) && s.workers[w].publishedIds <= s.workers[w].batch
    {
      assert PhaseOk(s, w);
    }
    hide Exec, Elements, LoggedIds, PhaseOk;
  }

  /** SKIP LOCKED and a clean run: each row is in the log at most once. */
  lemma AtMostOnce(c: Config, s0: State, actions: seq<Action>)
    requires Initial(s0) && c.skipLocked && Clean(Exec(c, s0, actions))
    ensures var log := Exec(c, s0, actions).log;
            forall i, j :: 0 <= i < j < |log| ==> log[i].id != log[j].id
  {
    RunInv(c, s0, actions);
  }

  /** The positions of a row in the log. */
  ghost function Copies(log: seq<Entry>, id: int): set<int>
  {
    set i | 0 <= i < |log| && log[i].id == id
  }

  /** Without locking a clean run still logs a row at most once per worker: at most N times, and at
      least once as soon as it is flagged. */
  lemma AtMostNTimes(c: Config, s0: State, actions: seq<Action>, id: int)
    requires Initial(s0) && Clean(Exec(c, s0, actions))
    ensures var s := Exec(c, s0, actions);
            && |Copies(s.log, id)| <= |s0.workers|
            && (id in s.flagged ==> 1 <= |Copies(s.log, id)|)
            && (forall i, j :: i in Copies(s.log, id) && j in Copies(s.log, id) && s.log[i].worker == s.log[j].worker ==> i == j)
  {
    RunInv(c, s0, actions);
    NothingReverts(c, s0, actions, 0);
    assert actions[..0] == [];
    var s := Exec(c, s0, actions);
    assert s0.workers.Keys == s.workers.Keys;
    hide Exec, Safe, Counted, RepeatsCounted, Exclusive, Balanced, Unique;
    var copies := Copies(s.log, id);
    var sender := map i | i in copies :: s.log[i].worker;
    forall i | i in sender
      ensures sender[i] in s.workers.Keys
    {
      assert s.log[i] in s.log;
    }
    forall i, j | i in sender && j in sender && sender[i] == sender[j]
      ensures i == j
    {
      assert s.log[i] == s.log[j];
    }
    Pigeonhole(sender, s.workers.Keys);
    assert sender.Keys == copies && |sender| == |sender.Keys|;
    assert |s0.workers| == |s0.workers.Keys|;
    if id in s.flagged { FlaggedIsLogged(c, s, id); }
  }

  lemma FlaggedIsLogged(c: Config, s: State, id: int)
    requires Inv(c, s) && id in s.flagged
    ensures 1 <= |Copies(s.log, id)|
  {
    assert id in LoggedIds(s.log);
    var e :| e in s.log && e.id == id;
    var i :| 0 <= i < |s.log| && s.log[i] == e;
    assert i in Copies(s.log, id);
  }

  /** When no worker is inside a transaction and no send timed out, the books balance: with SKIP
      LOCKED every message is a flagged row, a skipped update or a rollback; with or without it the
      published counter is the log length, unless a process died; and unless `seen` was emptied the
      republished counter is exactly the number of duplicates in the log. */
  lemma BooksBalance(c: Config, s0: State, actions: seq<Action>)
    requires Initial(s0)
    requires var s := Exec(c, s0, actions); s.timeouts == 0 && forall w :: w in s.workers ==> s.workers[w].Idle?
    ensures var s := Exec(c, s0, actions);
            && (c.skipLocked ==> |s.log| == |s.flagged| + s.updateSkipped + s.rolledBack)
            && (s.crashes == 0 ==> s.published == |s.log|)
            && (!s.cleared ==> s.republished == |s.log| - |LoggedIds(s.log)|)
  {
    RunInv(c, s0, actions);
    IdleSums(Exec(c, s0, actions).workers);
    hide Exec, Pending, PendingRepeats, LoggedIds, Safe, Exclusive, Once, Unique;
  }

  // ---------------------------------------------------------------- de-duplicating the log

  /** First occurrences, in order: what a consumer that drops repeats sees. */
  function Dedup(log: seq<Entry>): seq<int>
  {
    if log == [] then []
    else
      var before, id := Dedup(log[..|log| - 1]), log[|log| - 1].id;
      if id in before then before else before + [id]
  }

  lemma {:induction false} DedupIds(log: seq<Entry>)
    ensures Elements(Dedup(log)) == LoggedIds(log)
    ensures forall i, j :: 0 <= i < j < |Dedup(log)| ==> Dedup(log)[i] != Dedup(log)[j]
  {
    if log != [] {
      var n := |log| - 1;
      DedupIds(log[..n]);
      assert log == log[..n] + [log[n]];
      LoggedAppend(log[..n], log[n]);
    }
  }

  ghost predicate FirstAt(log: seq<Entry>, i: nat, id: int)
  {
    i < |log| && log[i].id == id && forall k :: 0 <= k < i ==> log[k].id != id
  }

  /** The rows keep the order in which they were first published. */
  lemma {:induction false} DedupOrder(log: seq<Entry>, a: nat, b: nat, i: nat, j: nat)
    requires a < b < |Dedup(log)| && FirstAt(log, i, Dedup(log)[a]) && FirstAt(log, j, Dedup(log)[b])
    ensures i < j
  {
    var n := |log| - 1;
    var before := Dedup(log[..n]);
    DedupIds(log[..n]);
    hide Dedup;
    assert Dedup(log) == if log[n].id in before then before else before + [log[n].id] by { DedupStep(log); }
    if b < |before| {
      assert Dedup(log)[b] in Elements(before) && Dedup(log)[a] in Elements(before);
      FirstIsEarlier(log, n, i, Dedup(log)[a]);
      FirstIsEarlier(log, n, j, Dedup(log)[b]);
      DedupOrder(log[..n], a, b, i, j);
    } else {
      assert Dedup(log)[a] in Elements(before);
      FirstIsEarlier(log, n, i, Dedup(log)[a]);
      forall k | 0 <= k < n
        ensures log[k].id in Elements(before)
      {
        assert log[..n][k] in log[..n];
      }
    }
  }

  lemma DedupStep(log: seq<Entry>)
    requires log != []
    ensures var before, id := Dedup(log[..|log| - 1]), log[|log| - 1].id;
            Dedup(log) == if id in before then before else before + [id]
  {
  }

  lemma FirstIsEarlier(log: seq<Entry>, n: nat, i: nat, id: int)
    requires n <= |log| && FirstAt(log, i, id) && id in LoggedIds(log[..n])
    ensures i < n && FirstAt(log[..n], i, id)
  {
    var e :| e in log[..n] && e.id == id;
    var k :| 0 <= k < n && log[..n][k] == e;
  }

  /** When every row is flagged, de-duplicating the log gives each row exactly once, however often
      rows were sent again. */
  lemma EachRowOnce(c: Config, s0: State, actions: seq<Action>)
    requires Initial(s0)
    requires var s := Exec(c, s0, actions); s.flagged == s.rows
    ensures var s := Exec(c, s0, actions);
            Elements(Dedup(s.log)) == s.rows && |Dedup(s.log)| == |s.rows|
  {
    RunInv(c, s0, actions);
    var s := Exec(c, s0, actions);
    DedupIds(s.log);
    assert LoggedIds(s.log) == s.rows;
    DistinctSize(Dedup(s.log));
  }

  lemma {:induction false} DistinctSize(ids: seq<int>)
    requires forall i, j :: 0 <= i < j < |ids| ==> ids[i] != ids[j]
    ensures |Elements(ids)| == |ids|
  {
    if ids != [] {
      var n := |ids| - 1;
      DistinctSize(ids[..n]);
      assert Elements(ids) == Elements(ids[..n]) + {ids[n]};
    }
  }
}
