/** The body of `OutboxWorker.poll` as the program runs it, while other workers, decisions and the broker
    move between its steps. Whatever they do, it is a run of the protocol of module Outbox in which this
    worker's own actions are: select, sends up to the first failure, finish. */
module OutboxWorker {
  import opened Outbox

  lemma ExecAppend(c: Config, s: State, actions: seq<Action>, a: Action)
    ensures Exec(c, s, actions + [a]) == Act(c, Exec(c, s, actions), a)
  {
    assert (actions + [a])[..|actions|] == actions;
  }

  lemma {:induction false} ExecSplit(c: Config, s: State, a: seq<Action>, b: seq<Action>)
    ensures Exec(c, s, a + b) == Exec(c, Exec(c, s, a), b)
    decreases |b|
  {
    if b == [] {
      assert a + b == a;
    } else {
      var n := |b| - 1;
      ExecSplit(c, s, a, b[..n]);
      assert (a + b)[..|a + b| - 1] == a + b[..n];
      hide Act;
    }
  }

  /** How many rows of a batch are sent: up to and including the first that is not acknowledged. */
  function SentCount(answers: seq<SendResult>): (n: nat)
    ensures n <= |answers|
  {
    if answers == [] then 0
    else if answers[0] != Acked then 1
    else 1 + SentCount(answers[1..])
  }

  function Sends(w: nat, answers: seq<SendResult>, n: nat): (script: seq<Action>)
    requires n <= |answers|
    ensures |script| == n
  {
    if n == 0 then [] else Sends(w, answers, n - 1) + [Send(w, answers[n - 1])]
  }

  /** What one poll does, by itself. */
  function PollScript(w: nat, batch: seq<int>, answers: seq<SendResult>, end: End): seq<Action>
  {
    if batch == [] then [Select(w, batch)]
    else [Select(w, batch)] + Sends(w, answers, SentCount(answers)) + [Finish(w, end)]
  }

  lemma {:induction false} SentUntil(answers: seq<SendResult>, i: nat)
    requires i < |answers| && answers[i] != Acked && forall k :: 0 <= k < i ==> answers[k] == Acked
    ensures SentCount(answers) == i + 1
  {
    if i > 0 { SentUntil(answers[1..], i - 1); }
  }

  lemma {:induction false} SentAll(answers: seq<SendResult>)
    requires forall k :: 0 <= k < |answers| ==> answers[k] == Acked
    ensures SentCount(answers) == |answers|
  {
    if answers != [] { SentAll(answers[1..]); }
  }

  // ---------------------------------------------------------------- what the others do

  /** An action of someone else, while this worker's process lives. */
  predicate Foreign(a: Action, w: nat)
  {
    match a
    case Insert(_) => true
    case Deliver(_) => true
    case Select(v, _) => v != w
    case Send(v, _) => v != w
    case Finish(v, _) => v != w
    case Crash => false
  }

  predicate AllForeign(actions: seq<Action>, w: nat)
  {
    forall a :: a in actions ==> Foreign(a, w)
  }

  /** The actions of a run that are this worker's. */
  function Mine(actions: seq<Action>, w: nat): seq<Action>
  {
    if actions == [] then []
    else
      var a := actions[|actions| - 1];
      Mine(actions[..|actions| - 1], w) + if Foreign(a, w) then [] else [a]
  }

  lemma MineAppend(actions: seq<Action>, a: Action, w: nat)
    ensures Mine(actions + [a], w) == Mine(actions, w) + if Foreign(a, w) then [] else [a]
  {
    assert (actions + [a])[..|actions|] == actions;
  }

  lemma {:induction false} MineForeign(actions: seq<Action>, others: seq<Action>, w: nat)
    requires AllForeign(others, w)
    ensures Mine(actions + others, w) == Mine(actions, w)
    decreases |others|
  {
    if others == [] {
      assert actions + others == actions;
    } else {
      var n := |others| - 1;
      assert others[n] in others;
      assert forall a :: a in others[..n] ==> a in others;
      MineForeign(actions, others[..n], w);
      assert actions + others == (actions + others[..n]) + [others[n]];
      MineAppend(actions + others[..n], others[n], w);
    }
  }

  /** Nobody else touches this worker's transaction. */
  lemma ForeignKeeps(c: Config, s: State, a: Action, w: nat)
    requires Foreign(a, w) && w in s.workers
    ensures w in Act(c, s, a).workers && Act(c, s, a).workers[w] == s.workers[w]
  {
    hide Candidates, Elements;
  }

  class Worker {
    const config: Config
    const me: nat
    // the table, the transactions and the broker, shared with the other workers
    var rows: set<int>
    var flagged: set<int>
    var transactions: map<nat, Phase>
    var log: seq<Entry>
    var inFlight: multiset<Entry>
    // the process
    var seen: set<int>
    var published: nat
    var republished: int
    var updateSkipped: int
    var publishErrors: nat
    // what kind of run this was
    var rolledBack: int
    var timeouts: nat
    var crashes: nat
    var cleared: bool

    function Abs(): State
      reads this
    {
      State(rows, flagged, transactions, log, inFlight, seen, published, republished, updateSkipped, publishErrors,
            rolledBack, timeouts, crashes, cleared)
    }

    constructor (c: Config, w: nat, workers: set<nat>, committed: set<int>)
      requires w in workers
      ensures Abs().rows == committed && Abs().workers.Keys == workers && Initial(Abs()) && config == c && me == w
    {
      config, me := c, w;
      rows, flagged, log, inFlight, seen := committed, {}, [], multiset{}, {};
      transactions := map v | v in workers :: Idle;
      published, republished, updateSkipped, publishErrors := 0, 0, 0, 0;
      rolledBack, timeouts, crashes, cleared := 0, 0, 0, false;
    }

    method InstallShared(s: State)
      modifies this
      ensures Abs() == old(Abs()).(rows := s.rows, flagged := s.flagged, workers := s.workers, log := s.log, inFlight := s.inFlight)
    {
      rows, flagged, transactions, log, inFlight := s.rows, s.flagged, s.workers, s.log, s.inFlight;
    }

    method InstallCounters(s: State)
      modifies this
      ensures Abs() == old(Abs()).(seen := s.seen, published := s.published, republished := s.republished,
                                   updateSkipped := s.updateSkipped, publishErrors := s.publishErrors)
    {
      seen, published, republished, updateSkipped, publishErrors :=
        s.seen, s.published, s.republished, s.updateSkipped, s.publishErrors;
    }

    method InstallKind(s: State)
      modifies this
      ensures Abs() == old(Abs()).(rolledBack := s.rolledBack, timeouts := s.timeouts, crashes := s.crashes, cleared := s.cleared)
    {
      rolledBack, timeouts, crashes, cleared := s.rolledBack, s.timeouts, s.crashes, s.cleared;
    }

    method Install(s: State)
      modifies this
      ensures Abs() == s
    {
      InstallShared(s);
      InstallCounters(s);
      InstallKind(s);
      ghost var t := Abs();
      assert t == s;
    }

    /** What happens between two steps of this worker. */
    method Others(actions: seq<Action>)
      requires me in transactions && AllForeign(actions, me)
      modifies this
      ensures Abs() == Exec(config, old(Abs()), actions)
      ensures me in transactions && transactions[me] == old(transactions[me])
    {
      ghost var before := Abs();
      var s := Abs();
      hide Enabled, Move;
      for i := 0 to |actions|
        invariant s == Exec(config, before, actions[..i])
        invariant me in s.workers && s.workers[me] == before.workers[me]
      {
        assert actions[i] in actions && actions[..i + 1] == actions[..i] + [actions[i]];
        ExecAppend(config, before, actions[..i], actions[i]);
        ForeignKeeps(config, s, actions[i], me);
        if Enabled(config, s, actions[i]) {
          s := Move(config, s, actions[i]);
        }
      }
      assert actions[..|actions|] == actions;
      Install(s);
    }

    /** One row's message is acknowledged, fails, or times out. */
    method SendRow(id: int, answer: SendResult) returns (repeat: bool)
      requires me in transactions && transactions[me].Busy? && !transactions[me].failed
      requires transactions[me].next < |transactions[me].batch| && id == transactions[me].batch[transactions[me].next]
      modifies this
      ensures Abs() == AfterSend(old(Abs()), me, answer)
      ensures me in transactions
      ensures var p := old(transactions[me]);
              transactions[me] == if answer == Acked
                                  then Busy(p.batch, p.next + 1, p.publishedIds + [id], false, p.republished + if repeat then 1 else 0)
                                  else p.(failed := true)
    {
      repeat := false;
      var p := transactions[me];
      if answer == Acked {
        repeat := id in seen;
        Acknowledge(id, p.(next := p.next + 1, publishedIds := p.publishedIds + [id], republished := p.republished + if repeat then 1 else 0));
      } else {
        GiveUp(id, answer, p.(failed := true));
      }
    }

    method Acknowledge(id: int, p: Phase)
      modifies this
      ensures Abs() == old(Abs()).(workers := old(transactions)[me := p], log := old(log) + [Entry(me, id)], seen := old(seen) + {id})
    {
      log := log + [Entry(me, id)];
      seen := seen + {id};
      transactions := transactions[me := p];
    }

    method GiveUp(id: int, answer: SendResult, p: Phase)
      modifies this
      ensures Abs() == var late := answer == TimedOut;
                       old(Abs()).(workers := old(transactions)[me := p], publishErrors := old(publishErrors) + 1,
                                   inFlight := if late then old(inFlight) + multiset{Entry(me, id)} else old(inFlight),
                                   timeouts := old(timeouts) + if late then 1 else 0)
    {
      if answer == TimedOut {
        inFlight := inFlight + multiset{Entry(me, id)};
        timeouts := timeouts + 1;
      }
      publishErrors := publishErrors + 1;
      transactions := transactions[me := p];
    }

    /** Bound `seen`; the transaction ends. */
    method Leave()
      modifies this
      ensures Abs() == old(Abs()).(workers := old(transactions)[me := Idle],
                                   seen := if |old(seen)| > SEEN_LIMIT then {} else old(seen),
                                   cleared := old(cleared) || |old(seen)| > SEEN_LIMIT)
    {
      transactions := transactions[me := Idle];
      if |seen| > SEEN_LIMIT {
        seen, cleared := {}, true;
      }
    }

    method CountPublished(n: nat, repeats: int)
      modifies this
      ensures Abs() == old(Abs()).(published := old(published) + n, republished := old(republished) + repeats)
    {
      published, republished := published + n, republished + repeats;
    }

    /** Update the flags, skip the update, or fail. */
    method Conclude(publishedIds: seq<int>, end: End)
      modifies this
      ensures Abs() == match end
                       case Skipped => old(Abs()).(updateSkipped := old(updateSkipped) + |publishedIds|)
                       case Updated => old(Abs()).(flagged := old(flagged) + Elements(publishedIds))
                       case RolledBack => old(Abs()).(rolledBack := old(rolledBack) + |publishedIds|)
    {
      hide Elements;
      match end
      case Skipped => updateSkipped := updateSkipped + |publishedIds|;
      case RolledBack => rolledBack := rolledBack + |publishedIds|;
      case Updated => flagged := flagged + Elements(publishedIds);
    }

    /** After the loop: bound `seen`, count, then update, skip or fail. */
    method FinishPoll(publishedIds: seq<int>, repeats: int, end: End)
      requires me in transactions && transactions[me].Busy?
      requires transactions[me].publishedIds == publishedIds && transactions[me].republished == repeats
      modifies this
      ensures Abs() == AfterFinish(old(Abs()), me, end)
    {
      FinishSteps(Abs(), me, end);
      Leave();
      if publishedIds == [] {
        return;
      }
      hide AfterFinish, Elements;
      CountPublished(|publishedIds|, repeats);
      Conclude(publishedIds, end);
    }

    /** SELECT ... FOR UPDATE: the transaction begins. */
    method Begin(batch: seq<int>)
      requires me in transactions && transactions[me].Idle? && batch != []
      requires IsBatch(Candidates(config, Abs(), me), config.limit, batch)
      modifies this
      ensures Abs() == Act(config, old(Abs()), Select(me, batch))
      ensures me in transactions && transactions[me] == Busy(batch, 0, [], false, 0)
    {
      hide Candidates, IsBatch;
      transactions := transactions[me := Busy(batch, 0, [], false, 0)];
    }

    /** Others move, then one row is sent: a stretch of the run with one action of this worker. */
    method SendNext(batch: seq<int>, answers: seq<SendResult>, i: nat, others: seq<Action>, ghost before: State, ghost script: seq<Action>)
      returns (repeat: bool, ghost longer: seq<Action>)
      requires me in transactions && i < |batch| == |answers| && AllForeign(others, me)
      requires transactions[me].Busy? && !transactions[me].failed && transactions[me].batch == batch && transactions[me].next == i
      requires Abs() == Exec(config, before, script)
      modifies this
      ensures Abs() == Exec(config, before, longer) && Mine(longer, me) == Mine(script, me) + [Send(me, answers[i])]
      ensures me in transactions
      ensures var p := old(transactions[me]);
              transactions[me] == if answers[i] == Acked
                                  then Busy(batch, i + 1, p.publishedIds + [batch[i]], false, p.republished + if repeat then 1 else 0)
                                  else p.(failed := true)
    {
      Others(others);
      ghost var stepped := script + others;
      SendIsEnabled(config, Abs(), me, answers[i]);
      hide *;
      ExecSplit(config, before, script, others);
      MineForeign(script, others, me);
      ExecAppend(config, before, stepped, Send(me, answers[i]));
      MineAppend(stepped, Send(me, answers[i]), me);
      longer := stepped + [Send(me, answers[i])];
      repeat := SendRow(batch[i], answers[i]);
    }

    /** The poll. `batch` is what the SELECT returned, `answers` what each send came back with, `end` how
        the transaction was closed, and others[i] what happened before step i. */
    method Poll(batch: seq<int>, answers: seq<SendResult>, end: End, others: seq<seq<Action>>) returns (ghost script: seq<Action>)
      requires me in transactions && transactions[me].Idle?
      requires IsBatch(Candidates(config, Abs(), me), config.limit, batch) && |answers| == |batch| && |others| == |batch| + 1
      requires forall i :: 0 <= i < |others| ==> AllForeign(others[i], me)
      modifies this
      ensures Abs() == Exec(config, old(Abs()), script)
      ensures Mine(script, me) == PollScript(me, batch, answers, end)
      ensures forall id :: Free(config, old(Abs()), me, id) && id !in batch ==> |batch| == config.limit && forall b :: b in batch ==> b < id
      ensures end == Updated ==> forall i :: 0 <= i < |batch| && AckedUpTo(answers, i) ==> batch[i] in flagged
    {
      ghost var before := Abs();
      OldestFirst(config, before, me, batch);
      hide Free, AckedUpTo;
      script := [Select(me, batch)];
      OnlySelect(config, before, me, batch);
      if batch == [] {
        return;
      }
      Begin(batch);
      LoopBegins(batch, answers, before, script);
      hide Exec, Mine, PollScript, Sends, SentCount, Candidates, IsBatch, InLoop, Foreign;
      var publishedIds, repeats;
      publishedIds, repeats, script := SendLoop(batch, answers, others[..|batch|], before, script);
      hide *;
      script := Close(batch, publishedIds, repeats, end, others[|batch|], before, script);
      ScriptEnds(me, batch, answers, end);
      AckedArePublished(batch, answers, |publishedIds|);
    }

    /** After i acknowledged sends of the batch. */
    ghost predicate InLoop(batch: seq<int>, answers: seq<SendResult>, i: nat, publishedIds: seq<int>, repeats: nat, before: State, script: seq<Action>)
      reads this
    {
      && i <= |batch| == |answers| && publishedIds == batch[..i] && (forall k :: 0 <= k < i ==> answers[k] == Acked)
      && me in transactions && transactions[me] == Busy(batch, i, publishedIds, false, repeats)
      && Abs() == Exec(config, before, script) && Mine(script, me) == [Select(me, batch)] + Sends(me, answers, i)
    }

    /** The loop has ended: all of the batch acknowledged, or one send failed. */
    ghost predicate Sent(batch: seq<int>, answers: seq<SendResult>, publishedIds: seq<int>, repeats: nat, before: State, script: seq<Action>)
      reads this
    {
      && |publishedIds| <= |batch| == |answers| && publishedIds == batch[..|publishedIds|]
      && (|publishedIds| < |batch| ==> answers[|publishedIds|] != Acked)
      && me in transactions && transactions[me].Busy? && (transactions[me].failed || transactions[me].next >= |transactions[me].batch|)
      && transactions[me].publishedIds == publishedIds && transactions[me].republished == repeats
      && Abs() == Exec(config, before, script) && Mine(script, me) == [Select(me, batch)] + Sends(me, answers, SentCount(answers))
    }

    lemma LoopEnds(batch: seq<int>, answers: seq<SendResult>, publishedIds: seq<int>, repeats: nat, before: State, script: seq<Action>)
      requires InLoop(batch, answers, |batch|, publishedIds, repeats, before, script)
      ensures Sent(batch, answers, publishedIds, repeats, before, script)
    {
      SentAll(answers);
      hide Exec, Mine, Sends, SentCount;
    }

    /** One pass: the next row is sent; an acknowledgement goes on, anything else ends the loop. */
    method SendOne(batch: seq<int>, answers: seq<SendResult>, i: nat, others: seq<Action>, publishedIds: seq<int>, repeats: nat,
                   ghost before: State, ghost script: seq<Action>)
      returns (publishedIds': seq<int>, repeats': nat, ghost longer: seq<Action>)
      requires i < |batch| && AllForeign(others, me) && InLoop(batch, answers, i, publishedIds, repeats, before, script)
      modifies this
      ensures if answers[i] == Acked then InLoop(batch, answers, i + 1, publishedIds', repeats', before, longer)
              else Sent(batch, answers, publishedIds', repeats', before, longer)
    {
      hide Exec, Mine, Sends, SentCount, Foreign;
      var repeat;
      repeat, longer := SendNext(batch, answers, i, others, before, script);
      OneMoreSend(me, batch, answers, i);
      if answers[i] != Acked {
        SentUntil(answers, i);
        return publishedIds, repeats, longer;
      }
      return publishedIds + [batch[i]], if repeat then repeats + 1 else repeats, longer;
    }

    /** The loop over the batch: sends up to the first that is not acknowledged. */
    method SendLoop(batch: seq<int>, answers: seq<SendResult>, others: seq<seq<Action>>, ghost before: State, ghost begun: seq<Action>)
      returns (publishedIds: seq<int>, repeats: nat, ghost script: seq<Action>)
      requires |others| == |batch| && (forall i :: 0 <= i < |others| ==> AllForeign(others[i], me))
      requires InLoop(batch, answers, 0, [], 0, before, begun) && |answers| == |batch|
      modifies this
      ensures Sent(batch, answers, publishedIds, repeats, before, script)
    {
      hide *;
      publishedIds, repeats, script := [], 0, begun;
      for i := 0 to |batch|
        invariant InLoop(batch, answers, i, publishedIds, repeats, before, script)
      {
        publishedIds, repeats, script := SendOne(batch, answers, i, others[i], publishedIds, repeats, before, script);
        if answers[i] != Acked {
          return;
        }
      }
      LoopEnds(batch, answers, publishedIds, repeats, before, script);
    }

    lemma LoopBegins(batch: seq<int>, answers: seq<SendResult>, before: State, script: seq<Action>)
      requires me in transactions && transactions[me] == Busy(batch, 0, [], false, 0) && |answers| == |batch|
      requires Abs() == Exec(config, before, script) && Mine(script, me) == [Select(me, batch)]
      ensures InLoop(batch, answers, 0, [], 0, before, script)
    {
      hide Exec, Mine;
    }

    /** Others move once more, then the transaction ends. */
    method Close(batch: seq<int>, publishedIds: seq<int>, repeats: int, end: End, others: seq<Action>, ghost before: State,
               ghost script: seq<Action>) returns (ghost longer: seq<Action>)
      requires me in transactions && AllForeign(others, me)
      requires transactions[me].Busy? && (transactions[me].failed || transactions[me].next >= |transactions[me].batch|)
      requires transactions[me].publishedIds == publishedIds && transactions[me].republished == repeats
      requires Abs() == Exec(config, before, script)
      modifies this
      ensures Abs() == Exec(config, before, longer) && Mine(longer, me) == Mine(script, me) + [Finish(me, end)]
      ensures end == Updated ==> forall id :: id in publishedIds ==> id in flagged
    {
      Others(others);
      ghost var stepped := script + others;
      FinishIsEnabled(config, Abs(), me, end);
      FinishFlags(Abs(), me);
      hide *;
      ExecSplit(config, before, script, others);
      MineForeign(script, others, me);
      ExecAppend(config, before, stepped, Finish(me, end));
      MineAppend(stepped, Finish(me, end), me);
      longer := stepped + [Finish(me, end)];
      FinishPoll(publishedIds, repeats, end);
    }
  }

  /** Every answer up to row i was an acknowledgement. */
  predicate AckedUpTo(answers: seq<SendResult>, i: int)
  {
    forall k :: 0 <= k <= i && k < |answers| ==> answers[k] == Acked
  }

  lemma AckedArePublished(batch: seq<int>, answers: seq<SendResult>, n: nat)
    requires n <= |batch| == |answers| && (n < |batch| ==> answers[n] != Acked)
    ensures forall i :: 0 <= i < |batch| && AckedUpTo(answers, i) ==> batch[i] in batch[..n]
  {
    forall i | 0 <= i < |batch| && AckedUpTo(answers, i)
      ensures batch[i] in batch[..n]
    {
      assert i < n;
      assert batch[..n][i] == batch[i];
    }
  }

  lemma FinishFlags(s: State, w: nat)
    requires w in s.workers && s.workers[w].Busy?
    ensures forall id :: id in s.workers[w].publishedIds ==> id in AfterFinish(s, w, Updated).flagged
  {
  }

  /** The end of a transaction, step by step. */
  lemma FinishSteps(s: State, w: nat, end: End)
    requires w in s.workers && s.workers[w].Busy?
    ensures var ids, n := s.workers[w].publishedIds, |s.workers[w].publishedIds|;
            var s1 := s.(workers := s.workers[w := Idle], seen := if |s.seen| > SEEN_LIMIT then {} else s.seen,
                         cleared := s.cleared || |s.seen| > SEEN_LIMIT);
            var s2 := s1.(published := s1.published + n, republished := s1.republished + s.workers[w].republished);
            AfterFinish(s, w, end) ==
            if ids == [] then s1
            else match end
              case Skipped => s2.(updateSkipped := s2.updateSkipped + n)
              case Updated => s2.(flagged := s2.flagged + Elements(ids))
              case RolledBack => s2.(rolledBack := s2.rolledBack + n)
  {
    hide Elements;
  }

  lemma SendIsEnabled(c: Config, s: State, w: nat, answer: SendResult)
    requires w in s.workers && s.workers[w].Busy? && !s.workers[w].failed && s.workers[w].next < |s.workers[w].batch|
    ensures Act(c, s, Send(w, answer)) == AfterSend(s, w, answer) && !Foreign(Send(w, answer), w)
  {
    hide AfterSend;
  }

  lemma FinishIsEnabled(c: Config, s: State, w: nat, end: End)
    requires w in s.workers && s.workers[w].Busy? && (s.workers[w].failed || s.workers[w].next >= |s.workers[w].batch|)
    ensures Act(c, s, Finish(w, end)) == AfterFinish(s, w, end) && !Foreign(Finish(w, end), w)
  {
    hide AfterFinish;
  }

  lemma OnlySelect(c: Config, s: State, w: nat, batch: seq<int>)
    ensures Exec(c, s, [Select(w, batch)]) == Act(c, s, Select(w, batch))
    ensures batch == [] ==> Act(c, s, Select(w, batch)) == s
    ensures Mine([Select(w, batch)], w) == [Select(w, batch)]
  {
    assert [Select(w, batch)][..0] == [];
    hide Enabled;
  }

  lemma OneMoreSend(w: nat, batch: seq<int>, answers: seq<SendResult>, i: nat)
    requires i < |answers|
    ensures [Select(w, batch)] + Sends(w, answers, i) + [Send(w, answers[i])] == [Select(w, batch)] + Sends(w, answers, i + 1)
  {
  }

  lemma ScriptEnds(w: nat, batch: seq<int>, answers: seq<SendResult>, end: End)
    requires batch != []
    ensures [Select(w, batch)] + Sends(w, answers, SentCount(answers)) + [Finish(w, end)] == PollScript(w, batch, answers, end)
  {
  }

  // ---------------------------------------------------------------- no row is ever stuck

  function Acks(n: nat): seq<SendResult>
  {
    seq(n, i => Acked)
  }

  predicate AllIdle(s: State)
  {
    forall v :: v in s.workers ==> s.workers[v].Idle?
  }

  lemma Member<A>(s: set<A>) returns (a: A)
    requires s != {}
    ensures a in s
  {
    a :| a in s;
  }

  lemma {:induction false} LeastId(ids: set<int>) returns (least: int)
    requires ids != {}
    ensures least in ids && forall id :: id in ids ==> least <= id
    decreases |ids|
  {
    var a := Member(ids);
    var others := ids - {a};
    assert forall id :: id in ids <==> id == a || id in others;
    if others == {} {
      least := a;
    } else {
      least := LeastId(others);
      if a < least { least := a; }
    }
  }

  /** What a poll may select always exists. */
  lemma {:induction false} BatchExists(candidates: set<int>, limit: nat) returns (batch: seq<int>)
    ensures IsBatch(candidates, limit, batch) && (candidates != {} && limit > 0 ==> batch != [])
    decreases limit
  {
    if candidates == {} || limit == 0 {
      batch := [];
    } else {
      var least := LeastId(candidates);
      var rest := BatchExists(candidates - {least}, limit - 1);
      batch := [least] + rest;
      assert forall id :: id in batch <==> id == least || id in rest;
      assert forall id :: id in rest ==> id in Elements(rest);
      assert forall j :: 0 <= j < |rest| ==> rest[j] in rest && rest[j] in candidates - {least};
    }
  }

  /** In the middle of a poll that goes well. */
  ghost predicate Midway(s: State, t: State, w: nat, batch: seq<int>, n: nat)
  {
    && n <= |batch| && t.rows == s.rows && t.flagged == s.flagged && t.workers.Keys == s.workers.Keys && w in s.workers
    && (forall v :: v in s.workers && v != w ==> t.workers[v] == s.workers[v])
    && t.workers[w].Busy? && t.workers[w].batch == batch && t.workers[w].next == n && !t.workers[w].failed
    && t.workers[w].publishedIds == batch[..n]
  }

  lemma SendGoesOn(c: Config, s: State, t: State, w: nat, batch: seq<int>, n: nat)
    requires Midway(s, t, w, batch, n) && n < |batch|
    ensures Midway(s, Act(c, t, Send(w, Acked)), w, batch, n + 1)
  {
    SendIsEnabled(c, t, w, Acked);
    hide Enabled, Move;
  }

  lemma {:induction false} SendsGoOn(c: Config, s: State, t: State, w: nat, batch: seq<int>, n: nat)
    requires Midway(s, t, w, batch, 0) && n <= |batch|
    ensures Midway(s, Exec(c, t, Sends(w, Acks(|batch|), n)), w, batch, n)
  {
    if n > 0 {
      hide Midway, Act;
      SendsGoOn(c, s, t, w, batch, n - 1);
      ExecAppend(c, t, Sends(w, Acks(|batch|), n - 1), Send(w, Acked));
      SendGoesOn(c, s, Exec(c, t, Sends(w, Acks(|batch|), n - 1)), w, batch, n - 1);
    }
  }

  /** A poll that goes well publishes its batch. */
  lemma PollPublishes(c: Config, s: State, w: nat, batch: seq<int>)
    requires AllIdle(s) && w in s.workers && batch != [] && IsBatch(Candidates(c, s, w), c.limit, batch)
    ensures var t := Exec(c, s, PollScript(w, batch, Acks(|batch|), Updated));
            t.rows == s.rows && t.flagged == s.flagged + Elements(batch) && AllIdle(t) && t.workers.Keys == s.workers.Keys
  {
    var acks, n := Acks(|batch|), |batch|;
    SentAll(acks);
    var begun := Act(c, s, Select(w, batch));
    assert Midway(s, begun, w, batch, 0);
    OnlySelect(c, s, w, batch);
    ExecSplit(c, s, [Select(w, batch)], Sends(w, acks, n));
    ExecAppend(c, s, [Select(w, batch)] + Sends(w, acks, n), Finish(w, Updated));
    ScriptEnds(w, batch, acks, Updated);
    SendsGoOn(c, s, begun, w, batch, n);
    var sent := Exec(c, begun, Sends(w, acks, n));
    FinishIsEnabled(c, sent, w, Updated);
    FinishedWell(c, s, sent, w, batch);
    hide *;
  }

  lemma FinishedWell(c: Config, s: State, t: State, w: nat, batch: seq<int>)
    requires AllIdle(s) && Midway(s, t, w, batch, |batch|) && batch != []
    ensures var t' := AfterFinish(t, w, Updated);
            t'.rows == s.rows && t'.flagged == s.flagged + Elements(batch) && AllIdle(t') && t'.workers.Keys == s.workers.Keys
  {
    assert batch[..|batch|] == batch;
    hide Elements;
  }

  lemma IdleCandidates(c: Config, s: State, w: nat)
    requires AllIdle(s)
    ensures Candidates(c, s, w) == s.rows - s.flagged
  {
  }

  lemma {:induction false} RestIsPublished(c: Config, s: State, w: nat) returns (more: seq<Action>)
    requires AllIdle(s) && w in s.workers && c.limit > 0 && s.flagged <= s.rows
    ensures Exec(c, s, more).rows == s.rows == Exec(c, s, more).flagged
    decreases |s.rows - s.flagged|
  {
    if s.rows == s.flagged {
      more := [];
    } else {
      IdleCandidates(c, s, w);
      assert s.rows == (s.rows - s.flagged) + s.flagged;
      var batch := BatchExists(Candidates(c, s, w), c.limit);
      var script := PollScript(w, batch, Acks(|batch|), Updated);
      PollPublishes(c, s, w, batch);
      var t := Exec(c, s, script);
      assert batch[0] in Elements(batch) && Elements(batch) <= s.rows - s.flagged;
      Fewer(s.rows, s.flagged, Elements(batch));
      hide *;
      var rest := RestIsPublished(c, t, w);
      ExecSplit(c, s, script, rest);
      more := script + rest;
    }
  }

  lemma Fewer(rows: set<int>, flagged: set<int>, batch: set<int>)
    requires batch != {} && batch <= rows - flagged && flagged <= rows
    ensures |rows - (flagged + batch)| < |rows - flagged| && flagged + batch <= rows
  {
    assert rows - flagged == (rows - (flagged + batch)) + batch;
  }

  lemma CrashFrees(c: Config, s: State)
    ensures var t := Act(c, s, Crash);
            AllIdle(t) && t.rows == s.rows && t.flagged == s.flagged && t.log == s.log && t.workers.Keys == s.workers.Keys
  {
    hide Pending;
  }

  /** Whatever has happened, no row is stuck: after a crash one worker alone can publish all that is left. */
  lemma NoRowIsStuck(c: Config, s0: State, actions: seq<Action>, w: nat) returns (more: seq<Action>)
    requires Initial(s0) && w in s0.workers && c.limit > 0
    ensures var s, t := Exec(c, s0, actions), Exec(c, s0, actions + [Crash] + more);
            t.rows == t.flagged == s.rows
  {
    var s := Exec(c, s0, actions);
    RunInv(c, s0, actions);
    NothingReverts(c, s0, actions, 0);
    assert actions[..0] == [];
    assert s0.workers.Keys == s.workers.Keys && s.flagged <= s.rows;
    ExecAppend(c, s0, actions, Crash);
    CrashFrees(c, s);
    hide *;
    more := RestIsPublished(c, Act(c, s, Crash), w);
    ExecSplit(c, s0, actions + [Crash], more);
  }
}
