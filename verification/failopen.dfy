/** The collector's fail-open path as a transition system: what one publish does, what a replay of the
    fallback files does, and what every run of both keeps. */
module FailOpen {
  import opened Finite

  datatype Msg = Msg(topic: string, key: string, payload: string)

  /** The broker's answer within the timeout. Late: given up on, but delivered all the same. */
  datatype SendResult = Acked | Refused | Late

  /** One call of `publish`: the message, the broker's answer, and, should the fallback file be
      needed, the hour that names it and whether the write succeeds. */
  datatype Call = Call(msg: Msg, result: SendResult, hour: string, writeOk: bool)

  /** fallback-<hour>.jsonl, or fallback-<hour>.jsonl.done, by hour. */
  type Files = map<string, seq<Msg>>

  /** The last four fields are not in the program: every message given to `publish`, those it saw
      acknowledged, those lost by a failed write, and the sum drained from the gauge. */
  datatype State = State(
    log: seq<Msg>, pending: Files, done: Files,
    failStreak: nat, written: nat, accepted: nat, fallbacks: nat, errors: nat, backlog: int,
    given: multiset<Msg>, acked: multiset<Msg>, lost: multiset<Msg>, drained: int)

  function LinesOf(files: Files, hour: string): seq<Msg>
  {
    if hour in files then files[hour] else []
  }

  /** `FallbackWriter.append`: create or append. */
  function Append(files: Files, hour: string, m: Msg): Files
  {
    files[hour := LinesOf(files, hour) + [m]]
  }

  /** `EventPublisher.publish`: acknowledged, or an error that ends in the fallback file. A failed
      write is swallowed there, so the event is lost but counted as a fallback. */
  function Publish(s: State, c: Call): State
  {
    if c.result == Acked then
      s.(log := s.log + [c.msg], failStreak := 0, accepted := s.accepted + 1,
         given := s.given + multiset{c.msg}, acked := s.acked + multiset{c.msg})
    else
      s.(log := if c.result == Late then s.log + [c.msg] else s.log,
         failStreak := s.failStreak + 1, errors := s.errors + 1, fallbacks := s.fallbacks + 1, backlog := s.backlog + 1,
         given := s.given + multiset{c.msg},
         pending := if c.writeOk then Append(s.pending, c.hour, c.msg) else s.pending,
         written := if c.writeOk then s.written + 1 else s.written,
         lost := if c.writeOk then s.lost else s.lost + multiset{c.msg})
  }

  /** One publish during the replay of a file: of one of its lines, or of someone else's event. */
  datatype Turn = Turn(call: Call, own: bool)

  function Turns(s: State, turns: seq<Turn>): State
  {
    if turns == [] then s
    else Publish(Turns(s, turns[..|turns| - 1]), turns[|turns| - 1].call)
  }

  /** The file's own messages among the turns. */
  function Own(turns: seq<Turn>): multiset<Msg>
  {
    if turns == [] then multiset{}
    else
      var t := turns[|turns| - 1];
      Own(turns[..|turns| - 1]) + if t.own then multiset{t.call.msg} else multiset{}
  }

  /** How many of the file's own messages were acknowledged (or were not). */
  function Score(turns: seq<Turn>, ok: bool): nat
  {
    if turns == [] then 0
    else
      var t := turns[|turns| - 1];
      Score(turns[..|turns| - 1], ok) + if t.own && (t.call.result == Acked) == ok then 1 else 0
  }

  /** Whether the turns are a replay of file h: each line once, in any order, with anything between. */
  predicate Fits(s: State, h: string, turns: seq<Turn>)
  {
    h in s.pending && Own(turns) == multiset(s.pending[h])
  }

  /** The end of `replayFile`: rename, unless a line failed. The rename refuses to overwrite. */
  function Rename(s: State, h: string): State
  {
    if h in s.pending && h !in s.done
    then s.(pending := s.pending - {h}, done := s.done[h := s.pending[h]])
    else s
  }

  function ReplayFile(s: State, h: string, turns: seq<Turn>): State
  {
    var s' := Turns(s, turns);
    if Score(turns, false) == 0 then Rename(s', h) else s'
  }

  /** The rename throws: every line was acknowledged, but a .done file of that hour exists already. */
  predicate Refuses(s: State, h: string, turns: seq<Turn>)
  {
    Score(turns, false) == 0 && h in s.done
  }

  datatype Job = Job(hour: string, turns: seq<Turn>)

  /** The loop of `replay` over the files: it ends early when a rename throws. */
  datatype Progress = Progress(s: State, replayed: nat, failed: nat, threw: bool)

  function ReplayFiles(s: State, jobs: seq<Job>): Progress
  {
    if jobs == [] then Progress(s, 0, 0, false)
    else
      var p := ReplayFiles(s, jobs[..|jobs| - 1]);
      var j := jobs[|jobs| - 1];
      if p.threw then p
      else if Refuses(p.s, j.hour, j.turns) then p.(s := ReplayFile(p.s, j.hour, j.turns), threw := true)
      else Progress(ReplayFile(p.s, j.hour, j.turns), p.replayed + Score(j.turns, true), p.failed + Score(j.turns, false), false)
  }

  /** Each file is replayed as it stands when its turn comes. */
  predicate AllFit(s: State, jobs: seq<Job>)
  {
    jobs == [] ||
    (AllFit(s, jobs[..|jobs| - 1]) &&
     Fits(ReplayFiles(s, jobs[..|jobs| - 1]).s, jobs[|jobs| - 1].hour, jobs[|jobs| - 1].turns))
  }

  /** The gauge goes down by the number of acknowledged lines, at the end and only if nothing threw. */
  function Replay(s: State, jobs: seq<Job>): State
  {
    var p := ReplayFiles(s, jobs);
    if p.threw then p.s else p.s.(backlog := p.s.backlog - p.replayed, drained := p.s.drained + p.replayed)
  }

  datatype Action = Ingest(c: Call) | ReplayAll(jobs: seq<Job>)

  function Act(s: State, a: Action): State
  {
    match a
    case Ingest(c) => Publish(s, c)
    case ReplayAll(jobs) => Replay(s, jobs)
  }

  function Exec(s: State, actions: seq<Action>): State
  {
    if actions == [] then s
    else Act(Exec(s, actions[..|actions| - 1]), actions[|actions| - 1])
  }

  /** A process just started on an empty disk. */
  predicate Initial(s: State)
  {
    && s.log == [] && s.pending == map[] && s.done == map[] && s.written == 0 && s.accepted == 0 && s.fallbacks == 0
    && s.backlog == 0 && s.given == multiset{} && s.acked == multiset{} && s.lost == multiset{} && s.drained == 0
  }

  lemma TurnsAppend(s: State, turns: seq<Turn>, n: nat)
    requires n < |turns|
    ensures Turns(s, turns[..n + 1]) == Publish(Turns(s, turns[..n]), turns[n].call)
    ensures forall ok :: Score(turns[..n + 1], ok) ==
              Score(turns[..n], ok) + if turns[n].own && (turns[n].call.result == Acked) == ok then 1 else 0
  {
    assert turns[..n + 1][..n] == turns[..n];
    hide Publish;
  }

  lemma {:induction false} AllFitUpTo(s: State, jobs: seq<Job>, n: nat)
    requires AllFit(s, jobs) && n < |jobs|
    ensures Fits(ReplayFiles(s, jobs[..n]).s, jobs[n].hour, jobs[n].turns)
    decreases |jobs|
  {
    hide Fits, ReplayFiles;
    var before := jobs[..|jobs| - 1];
    if n < |before| {
      assert before[..n] == jobs[..n];
      AllFitUpTo(s, before, n);
    }
  }

  lemma ReplayFilesAppend(s: State, jobs: seq<Job>, n: nat)
    requires n < |jobs|
    ensures var p, j := ReplayFiles(s, jobs[..n]), jobs[n];
            ReplayFiles(s, jobs[..n + 1]) ==
            if p.threw then p
            else if Refuses(p.s, j.hour, j.turns) then p.(s := ReplayFile(p.s, j.hour, j.turns), threw := true)
            else Progress(ReplayFile(p.s, j.hour, j.turns), p.replayed + Score(j.turns, true), p.failed + Score(j.turns, false), false)
  {
    assert jobs[..n + 1][..n] == jobs[..n];
    hide ReplayFile, Refuses, Score;
  }

  /** Once a rename has thrown, the rest of the files is left alone. */
  lemma {:induction false} NothingAfterThrow(s: State, jobs: seq<Job>, n: nat)
    requires n <= |jobs| && ReplayFiles(s, jobs[..n]).threw
    ensures ReplayFiles(s, jobs) == ReplayFiles(s, jobs[..n])
    decreases |jobs|
  {
    if n == |jobs| {
      assert jobs[..n] == jobs;
    } else {
      var before := jobs[..|jobs| - 1];
      assert before[..n] == jobs[..n];
      NothingAfterThrow(s, before, n);
      hide ReplayFile, Refuses, Score;
    }
  }

  // ---------------------------------------------------------------- what a stretch of publishes does

  /** The messages the broker gets: acknowledged, or given up on and delivered all the same. */
  function Delivered(turns: seq<Turn>): seq<Msg>
  {
    if turns == [] then []
    else
      var c := turns[|turns| - 1].call;
      Delivered(turns[..|turns| - 1]) + if c.result == Refused then [] else [c.msg]
  }

  /** The positions of the publishes that were acknowledged, or were not. */
  function AnsweredAt(turns: seq<Turn>, ok: bool): set<int>
  {
    set i | 0 <= i < |turns| && (turns[i].call.result == Acked) == ok
  }

  lemma AnsweredMore(turns: seq<Turn>, ok: bool)
    requires turns != []
    ensures var n := |turns| - 1;
            |AnsweredAt(turns, ok)| == |AnsweredAt(turns[..n], ok)| + if (turns[n].call.result == Acked) == ok then 1 else 0
  {
    var n := |turns| - 1;
    AnsweredAppend(turns[..n], turns[n], ok);
    assert turns[..n] + [turns[n]] == turns;
    hide AnsweredAt;
  }

  lemma AnsweredAppend(turns: seq<Turn>, t: Turn, ok: bool)
    ensures AnsweredAt(turns + [t], ok) == AnsweredAt(turns, ok) + if (t.call.result == Acked) == ok then {|turns|} else {}
    ensures |turns| !in AnsweredAt(turns, ok)
  {
  }

  /** What a stretch of publishes logs. */
  lemma {:induction false} TurnsLog(s: State, turns: seq<Turn>)
    ensures Turns(s, turns).log == s.log + Delivered(turns)
  {
    if turns != [] {
      TurnsLog(s, turns[..|turns| - 1]);
      hide Append;
    }
  }

  /** What it counts. */
  lemma {:induction false} TurnsCount(s: State, turns: seq<Turn>)
    ensures var s', failures := Turns(s, turns), |AnsweredAt(turns, false)|;
            && s'.accepted == s.accepted + |AnsweredAt(turns, true)|
            && s'.errors == s.errors + failures && s'.fallbacks == s.fallbacks + failures
  {
    hide Append, AnsweredAt;
    if turns == [] {
      NoneAnswered();
    } else {
      TurnsCount(s, turns[..|turns| - 1]);
      AnsweredMore(turns, true);
      AnsweredMore(turns, false);
    }
  }

  lemma NoneAnswered()
    ensures |AnsweredAt([], true)| == |AnsweredAt([], false)| == 0
  {
  }

  /** Everything from position i on failed. */
  predicate FailedFrom(turns: seq<Turn>, i: nat)
  {
    forall j :: i <= j < |turns| ==> turns[j].call.result != Acked
  }

  /** The streak is the number of failures since the last success, or it goes on if there was none. */
  lemma {:induction false} StreakIs(s: State, turns: seq<Turn>, i: nat)
    requires i <= |turns| && FailedFrom(turns, i) && (i > 0 ==> turns[i - 1].call.result == Acked)
    ensures Turns(s, turns).failStreak == (if i == 0 then s.failStreak else 0) + |turns| - i
    decreases |turns|
  {
    hide Append;
    if i < |turns| {
      StreakIs(s, turns[..|turns| - 1], i);
    }
  }

  /** The file's own lines that were acknowledged, or were not, by position. */
  function OwnAt(turns: seq<Turn>, ok: bool): set<int>
  {
    set i | 0 <= i < |turns| && turns[i].own && (turns[i].call.result == Acked) == ok
  }

  lemma OwnAppend(turns: seq<Turn>, t: Turn, ok: bool)
    ensures OwnAt(turns + [t], ok) == OwnAt(turns, ok) + if t.own && (t.call.result == Acked) == ok then {|turns|} else {}
    ensures |turns| !in OwnAt(turns, ok)
  {
  }

  lemma {:induction false} ScoreIs(turns: seq<Turn>, ok: bool)
    ensures Score(turns, ok) == |OwnAt(turns, ok)|
  {
    if turns != [] {
      var n := |turns| - 1;
      ScoreIs(turns[..n], ok);
      OwnAppend(turns[..n], turns[n], ok);
      assert turns[..n] + [turns[n]] == turns;
      hide OwnAt;
    }
  }

  /** How many lines of each file were acknowledged, or were not. */
  function ByFile(jobs: seq<Job>, ok: bool): map<int, int>
  {
    map j | 0 <= j < |jobs| :: |OwnAt(jobs[j].turns, ok)|
  }

  /** One more file adds its own lines. */
  lemma ByFileAppend(jobs: seq<Job>, job: Job, ok: bool)
    ensures SumMap(ByFile(jobs + [job], ok)) == SumMap(ByFile(jobs, ok)) + Score(job.turns, ok)
  {
    ScoreIs(job.turns, ok);
    SumUpdate(ByFile(jobs, ok), |jobs|, |OwnAt(job.turns, ok)|);
    hide OwnAt, Score, SumMap;
    assert ByFile(jobs + [job], ok) == ByFile(jobs, ok)[|jobs| := |OwnAt(job.turns, ok)|];
  }

  /** A replay whose renames all went through reports the numbers of lines acknowledged and failed. */
  lemma {:induction false} ReplayReports(s: State, jobs: seq<Job>)
    ensures var p := ReplayFiles(s, jobs);
            !p.threw ==> p.replayed == SumMap(ByFile(jobs, true)) && p.failed == SumMap(ByFile(jobs, false))
  {
    hide ReplayFile, Refuses, Score;
    if jobs == [] {
      assert ByFile([], true) == map[] && ByFile([], false) == map[];
    } else {
      var n := |jobs| - 1;
      ReplayReports(s, jobs[..n]);
      ByFileAppend(jobs[..n], jobs[n], true);
      ByFileAppend(jobs[..n], jobs[n], false);
      assert jobs[..n] + [jobs[n]] == jobs;
      hide ByFile, SumMap;
    }
  }

  // ---------------------------------------------------------------- counting lines

  function Sizes(files: Files): map<string, int>
  {
    map h | h in files :: |files[h]|
  }

  ghost function Lines(files: Files): int
  {
    SumMap(Sizes(files))
  }

  function Counts(files: Files, m: Msg): map<string, int>
  {
    map h | h in files :: multiset(files[h])[m]
  }

  /** How often a message stands in the files. */
  ghost function Copies(files: Files, m: Msg): int
  {
    SumMap(Counts(files, m))
  }

  lemma SetFile(files: Files, h: string, lines: seq<Msg>)
    ensures Lines(files[h := lines]) == Lines(files) - |LinesOf(files, h)| + |lines|
  {
    assert Sizes(files[h := lines]) == Sizes(files)[h := |lines|];
    SumUpdate(Sizes(files), h, |lines|);
  }

  lemma SetFileCopies(files: Files, h: string, lines: seq<Msg>, m: Msg)
    ensures Copies(files[h := lines], m) == Copies(files, m) - multiset(LinesOf(files, h))[m] + multiset(lines)[m]
  {
    assert Counts(files[h := lines], m) == Counts(files, m)[h := multiset(lines)[m]];
    SumUpdate(Counts(files, m), h, multiset(lines)[m]);
  }

  lemma DropFile(files: Files, h: string, m: Msg)
    requires h in files
    ensures Lines(files - {h}) == Lines(files) - |files[h]|
    ensures Copies(files - {h}, m) == Copies(files, m) - multiset(files[h])[m]
  {
    assert Sizes(files - {h}) == Sizes(files) - {h};
    SumRemove(Sizes(files), h);
    assert Counts(files - {h}, m) == Counts(files, m) - {h};
    SumRemove(Counts(files, m), h);
  }

  lemma AppendCounts(files: Files, h: string, m: Msg, x: Msg)
    ensures Lines(Append(files, h, m)) == Lines(files) + 1
    ensures Copies(Append(files, h, m), x) == Copies(files, x) + if x == m then 1 else 0
  {
    SetFile(files, h, LinesOf(files, h) + [m]);
    SetFileCopies(files, h, LinesOf(files, h) + [m], x);
    hide Lines, Copies;
    assert multiset(LinesOf(files, h) + [m]) == multiset(LinesOf(files, h)) + multiset{m};
  }

  // ---------------------------------------------------------------- what every run keeps

  /** Each message ever given to `publish` was acknowledged, stands on a line, or was lost by a failed
      write: one for one, with its multiplicity. */
  ghost predicate Conserved(s: State)
  {
    && (forall m :: s.given[m] == s.acked[m] + Copies(s.pending, m) + Copies(s.done, m) + s.lost[m])
    && s.acked <= multiset(s.log)
  }

  /** What the counters and the gauge really count. */
  ghost predicate Tallied(s: State)
  {
    && s.accepted == |s.acked|
    && s.written == Lines(s.pending) + Lines(s.done)
    && s.fallbacks == s.written + |s.lost|
    && s.backlog == s.fallbacks - s.drained
  }

  /** What one publish adds, for one message. */
  lemma PublishCounts(s: State, c: Call, m: Msg)
    ensures var s', one := Publish(s, c), if m == c.msg then 1 else 0;
            && s'.given[m] == s.given[m] + one && s'.done == s.done
            && s'.acked[m] + Copies(s'.pending, m) + s'.lost[m] == s.acked[m] + Copies(s.pending, m) + s.lost[m] + one
  {
    AppendCounts(s.pending, c.hour, c.msg, m);
    hide Copies, Append, Lines;
  }

  lemma PublishLogs(s: State, c: Call)
    requires s.acked <= multiset(s.log)
    ensures Publish(s, c).acked <= multiset(Publish(s, c).log)
  {
    hide Append;
    assert multiset(s.log + [c.msg]) == multiset(s.log) + multiset{c.msg};
  }

  lemma PublishConserves(s: State, c: Call)
    requires Conserved(s)
    ensures Conserved(Publish(s, c))
  {
    PublishLogs(s, c);
    hide Copies, Publish;
    forall m
      ensures var s', one := Publish(s, c), if m == c.msg then 1 else 0;
              && s'.given[m] == s.given[m] + one && s'.done == s.done
              && s'.acked[m] + Copies(s'.pending, m) + s'.lost[m] == s.acked[m] + Copies(s.pending, m) + s.lost[m] + one
    {
      PublishCounts(s, c, m);
    }
  }

  lemma PublishTallies(s: State, c: Call)
    requires Tallied(s)
    ensures Tallied(Publish(s, c))
  {
    AppendCounts(s.pending, c.hour, c.msg, c.msg);
    hide Lines, Copies, Append;
  }

  lemma {:induction false} TurnsKeep(s: State, turns: seq<Turn>)
    requires Conserved(s) && Tallied(s)
    ensures Conserved(Turns(s, turns)) && Tallied(Turns(s, turns))
  {
    if turns != [] {
      hide Conserved, Tallied, Publish;
      var n := |turns| - 1;
      TurnsKeep(s, turns[..n]);
      PublishConserves(Turns(s, turns[..n]), turns[n].call);
      PublishTallies(Turns(s, turns[..n]), turns[n].call);
    }
  }

  lemma RenameCounts(s: State, h: string, m: Msg)
    ensures var s' := Rename(s, h);
            && Lines(s'.pending) + Lines(s'.done) == Lines(s.pending) + Lines(s.done)
            && Copies(s'.pending, m) + Copies(s'.done, m) == Copies(s.pending, m) + Copies(s.done, m)
  {
    if h in s.pending && h !in s.done {
      DropFile(s.pending, h, m);
      SetFile(s.done, h, s.pending[h]);
      SetFileCopies(s.done, h, s.pending[h], m);
    }
    hide Lines, Copies;
  }

  lemma RenameShape(s: State, h: string)
    ensures Rename(s, h) == s.(pending := Rename(s, h).pending, done := Rename(s, h).done)
  {
  }

  lemma MovedKeeps(s: State, pending: Files, done: Files)
    requires Conserved(s) && Tallied(s)
    requires Lines(pending) + Lines(done) == Lines(s.pending) + Lines(s.done)
    requires forall m :: Copies(pending, m) + Copies(done, m) == Copies(s.pending, m) + Copies(s.done, m)
    ensures var s' := s.(pending := pending, done := done); Conserved(s') && Tallied(s')
  {
    hide Lines, Copies;
  }

  lemma RenameKeeps(s: State, h: string)
    requires Conserved(s) && Tallied(s)
    ensures Conserved(Rename(s, h)) && Tallied(Rename(s, h))
  {
    hide *;
    RenameShape(s, h);
    var s' := Rename(s, h);
    forall m
      ensures Copies(s'.pending, m) + Copies(s'.done, m) == Copies(s.pending, m) + Copies(s.done, m)
    {
      RenameCounts(s, h, m);
    }
    RenameCounts(s, h, Msg("", "", ""));
    MovedKeeps(s, s'.pending, s'.done);
  }

  lemma {:induction false} ReplayFilesKeep(s: State, jobs: seq<Job>)
    requires Conserved(s) && Tallied(s)
    ensures Conserved(ReplayFiles(s, jobs).s) && Tallied(ReplayFiles(s, jobs).s)
  {
    if jobs != [] {
      hide Conserved, Tallied, ReplayFile, Refuses, Score;
      var n := |jobs| - 1;
      ReplayFilesKeep(s, jobs[..n]);
      ReplayFileKeeps(ReplayFiles(s, jobs[..n]).s, jobs[n]);
    }
  }

  lemma ReplayFileKeeps(s: State, j: Job)
    requires Conserved(s) && Tallied(s)
    ensures Conserved(ReplayFile(s, j.hour, j.turns)) && Tallied(ReplayFile(s, j.hour, j.turns))
  {
    TurnsKeep(s, j.turns);
    RenameKeeps(Turns(s, j.turns), j.hour);
    hide Conserved, Tallied, Rename, Turns, Score;
  }

  /** Every run of publishes and replays, whatever fails and however they interleave. */
  lemma {:induction false} NothingVanishes(s: State, actions: seq<Action>)
    requires Initial(s)
    ensures Conserved(Exec(s, actions)) && Tallied(Exec(s, actions))
  {
    if actions != [] {
      hide Conserved, Tallied, Publish, ReplayFiles, Initial;
      var n := |actions| - 1;
      var before := Exec(s, actions[..n]);
      NothingVanishes(s, actions[..n]);
      match actions[n]
      case Ingest(c) =>
        PublishConserves(before, c);
        PublishTallies(before, c);
      case ReplayAll(jobs) =>
        ReplayFilesKeep(before, jobs);
        DrainKeeps(ReplayFiles(before, jobs).s, ReplayFiles(before, jobs).replayed);
    } else {
      assert Sizes(map[]) == map[];
      assert forall m :: Counts(map[], m) == map[];
    }
  }

  lemma DrainKeeps(s: State, n: nat)
    requires Conserved(s) && Tallied(s)
    ensures var s' := s.(backlog := s.backlog - n, drained := s.drained + n); Conserved(s') && Tallied(s')
  {
    hide Copies, Lines;
  }

  // ---------------------------------------------------------------- what reaches a .done file

  /** Lines of file h that were appended while it was being replayed. */
  function Added(turns: seq<Turn>, h: string): seq<Msg>
  {
    if turns == [] then []
    else
      var c := turns[|turns| - 1].call;
      Added(turns[..|turns| - 1], h) + if c.result != Acked && c.writeOk && c.hour == h then [c.msg] else []
  }

  lemma {:induction false} FileGrows(s: State, turns: seq<Turn>, h: string)
    ensures LinesOf(Turns(s, turns).pending, h) == LinesOf(s.pending, h) + Added(turns, h)
    ensures h in s.pending ==> h in Turns(s, turns).pending
    ensures Turns(s, turns).done == s.done && Turns(s, turns).drained == s.drained
  {
    if turns != [] {
      var n := |turns| - 1;
      FileGrows(s, turns[..n], h);
      PublishGrows(Turns(s, turns[..n]), turns[n].call, h);
      hide Publish, LinesOf;
    }
  }

  lemma PublishGrows(s: State, c: Call, h: string)
    ensures var s' := Publish(s, c);
            && LinesOf(s'.pending, h) == LinesOf(s.pending, h) + (if c.result != Acked && c.writeOk && c.hour == h then [c.msg] else [])
            && (h in s.pending ==> h in s'.pending) && s'.done == s.done && s'.drained == s.drained
  {
  }

  lemma {:induction false} OwnAcked(s: State, turns: seq<Turn>)
    requires Score(turns, false) == 0
    ensures Own(turns) <= Turns(s, turns).acked - s.acked && s.acked <= Turns(s, turns).acked
    ensures Score(turns, true) == |Own(turns)|
  {
    if turns != [] {
      var n := |turns| - 1;
      OwnAcked(s, turns[..n]);
      assert Score(turns[..n], false) == 0;
    }
  }

  /** A file is moved to .done with every line it had when it was read, all acknowledged by this
      replay, followed by whatever was appended in between; so it holds only acknowledged lines
      exactly when nothing was appended. */
  lemma DoneAfterAck(s: State, h: string, turns: seq<Turn>)
    requires Fits(s, h, turns) && Score(turns, false) == 0 && h !in s.done
    ensures var s' := ReplayFile(s, h, turns);
            && h !in s'.pending && h in s'.done && s'.done[h] == s.pending[h] + Added(turns, h)
            && multiset(s.pending[h]) <= s'.acked - s.acked
            && (multiset(s'.done[h]) == Own(turns) <==> Added(turns, h) == [])
  {
    FileGrows(s, turns, h);
    OwnAcked(s, turns);
    hide Turns, Score, Own, Added;
    var s' := ReplayFile(s, h, turns);
    var added := Added(turns, h);
    assert s'.done[h] == s.pending[h] + added;
    assert multiset(s.pending[h] + added) == multiset(s.pending[h]) + multiset(added);
    if added != [] { assert multiset(added)[added[0]] > 0; }
  }

  /** A file read for replay is gone from the pending files exactly when all its lines were
      acknowledged and its .done name was free. */
  lemma MovedExactlyWhen(s: State, h: string, turns: seq<Turn>)
    requires Fits(s, h, turns)
    ensures h !in ReplayFile(s, h, turns).pending <==> Score(turns, false) == 0 && h !in s.done
  {
    FileGrows(s, turns, h);
    hide Turns, Score, Own, Added;
  }

  /** A line that fails keeps its file, and stands on one more line. */
  lemma FailureKeepsFile(s: State, h: string, turns: seq<Turn>)
    requires Fits(s, h, turns) && Score(turns, false) > 0
    ensures var s' := ReplayFile(s, h, turns);
            h in s'.pending && s.pending[h] <= s'.pending[h] && s'.done == s.done
  {
    FileGrows(s, turns, h);
    hide Turns, Score, Own, Added;
  }

  // ---------------------------------------------------------------- the gauge

  /** How far the gauge is off the number of lines still to replay. */
  ghost function Drift(s: State): int
  {
    s.backlog - Lines(s.pending)
  }

  /** It is off by the lines already moved and the events lost, less what was drained. */
  lemma DriftIsUndrained(s: State, actions: seq<Action>)
    requires Initial(s)
    ensures var e := Exec(s, actions); Drift(e) == Lines(e.done) + |e.lost| - e.drained
  {
    NothingVanishes(s, actions);
    hide Exec, Conserved, Initial;
  }

  /** The failed writes among the turns. */
  function LostWrites(turns: seq<Turn>): nat
  {
    if turns == [] then 0
    else
      var c := turns[|turns| - 1].call;
      LostWrites(turns[..|turns| - 1]) + if c.result != Acked && !c.writeOk then 1 else 0
  }

  /** What replaying one file does to the gauge: a failed write counts too much; a file that is moved
      takes along what was added meanwhile; a file that stays was drained of the lines acknowledged;
      and a rename that throws drains nothing. */
  function FileDrift(s: State, j: Job): int
  {
    LostWrites(j.turns) +
    if Score(j.turns, false) > 0 then -(Score(j.turns, true) as int)
    else if j.hour in s.done then 0
    else |Added(j.turns, j.hour)|
  }

  function FilesDrift(s: State, jobs: seq<Job>): int
  {
    if jobs == [] then 0
    else
      var p, j := ReplayFiles(s, jobs[..|jobs| - 1]), jobs[|jobs| - 1];
      FilesDrift(s, jobs[..|jobs| - 1]) + if p.threw then 0 else FileDrift(p.s, j)
  }

  /** What one action does to the gauge, read off the action. A replay that throws drains nothing, so
      the lines of the files it had moved before are counted too much as well. */
  function ActionDrift(s: State, a: Action): int
  {
    match a
    case Ingest(c) => if c.result != Acked && !c.writeOk then 1 else 0
    case ReplayAll(jobs) =>
      var p := ReplayFiles(s, jobs);
      FilesDrift(s, jobs) + if p.threw then p.replayed else 0
  }

  function RunDrift(s: State, actions: seq<Action>): int
  {
    if actions == [] then 0
    else
      var before := actions[..|actions| - 1];
      RunDrift(s, before) + ActionDrift(Exec(s, before), actions[|actions| - 1])
  }

  /** Every replay of the run publishes the lines of its files as they stand. */
  predicate FitRun(s: State, actions: seq<Action>)
  {
    actions == [] ||
    var before, a := actions[..|actions| - 1], actions[|actions| - 1];
    FitRun(s, before) && (a.ReplayAll? ==> AllFit(Exec(s, before), a.jobs))
  }

  lemma PublishDrifts(s: State, c: Call)
    ensures Drift(Publish(s, c)) == Drift(s) + if c.result != Acked && !c.writeOk then 1 else 0
  {
    AppendCounts(s.pending, c.hour, c.msg, c.msg);
    hide Lines, Copies, Append;
  }

  lemma {:induction false} TurnsDrift(s: State, turns: seq<Turn>)
    ensures Drift(Turns(s, turns)) == Drift(s) + LostWrites(turns)
  {
    if turns != [] {
      hide Drift, Publish;
      TurnsDrift(s, turns[..|turns| - 1]);
      PublishDrifts(Turns(s, turns[..|turns| - 1]), turns[|turns| - 1].call);
    }
  }

  lemma RenameDrifts(s: State, h: string)
    ensures Drift(Rename(s, h)) == Drift(s) + if h in s.pending && h !in s.done then |s.pending[h]| else 0
  {
    if h in s.pending { DropFile(s.pending, h, Msg("", "", "")); }
    hide Lines, Copies;
  }

  lemma FileDrifts(s: State, j: Job)
    requires Fits(s, j.hour, j.turns)
    ensures Drift(ReplayFile(s, j.hour, j.turns)) ==
            Drift(s) + FileDrift(s, j) + if Refuses(s, j.hour, j.turns) then 0 else Score(j.turns, true)
  {
    var s' := Turns(s, j.turns);
    TurnsDrift(s, j.turns);
    FileGrows(s, j.turns, j.hour);
    if Score(j.turns, false) == 0 {
      OwnAcked(s, j.turns);
      RenameDrifts(s', j.hour);
      assert |multiset(s.pending[j.hour])| == |s.pending[j.hour]|;
    }
    hide Turns, Score, Own, Added, Drift, Rename, LostWrites;
  }

  lemma {:induction false} FilesDrifts(s: State, jobs: seq<Job>)
    requires AllFit(s, jobs)
    ensures var p := ReplayFiles(s, jobs); Drift(p.s) == Drift(s) + FilesDrift(s, jobs) + p.replayed
  {
    if jobs != [] {
      var n := |jobs| - 1;
      FilesDrifts(s, jobs[..n]);
      FileDrifts(ReplayFiles(s, jobs[..n]).s, jobs[n]);
      hide ReplayFile, FileDrift, Drift, Refuses, Score, Fits;
    }
  }

  lemma ActionDrifts(s: State, a: Action)
    requires a.ReplayAll? ==> AllFit(s, a.jobs)
    ensures Drift(Act(s, a)) == Drift(s) + ActionDrift(s, a)
  {
    match a
    case Ingest(c) => PublishDrifts(s, c);
    case ReplayAll(jobs) =>
      FilesDrifts(s, jobs);
      hide ReplayFiles, FilesDrift, AllFit, Lines;
  }

  /** The exact law of the gauge: over any run of an empty start it is off by the sum of what each
      action did, and right exactly when that is 0. */
  lemma {:induction false} GaugeLaw(s: State, actions: seq<Action>)
    requires Initial(s) && FitRun(s, actions)
    ensures var e := Exec(s, actions);
            && Drift(e) == RunDrift(s, actions)
            && (e.backlog == Lines(e.pending) <==> RunDrift(s, actions) == 0)
            && RunDrift(s, actions) == Lines(e.done) + |e.lost| - e.drained
  {
    DriftIsUndrained(s, actions);
    if actions == [] {
      assert Sizes(map[]) == map[];
    } else {
      var n := |actions| - 1;
      GaugeLaw(s, actions[..n]);
      ActionDrifts(Exec(s, actions[..n]), actions[n]);
      hide Act, ActionDrift, AllFit, Lines, Initial;
    }
  }

  /** Exactly when one publish, or the replay of one file, leaves the gauge as right as it was: the
      publish is acknowledged or written down; the file, if all its lines were acknowledged, saw no
      failed write and, unless its rename threw, no addition; and if a line failed, as many writes
      failed as lines were acknowledged. */
  lemma GaugeKeptExactlyWhen(s: State, c: Call, j: Job)
    requires Fits(s, j.hour, j.turns)
    ensures Drift(Act(s, Ingest(c))) == Drift(s) <==> c.result == Acked || c.writeOk
    ensures Drift(Act(s, ReplayAll([j]))) == Drift(s) <==>
            if Score(j.turns, false) == 0 then LostWrites(j.turns) == 0 && (j.hour in s.done || Added(j.turns, j.hour) == [])
            else LostWrites(j.turns) == Score(j.turns, true)
  {
    ActionDrifts(s, Ingest(c));
    OneFile(s, j);
    ActionDrifts(s, ReplayAll([j]));
    hide Act, Drift, Score, LostWrites, Added, Fits, Publish, ReplayFiles;
  }

  lemma OneFile(s: State, j: Job)
    requires Fits(s, j.hour, j.turns)
    ensures AllFit(s, [j])
    ensures ActionDrift(s, ReplayAll([j])) == FileDrift(s, j)
  {
    assert [j][..0] == [];
    assert ReplayFiles(s, []) == Progress(s, 0, 0, false) && AllFit(s, []) && FilesDrift(s, []) == 0;
    assert ReplayFiles(s, [j]).threw ==> ReplayFiles(s, [j]).replayed == 0;
    hide ReplayFile, FileDrift, Score, Fits;
  }

  lemma InitialDrift(s: State)
    requires Initial(s)
    ensures Drift(s) == 0
  {
    assert Sizes(map[]) == map[];
  }

  /** Failing input: one write fails, and the gauge is one too high. */
  lemma GaugeTooHigh(s: State, m: Msg, h: string)
    requires Initial(s)
    ensures Drift(Exec(s, [Ingest(Call(m, Refused, h, false))])) == 1
  {
    var actions := [Ingest(Call(m, Refused, h, false))];
    assert actions[..0] == [] && Exec(s, []) == s;
    InitialDrift(s);
    ActionDrifts(s, actions[0]);
    hide Drift, Act, Initial;
  }

  /** Failing input: of a file of two lines one is acknowledged and one fails; the gauge is drained by
      one although three lines are pending now. */
  lemma GaugeTooLow(s: State, a: Msg, b: Msg, h: string)
    requires Initial(s)
    ensures Drift(Exec(s, HalfReplayed(a, b, h))) == -1
  {
    var j := Job(h, Half(a, b, h));
    var s2 := TwoRefused(s, a, b, h);
    HalfFits(s2, a, b, h);
    ThreeActions(s, HalfReplayed(a, b, h));
    hide Drift, Initial, Publish, ReplayFiles, ReplayFile, Exec, FileDrift;
    OneFile(s2, j);
    ActionDrifts(s2, ReplayAll([j]));
    hide Replay;
  }

  lemma TwoRefused(s: State, a: Msg, b: Msg, h: string) returns (s2: State)
    requires Initial(s)
    ensures s2 == Publish(Publish(s, Call(a, Refused, h, true)), Call(b, Refused, h, true))
    ensures h in s2.pending && s2.pending[h] == [a, b] && Drift(s2) == 0
  {
    var c1, c2 := Call(a, Refused, h, true), Call(b, Refused, h, true);
    s2 := Publish(Publish(s, c1), c2);
    InitialDrift(s);
    PublishDrifts(s, c1);
    PublishDrifts(Publish(s, c1), c2);
    hide Drift;
  }

  lemma ThreeActions(s: State, actions: seq<Action>)
    requires |actions| == 3
    ensures Exec(s, actions) == Act(Act(Act(s, actions[0]), actions[1]), actions[2])
  {
    hide Act;
    assert actions[..2][..1] == actions[..1] && actions[..1][..0] == [];
    assert Exec(s, actions[..1]) == Act(s, actions[0]);
    assert Exec(s, actions[..2]) == Act(Act(s, actions[0]), actions[1]);
  }

  /** Two events refused into one file, then a replay in which only the first is acknowledged. */
  function HalfReplayed(a: Msg, b: Msg, h: string): seq<Action>
  {
    [Ingest(Call(a, Refused, h, true)), Ingest(Call(b, Refused, h, true)), ReplayAll([Job(h, Half(a, b, h))])]
  }

  function Half(a: Msg, b: Msg, h: string): seq<Turn>
  {
    [Turn(Call(a, Acked, h, true), true), Turn(Call(b, Refused, h, true), true)]
  }

  lemma HalfFits(s: State, a: Msg, b: Msg, h: string)
    requires h in s.pending && s.pending[h] == [a, b]
    ensures var j := Job(h, Half(a, b, h)); Fits(s, h, j.turns) && FileDrift(s, j) == -1
  {
    var turns := Half(a, b, h);
    assert turns[..1] == [turns[0]] && turns[..1][..0] == [];
    assert Own(turns[..1]) == multiset{a} && Own(turns) == multiset{a} + multiset{b} == multiset([a, b]);
    assert Score(turns[..1], true) == 1 && Score(turns, true) == 1 && Score(turns[..1], false) == 0 && Score(turns, false) == 1;
    assert LostWrites(turns[..1]) == 0 && LostWrites(turns) == 0;
  }

  /** No line of its own fails, nothing is added to the file meanwhile, the rename goes through. */
  predicate CleanFile(s: State, j: Job)
  {
    Fits(s, j.hour, j.turns) && Score(j.turns, false) == 0 && Added(j.turns, j.hour) == [] && j.hour !in s.done
  }

  predicate WritesSucceed(turns: seq<Turn>)
  {
    forall t :: t in turns ==> t.call.writeOk
  }

  predicate CleanReplay(s: State, jobs: seq<Job>)
  {
    jobs == [] ||
    (CleanReplay(s, jobs[..|jobs| - 1]) && WritesSucceed(jobs[|jobs| - 1].turns) &&
     CleanFile(ReplayFiles(s, jobs[..|jobs| - 1]).s, jobs[|jobs| - 1]))
  }

  predicate CleanAction(s: State, a: Action)
  {
    match a
    case Ingest(c) => c.writeOk
    case ReplayAll(jobs) => CleanReplay(s, jobs)
  }

  /** Every write succeeds and every replay is clean. */
  predicate CleanRun(s: State, actions: seq<Action>)
  {
    actions == [] ||
    (CleanRun(s, actions[..|actions| - 1]) && CleanAction(Exec(s, actions[..|actions| - 1]), actions[|actions| - 1]))
  }

  lemma {:induction false} NoLoss(s: State, turns: seq<Turn>)
    requires WritesSucceed(turns)
    ensures Turns(s, turns).lost == s.lost
  {
    if turns != [] {
      NoLoss(s, turns[..|turns| - 1]);
    }
  }

  lemma CleanFileMoves(s: State, j: Job)
    requires CleanFile(s, j) && WritesSucceed(j.turns)
    ensures var s' := ReplayFile(s, j.hour, j.turns);
            && Lines(s'.done) == Lines(s.done) + Score(j.turns, true)
            && s'.lost == s.lost && s'.drained == s.drained
  {
    FileGrows(s, j.turns, j.hour);
    OwnAcked(s, j.turns);
    NoLoss(s, j.turns);
    SetFile(s.done, j.hour, s.pending[j.hour]);
    hide Turns, Score, Own, Added, Lines;
    assert s.pending[j.hour] + [] == s.pending[j.hour];
    assert |multiset(s.pending[j.hour])| == |s.pending[j.hour]|;
  }

  lemma {:induction false} CleanReplayMoves(s: State, jobs: seq<Job>)
    requires CleanReplay(s, jobs)
    ensures var p := ReplayFiles(s, jobs);
            && !p.threw && Lines(p.s.done) == Lines(s.done) + p.replayed && p.s.lost == s.lost && p.s.drained == s.drained
  {
    if jobs != [] {
      var n := |jobs| - 1;
      CleanReplayMoves(s, jobs[..n]);
      CleanFileMoves(ReplayFiles(s, jobs[..n]).s, jobs[n]);
      hide ReplayFile, Lines, Fits, Score, Added, WritesSucceed;
    }
  }

  /** Over a clean run the gauge is the number of lines still to replay, and nothing was lost. */
  lemma GaugeIsExact(s: State, actions: seq<Action>)
    requires Initial(s) && CleanRun(s, actions)
    ensures var e := Exec(s, actions); e.backlog == Lines(e.pending) && e.lost == multiset{}
  {
    NothingVanishes(s, actions);
    CleanBalance(s, actions);
    hide Exec, Conserved, Initial, CleanRun;
  }

  lemma {:induction false} CleanBalance(s: State, actions: seq<Action>)
    requires Initial(s) && CleanRun(s, actions)
    ensures var e := Exec(s, actions); e.drained == Lines(e.done) && e.lost == multiset{}
  {
    if actions == [] {
      assert Sizes(map[]) == map[];
    } else {
      var n := |actions| - 1;
      CleanBalance(s, actions[..n]);
      hide Initial, Lines, ReplayFiles, CleanReplay;
      match actions[n]
      case Ingest(c) =>
      case ReplayAll(jobs) => CleanReplayMoves(Exec(s, actions[..n]), jobs);
    }
  }

  // ---------------------------------------------------------------- a second replay within the hour

  /** The same file replayed n times, every line acknowledged, nothing between. */
  function Again(h: string, turns: seq<Turn>, n: nat): seq<Action>
  {
    seq(n, i => ReplayAll([Job(h, turns)]))
  }

  /** Once a .done file of the hour exists, a replay of the hour's next file sends
      every line, then throws at the rename; the file stays, the gauge stays, and each further replay
      sends every line once more. */
  lemma {:induction false} StuckFile(s: State, h: string, turns: seq<Turn>, n: nat)
    requires Fits(s, h, turns) && Score(turns, false) == 0 && h in s.done
    requires forall t :: t in turns ==> t.own
    ensures var e := Exec(s, Again(h, turns, n));
            && e.pending == s.pending && e.done == s.done && e.backlog == s.backlog && e.drained == s.drained
            && |e.log| == |s.log| + n * |s.pending[h]|
  {
    if n == 0 {
      assert Again(h, turns, 0) == [];
    } else {
      hide *;
      var before := Exec(s, Again(h, turns, n - 1));
      StuckFile(s, h, turns, n - 1);
      OnceMore(s, h, turns, n);
      FitsAlike(s, before, h, turns);
      StuckOnce(before, h, turns);
      Multiple(n, |s.pending[h]|);
    }
  }

  lemma Multiple(n: nat, k: nat)
    requires n > 0
    ensures n * k == (n - 1) * k + k
  {
  }

  lemma FitsAlike(s: State, t: State, h: string, turns: seq<Turn>)
    requires Fits(s, h, turns) && t.pending == s.pending
    ensures Fits(t, h, turns) && h in s.pending
  {
    hide Own;
  }

  lemma OnceMore(s: State, h: string, turns: seq<Turn>, n: nat)
    requires n > 0
    ensures Exec(s, Again(h, turns, n)) == Act(Exec(s, Again(h, turns, n - 1)), ReplayAll([Job(h, turns)]))
  {
    assert Again(h, turns, n)[..n - 1] == Again(h, turns, n - 1);
    hide Act;
  }

  /** From an empty start: an event falls back and is replayed; within the hour another falls back. */
  function SecondFile(a: Msg, b: Msg, h: string): seq<Action>
  {
    [Ingest(Call(a, Refused, h, true)), ReplayAll([Job(h, OneTurn(a, h))]), Ingest(Call(b, Refused, h, true))]
  }

  /** The replay of a file of one line, acknowledged. */
  function OneTurn(m: Msg, h: string): seq<Turn>
  {
    [Turn(Call(m, Acked, h, true), true)]
  }

  lemma {:induction false} ExecSplit(s: State, a: seq<Action>, b: seq<Action>)
    ensures Exec(s, a + b) == Exec(Exec(s, a), b)
    decreases |b|
  {
    if b == [] {
      assert a + b == a;
    } else {
      var n := |b| - 1;
      ExecSplit(s, a, b[..n]);
      assert (a + b)[..|a + b| - 1] == a + b[..n];
      hide Act;
    }
  }

  lemma OneTurnScores(m: Msg, h: string)
    ensures var turns := OneTurn(m, h);
            && Own(turns) == multiset{m} == multiset([m]) && Score(turns, true) == 1 && Score(turns, false) == 0
            && (forall t :: t in turns ==> t.own)
            && (forall s :: Turns(s, turns) == Publish(s, turns[0].call))
  {
    var turns := OneTurn(m, h);
    assert turns[..0] == [];
    hide Publish;
  }

  lemma SecondFileWaits(s: State, a: Msg, b: Msg, h: string)
    requires Initial(s)
    ensures var e := Exec(s, SecondFile(a, b, h)); e.pending == map[h := [b]] && e.done == map[h := [a]] && e.log == [a]
  {
    hide *;
    var s1 := Publish(s, Call(a, Refused, h, true));
    EmptyStart(s);
    RefusedAlone(s, a, h);
    SecondFileScript(a, b, h);
    ThreeActions(s, SecondFile(a, b, h));
    FirstFileMoves(s1, a, h);
    var s2 := Act(s1, ReplayAll([Job(h, OneTurn(a, h))]));
    RefusedAlone(s2, b, h);
    IngestPublishes(s, Call(a, Refused, h, true));
    IngestPublishes(s2, Call(b, Refused, h, true));
  }

  lemma EmptyStart(s: State)
    requires Initial(s)
    ensures s.pending == map[] && s.done == map[] && s.log == []
  {
  }

  lemma RefusedAlone(s: State, m: Msg, h: string)
    requires s.pending == map[]
    ensures var e := Publish(s, Call(m, Refused, h, true)); e.pending == map[h := [m]] && e.done == s.done && e.log == s.log
  {
    assert [] + [m] == [m];
  }

  lemma IngestPublishes(s: State, c: Call)
    ensures Act(s, Ingest(c)) == Publish(s, c)
  {
  }

  lemma SecondFileScript(a: Msg, b: Msg, h: string)
    ensures var x := SecondFile(a, b, h);
            |x| == 3 && x[0] == Ingest(Call(a, Refused, h, true)) && x[1] == ReplayAll([Job(h, OneTurn(a, h))]) && x[2] == Ingest(Call(b, Refused, h, true))
  {
  }

  lemma FirstFileMoves(s: State, m: Msg, h: string)
    requires s.pending == map[h := [m]] && h !in s.done
    ensures var e := Act(s, ReplayAll([Job(h, OneTurn(m, h))]));
            e.pending == map[] && e.done == s.done[h := [m]] && e.log == s.log + [m]
  {
    OneTurnScores(m, h);
    var jobs := [Job(h, OneTurn(m, h))];
    assert jobs[..0] == [] && ReplayFiles(s, jobs[..0]) == Progress(s, 0, 0, false);
    hide Turns, Own, Score;
    assert s.pending - {h} == map[];
  }

  /** The failing input in full: the second file of the hour can never be replayed. */
  lemma StuckFromStart(s: State, a: Msg, b: Msg, h: string, n: nat)
    requires Initial(s)
    ensures var e := Exec(s, SecondFile(a, b, h) + Again(h, OneTurn(b, h), n));
            e.pending == map[h := [b]] && e.done == map[h := [a]] && |e.log| == 1 + n
  {
    var e := Exec(s, SecondFile(a, b, h));
    ExecSplit(s, SecondFile(a, b, h), Again(h, OneTurn(b, h), n));
    SecondFileWaits(s, a, b, h);
    OneTurnScores(b, h);
    hide Exec, Again, OneTurn, SecondFile, Own, Score;
    assert Fits(e, h, OneTurn(b, h));
    StuckFile(e, h, OneTurn(b, h), n);
  }

  lemma StuckOnce(s: State, h: string, turns: seq<Turn>)
    requires Fits(s, h, turns) && Score(turns, false) == 0 && h in s.done
    requires forall t :: t in turns ==> t.own
    ensures var e := Act(s, ReplayAll([Job(h, turns)]));
            && e.pending == s.pending && e.done == s.done && e.backlog == s.backlog && e.drained == s.drained
            && |e.log| == |s.log| + |s.pending[h]|
  {
    var jobs := [Job(h, turns)];
    assert jobs[..0] == [];
    assert ReplayFiles(s, jobs[..0]) == Progress(s, 0, 0, false);
    AllAcked(s, turns);
    hide Turns, Score, Own;
    assert |multiset(s.pending[h])| == |s.pending[h]|;
  }

  lemma {:induction false} AllAcked(s: State, turns: seq<Turn>)
    requires Score(turns, false) == 0 && forall t :: t in turns ==> t.own
    ensures var e := Turns(s, turns);
            && e.pending == s.pending && e.done == s.done && e.backlog == s.backlog && e.drained == s.drained
            && |e.log| == |s.log| + |Own(turns)|
  {
    if turns != [] {
      var n := |turns| - 1;
      assert turns[n] in turns;
      assert Score(turns[..n], false) == 0;
      AllAcked(s, turns[..n]);
    }
  }
}
