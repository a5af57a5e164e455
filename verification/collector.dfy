/** The collector's objects: each method is shown to do what module FailOpen says of it. */
module Collector {
  import opened Finite
  import opened Ordering
  import opened FailOpen

  datatype Outcome = ACCEPTED | INVALID | FALLBACK

  function OutcomeOf(result: SendResult): Outcome
  {
    if result == Acked then ACCEPTED else FALLBACK
  }

  class CollectorMetrics {
    var received: nat
    var accepted: nat
    var invalid: nat
    var dlq: nat
    var fallbacks: nat
    var errors: nat
    var fallbackBacklog: int
    ghost var drained: int

    constructor ()
      ensures received == accepted == invalid == dlq == fallbacks == errors == 0 && fallbackBacklog == drained == 0
    {
      received, accepted, invalid, dlq, fallbacks, errors := 0, 0, 0, 0, 0, 0;
      fallbackBacklog, drained := 0, 0;
    }

    method Accepted()
      modifies this`accepted
      ensures accepted == old(accepted) + 1
    {
      accepted := accepted + 1;
    }

    method Fallback()
      modifies this`fallbacks, this`fallbackBacklog
      ensures fallbacks == old(fallbacks) + 1 && fallbackBacklog == old(fallbackBacklog) + 1
    {
      fallbacks := fallbacks + 1;
      fallbackBacklog := fallbackBacklog + 1;
    }

    method FallbackDrained(n: nat)
      modifies this`fallbackBacklog, this`drained
      ensures fallbackBacklog == old(fallbackBacklog) - n && drained == old(drained) + n
    {
      fallbackBacklog := fallbackBacklog - n;
      drained := drained + n;
    }
  }

  /** The writer and its directory. */
  class FallbackWriter {
    var pending: Files
    var done: Files
    var written: nat
    ghost var lost: multiset<Msg>

    constructor ()
      ensures pending == map[] && done == map[] && written == 0 && lost == multiset{}
    {
      pending, done, written, lost := map[], map[], 0, multiset{};
    }

    /** A write that fails is logged and swallowed: the one place where an event is lost. */
    method AppendLine(m: Msg, hour: string, writeOk: bool)
      modifies this
      ensures done == old(done)
      ensures pending == if writeOk then Append(old(pending), hour, m) else old(pending)
      ensures written == old(written) + if writeOk then 1 else 0
      ensures lost == if writeOk then old(lost) else old(lost) + multiset{m}
    {
      if writeOk {
        pending := pending[hour := (if hour in pending then pending[hour] else []) + [m]];
        written := written + 1;
      } else {
        lost := lost + multiset{m};
      }
    }
  }

  class EventPublisher {
    const fallback: FallbackWriter
    const metrics: CollectorMetrics
    var kafka: seq<Msg>
    var failStreak: nat
    ghost var given: multiset<Msg>
    ghost var acked: multiset<Msg>

    constructor (fallback: FallbackWriter, metrics: CollectorMetrics)
      ensures this.fallback == fallback && this.metrics == metrics
      ensures kafka == [] && failStreak == 0 && given == acked == multiset{}
    {
      this.fallback, this.metrics := fallback, metrics;
      kafka, failStreak, given, acked := [], 0, multiset{}, multiset{};
    }

    ghost function Abs(): State
      reads this, fallback, metrics
    {
      State(kafka, fallback.pending, fallback.done, failStreak, fallback.written, metrics.accepted, metrics.fallbacks,
            metrics.errors, metrics.fallbackBacklog, given, acked, fallback.lost, metrics.drained)
    }

    /** Never fails: an event the broker did not acknowledge in time goes to the fallback file. */
    method Send(c: Call) returns (o: Outcome)
      modifies this, fallback, metrics
      ensures Abs() == Publish(old(Abs()), c)
      ensures o == OutcomeOf(c.result)
      ensures metrics.received == old(metrics.received) && metrics.invalid == old(metrics.invalid) && metrics.dlq == old(metrics.dlq)
    {
      hide Append;
      if c.result == Acked {
        given := given + multiset{c.msg};
        kafka := kafka + [c.msg];
        acked := acked + multiset{c.msg};
        if failStreak > 0 {
          failStreak := 0;
        }
        metrics.Accepted();
        return ACCEPTED;
      }
      FallBack(c);
      given := given + multiset{c.msg};
      return FALLBACK;
    }

    /** The event goes to the fallback file, or is lost with its write. */
    method FallBack(c: Call)
      requires c.result != Acked
      modifies this, fallback, metrics
      ensures Abs() == Publish(old(Abs()), c).(given := old(given))
      ensures metrics.received == old(metrics.received) && metrics.invalid == old(metrics.invalid) && metrics.dlq == old(metrics.dlq)
    {
      hide Append;
      CountError(c);
      fallback.AppendLine(c.msg, c.hour, c.writeOk);
      metrics.Fallback();
    }

    /** The error is counted; a message given up on may still be delivered. */
    method CountError(c: Call)
      modifies this, metrics
      ensures Abs() == old(Abs()).(log := if c.result == Late then old(kafka) + [c.msg] else old(kafka),
                                   failStreak := old(failStreak) + 1, errors := old(metrics.errors) + 1)
      ensures given == old(given) && acked == old(acked)
      ensures metrics.received == old(metrics.received) && metrics.invalid == old(metrics.invalid) && metrics.dlq == old(metrics.dlq)
    {
      if c.result == Late {
        kafka := kafka + [c.msg];
      }
      metrics.errors := metrics.errors + 1;
      failStreak := failStreak + 1;
    }
  }

  // ---------------------------------------------------------------- ingest

  /** What the validator and the router say of an event; `call` carries the event itself, or the
      message made of it for the topic dlq.invalid. */
  datatype Incoming = Incoming(valid: bool, routed: bool, call: Call)

  predicate Good(x: Incoming)
  {
    x.valid && x.routed
  }

  function Judge(x: Incoming): Outcome
  {
    if Good(x) then OutcomeOf(x.call.result) else INVALID
  }

  /** How many events of a batch end with this outcome. */
  function Number(list: seq<Incoming>, o: Outcome): nat
  {
    if list == [] then 0
    else Number(list[..|list| - 1], o) + if Judge(list[|list| - 1]) == o then 1 else 0
  }

  function PublishAll(s: State, list: seq<Incoming>): State
  {
    if list == [] then s
    else Publish(PublishAll(s, list[..|list| - 1]), list[|list| - 1].call)
  }

  /** Every event has exactly one of the three outcomes. */
  lemma {:induction false} OneOutcomeEach(list: seq<Incoming>)
    ensures Number(list, ACCEPTED) + Number(list, INVALID) + Number(list, FALLBACK) == |list|
  {
    if list != [] {
      OneOutcomeEach(list[..|list| - 1]);
    }
  }

  /** A batch is a run of publishes, so all that module FailOpen proves of runs holds of it. */
  lemma {:induction false} BatchIsRun(s: State, list: seq<Incoming>)
    ensures PublishAll(s, list) == Exec(s, seq(|list|, i requires 0 <= i < |list| => Ingest(list[i].call)))
  {
    var actions := seq(|list|, i requires 0 <= i < |list| => Ingest(list[i].call));
    if list != [] {
      var n := |list| - 1;
      BatchIsRun(s, list[..n]);
      assert actions[..n] == seq(n, i requires 0 <= i < n => Ingest(list[..n][i].call));
      hide Publish;
    }
  }

  lemma BatchStep(s: State, list: seq<Incoming>, n: nat)
    requires n < |list|
    ensures PublishAll(s, list[..n + 1]) == Publish(PublishAll(s, list[..n]), list[n].call)
    ensures forall o :: Number(list[..n + 1], o) == Number(list[..n], o) + if Judge(list[n]) == o then 1 else 0
  {
    assert list[..n + 1][..n] == list[..n];
    hide Publish, Judge;
  }

  /** The positions of a batch's events that end INVALID, and of those acknowledged among the others. */
  function InvalidAt(list: seq<Incoming>): set<int>
  {
    set i | 0 <= i < |list| && (!list[i].valid || !list[i].routed)
  }

  function AckedAt(list: seq<Incoming>): set<int>
  {
    set i | 0 <= i < |list| && list[i].valid && list[i].routed && list[i].call.result == Acked
  }

  lemma InvalidMore(list: seq<Incoming>, n: nat)
    requires |list| == n + 1
    ensures |InvalidAt(list)| == |InvalidAt(list[..n])| + if !list[n].valid || !list[n].routed then 1 else 0
  {
    assert InvalidAt(list) == InvalidAt(list[..n]) + if !list[n].valid || !list[n].routed then {n} else {};
  }

  lemma AckedMore(list: seq<Incoming>, n: nat)
    requires |list| == n + 1
    ensures |AckedAt(list)| == |AckedAt(list[..n])| + if list[n].valid && list[n].routed && list[n].call.result == Acked then 1 else 0
  {
    var one := if list[n].valid && list[n].routed && list[n].call.result == Acked then {n} else {};
    assert AckedAt(list) == AckedAt(list[..n]) + one;
  }

  /** The numbers of each outcome, told by the fields of the events. */
  lemma {:induction false} NumbersAre(list: seq<Incoming>)
    ensures Number(list, INVALID) == |InvalidAt(list)| && Number(list, ACCEPTED) == |AckedAt(list)|
  {
    if list != [] {
      var n := |list| - 1;
      NumbersAre(list[..n]);
      InvalidMore(list, n);
      AckedMore(list, n);
      hide InvalidAt, AckedAt;
    }
  }

  class EventIngestService {
    const publisher: EventPublisher

    constructor (publisher: EventPublisher)
      ensures this.publisher == publisher
    {
      this.publisher := publisher;
    }

    /** An invalid or unroutable event is published to the DLQ and counts as INVALID whatever became of it. */
    method Ingest(x: Incoming) returns (o: Outcome)
      modifies publisher, publisher.fallback, publisher.metrics
      ensures publisher.Abs() == Publish(old(publisher.Abs()), x.call) && o == Judge(x)
      ensures o == INVALID <==> !x.valid || !x.routed
      ensures o == ACCEPTED <==> x.valid && x.routed && x.call.result == Acked
      ensures publisher.metrics.received == old(publisher.metrics.received)
      ensures publisher.metrics.invalid == old(publisher.metrics.invalid) + (if !x.valid || !x.routed then 1 else 0)
      ensures publisher.metrics.dlq == old(publisher.metrics.dlq) + if !x.valid || !x.routed then 1 else 0
    {
      hide Publish;
      if !x.valid || !x.routed {
        publisher.metrics.invalid := publisher.metrics.invalid + 1;
        publisher.metrics.dlq := publisher.metrics.dlq + 1;
        var _ := publisher.Send(x.call);
        return INVALID;
      }
      o := publisher.Send(x.call);
    }
  }

  datatype IngestResponse = IngestResponse(received: nat, accepted: nat, invalid: nat, fallback: nat)

  class EventController {
    const ingest: EventIngestService
    const maxBatchSize: nat

    constructor (ingest: EventIngestService, maxBatchSize: nat)
      ensures this.ingest == ingest && this.maxBatchSize == maxBatchSize
    {
      this.ingest, this.maxBatchSize := ingest, maxBatchSize;
    }

    /** The outcome fold over a batch. A batch that is too large is refused as a whole, untouched. */
    method Events(list: seq<Incoming>) returns (status: int, body: IngestResponse)
      modifies ingest.publisher, ingest.publisher.fallback, ingest.publisher.metrics
      ensures body.accepted + body.invalid + body.fallback == body.received == |list|
      ensures |list| > maxBatchSize ==>
                status == 413 && body.invalid == |list| && ingest.publisher.Abs() == old(ingest.publisher.Abs())
      ensures |list| <= maxBatchSize ==>
                && status == 202
                && body.invalid == |InvalidAt(list)| && body.accepted == |AckedAt(list)|
                && ingest.publisher.Abs() == PublishAll(old(ingest.publisher.Abs()), list)
                && ingest.publisher.metrics.received == old(ingest.publisher.metrics.received) + |list|
                && ingest.publisher.metrics.invalid == old(ingest.publisher.metrics.invalid) + body.invalid
    {
      if |list| > maxBatchSize {
        return 413, IngestResponse(|list|, 0, |list|, 0);
      }
      ingest.publisher.metrics.received := ingest.publisher.metrics.received + |list|;
      var acc := IngestAll(list);
      OneOutcomeEach(list);
      NumbersAre(list);
      return 202, IngestResponse(|list|, acc[0], acc[1], acc[2]);
    }

    /** One outcome per event, counted in an array of three. */
    method IngestAll(list: seq<Incoming>) returns (acc: array<nat>)
      modifies ingest.publisher, ingest.publisher.fallback, ingest.publisher.metrics
      ensures fresh(acc) && acc.Length == 3
      ensures acc[0] == Number(list, ACCEPTED) && acc[1] == Number(list, INVALID) && acc[2] == Number(list, FALLBACK)
      ensures ingest.publisher.Abs() == PublishAll(old(ingest.publisher.Abs()), list)
      ensures ingest.publisher.metrics.received == old(ingest.publisher.metrics.received)
      ensures ingest.publisher.metrics.invalid == old(ingest.publisher.metrics.invalid) + acc[1]
    {
      ghost var before := ingest.publisher.Abs();
      acc := new nat[3](_ => 0);
      assert Number([], ACCEPTED) == Number([], INVALID) == Number([], FALLBACK) == 0 && list[..0] == [];
      assert PublishAll(before, []) == before == ingest.publisher.Abs();
      hide *;
      for i := 0 to |list|
        invariant ingest.publisher.Abs() == PublishAll(before, list[..i])
        invariant acc[0] == Number(list[..i], ACCEPTED) && acc[1] == Number(list[..i], INVALID) && acc[2] == Number(list[..i], FALLBACK)
        invariant ingest.publisher.metrics.received == old(ingest.publisher.metrics.received)
        invariant ingest.publisher.metrics.invalid == old(ingest.publisher.metrics.invalid) + acc[1]
      {
        BatchStep(before, list, i);
        var outcome := ingest.Ingest(list[i]);
        Count(acc, outcome);
      }
      assert list[..|list|] == list;
    }

    method Count(acc: array<nat>, outcome: Outcome)
      requires acc.Length == 3
      modifies acc
      ensures acc[0] == old(acc[0]) + (if outcome == ACCEPTED then 1 else 0)
      ensures acc[1] == old(acc[1]) + (if outcome == INVALID then 1 else 0)
      ensures acc[2] == old(acc[2]) + (if outcome == FALLBACK then 1 else 0)
    {
      match outcome
      case ACCEPTED => acc[0] := acc[0] + 1;
      case INVALID => acc[1] := acc[1] + 1;
      case FALLBACK => acc[2] := acc[2] + 1;
    }
  }

  // ---------------------------------------------------------------- replay

  datatype ReplayResult = ReplayResult(files: nat, replayed: nat, failed: nat)

  class AdminController {
    const publisher: EventPublisher

    constructor (publisher: EventPublisher)
      ensures this.publisher == publisher
    {
      this.publisher := publisher;
    }

    /** The files still to replay, in the order of their names. */
    method PendingFiles() returns (files: seq<string>)
      ensures Increasing(files) && (set h | h in files) == publisher.fallback.pending.Keys
    {
      files := SortNames(publisher.fallback.pending.Keys);
    }

    /** Publish the lines of one file, each once, in any order and among other events. `turns` is what
        happened, in order. */
    method SendLines(turns: seq<Turn>) returns (acc: array<nat>)
      modifies publisher, publisher.fallback, publisher.metrics
      ensures fresh(acc) && acc.Length == 2 && acc[0] == Score(turns, true) && acc[1] == Score(turns, false)
      ensures publisher.Abs() == Turns(old(publisher.Abs()), turns)
    {
      ghost var before := publisher.Abs();
      acc := new nat[2](_ => 0);
      assert Score([], true) == Score([], false) == 0 && turns[..0] == [] && Turns(before, []) == before;
      assert publisher.Abs() == before;
      hide *;
      for i := 0 to |turns|
        invariant publisher.Abs() == Turns(before, turns[..i])
        invariant acc[0] == Score(turns[..i], true) && acc[1] == Score(turns[..i], false)
      {
        TurnsAppend(before, turns, i);
        var outcome := publisher.Send(turns[i].call);
        Judged(turns[i].call.result);
        if turns[i].own {
          if outcome == ACCEPTED {
            acc[0] := acc[0] + 1;
          } else {
            acc[1] := acc[1] + 1;
          }
        }
      }
      assert turns[..|turns|] == turns;
    }

    /** Files.move, which does not overwrite. */
    method Move(h: string) returns (threw: bool)
      requires h in publisher.fallback.pending
      modifies publisher.fallback
      ensures publisher.Abs() == Rename(old(publisher.Abs()), h)
      ensures threw <==> h in old(publisher.fallback.done)
    {
      var dir := publisher.fallback;
      if h in dir.done {
        return true;
      }
      dir.done := dir.done[h := dir.pending[h]];
      dir.pending := dir.pending - {h};
      return false;
    }

    /** `replayFile`: publish the lines of one file, then rename it if none failed. */
    method ReplayOne(h: string, turns: seq<Turn>) returns (replayed: nat, failed: nat, threw: bool)
      requires Fits(publisher.Abs(), h, turns)
      modifies publisher, publisher.fallback, publisher.metrics
      ensures replayed == Score(turns, true) && failed == Score(turns, false)
      ensures replayed == |OwnAt(turns, true)| && failed == |OwnAt(turns, false)|
      ensures publisher.Abs() == ReplayFile(old(publisher.Abs()), h, turns)
      ensures threw == Refuses(old(publisher.Abs()), h, turns)
    {
      FileGrows(publisher.Abs(), turns, h);
      ScoreIs(turns, true);
      ScoreIs(turns, false);
      hide Turns, Score, Publish, Own, Added, Rename, OwnAt;
      var acc := SendLines(turns);
      threw := false;
      if acc[1] == 0 {
        threw := Move(h);
      }
      return acc[0], acc[1], threw;
    }

    /** `replay`: the loop over the files. The gauge is drained once, at the end, unless a rename threw. */
    method ReplayAllFiles(jobs: seq<Job>) returns (r: ReplayResult, threw: bool)
      requires AllFit(publisher.Abs(), jobs)
      modifies publisher, publisher.fallback, publisher.metrics
      ensures publisher.Abs() == Replay(old(publisher.Abs()), jobs)
      ensures threw == ReplayFiles(old(publisher.Abs()), jobs).threw
      ensures !threw ==> r.files == |jobs| && r.replayed == SumMap(ByFile(jobs, true)) && r.failed == SumMap(ByFile(jobs, false))
    {
      ghost var before := publisher.Abs();
      ghost var p := Progress(before, 0, 0, false);
      var replayed, failed := 0, 0;
      assert jobs[..0] == [] && ReplayFiles(before, []) == p;
      hide *;
      for i := 0 to |jobs|
        invariant p == ReplayFiles(before, jobs[..i])
        invariant p == Progress(publisher.Abs(), replayed, failed, false)
      {
        AllFitUpTo(before, jobs, i);
        ReplayFilesAppend(before, jobs, i);
        p := ReplayFiles(before, jobs[..i + 1]);
        var n, m;
        n, m, threw := ReplayOne(jobs[i].hour, jobs[i].turns);
        if threw {
          NothingAfterThrow(before, jobs, i + 1);
          ReplayEnds(before, jobs);
          return ReplayResult(|jobs|, replayed, failed), true;
        }
        replayed, failed := replayed + n, failed + m;
      }
      assert jobs[..|jobs|] == jobs;
      ReplayEnds(before, jobs);
      Drain(replayed);
      return ReplayResult(|jobs|, replayed, failed), false;
    }

    method Drain(n: nat)
      modifies publisher.metrics
      ensures publisher.Abs() == old(publisher.Abs()).(backlog := old(publisher.Abs()).backlog - n, drained := old(publisher.Abs()).drained + n)
    {
      publisher.metrics.FallbackDrained(n);
    }
  }

  lemma Judged(result: SendResult)
    ensures OutcomeOf(result) == ACCEPTED <==> result == Acked
  {
  }

  lemma ReplayEnds(s: State, jobs: seq<Job>)
    ensures var p := ReplayFiles(s, jobs);
            && Replay(s, jobs) == (if p.threw then p.s else p.s.(backlog := p.s.backlog - p.replayed, drained := p.s.drained + p.replayed))
            && (!p.threw ==> p.replayed == SumMap(ByFile(jobs, true)) && p.failed == SumMap(ByFile(jobs, false)))
  {
    ReplayReports(s, jobs);
    hide ReplayFiles;
  }
}
