/** The reconciliation of spark/reconcile.py: the report itself, and what its lines add up to. */
module Reconcile {
  import opened Ordering
  import opened Finite

  // ---------------------------------------------------------------- the report

  datatype BatchSums = BatchSums(impressions: int, raw: int)

  datatype Part = LateShare(n: int) | SsaiShare(n: int) | ResidualShare(n: int)

  datatype Cause = RealtimeMissing | BatchMissing | Explained(parts: seq<Part>)

  /** What a part says about batch - realtime: lateness adds, the SSAI choice takes away. */
  function Signed(p: Part): int
  {
    match p
    case LateShare(n) => n
    case SsaiShare(n) => -n
    case ResidualShare(n) => n
  }

  function Total(parts: seq<Part>): int
  {
    if parts == [] then 0 else Total(parts[..|parts| - 1]) + Signed(parts[|parts| - 1])
  }

  lemma TotalAppend(parts: seq<Part>, p: Part)
    ensures Total(parts + [p]) == Total(parts) + Signed(p)
  {
    assert (parts + [p])[..|parts|] == parts;
  }

  lemma TotalNone()
    ensures Total([]) == 0
  {
  }

  /** The parts listed are the non-zero ones, in this order, and together they are the difference. */
  method Classify(ssai: int, late: int, residual: int, rt: int, bt: int) returns (cause: Cause)
    ensures cause == RealtimeMissing <==> rt == 0 && bt > 0
    ensures cause == BatchMissing <==> bt == 0 && rt > 0
    ensures cause.Explained? ==> Total(cause.parts) == late - ssai + residual
    ensures cause.Explained? ==>
              cause.parts == (if late != 0 then [LateShare(late)] else []) + (if ssai != 0 then [SsaiShare(ssai)] else [])
                             + (if residual != 0 then [ResidualShare(residual)] else [])
  {
    hide Total;
    if rt == 0 && bt > 0 {
      return RealtimeMissing;
    }
    if bt == 0 && rt > 0 {
      return BatchMissing;
    }
    var parts: seq<Part> := [];
    TotalNone();
    if late != 0 {
      parts := Append(parts, LateShare(late));
    }
    if ssai != 0 {
      parts := Append(parts, SsaiShare(ssai));
    }
    if residual > 0 {
      parts := Append(parts, ResidualShare(residual));
    } else if residual < 0 {
      parts := Append(parts, ResidualShare(residual));
    }
    return Explained(parts);
  }

  method Append(parts: seq<Part>, p: Part) returns (r: seq<Part>)
    ensures r == parts + [p] && Total(r) == Total(parts) + Signed(p)
  {
    TotalAppend(parts, p);
    r := parts + [p];
  }

  datatype Line = Line(campaign: string, realtime: int, batch: int, ssai: int, late: int, residual: int, cause: Cause)

  function Diff(l: Line): int
  {
    l.batch - l.realtime
  }

  function RealtimeOf(rt: map<string, int>, cid: string): int
  {
    if cid in rt then rt[cid] else 0
  }

  function BatchOf(batch: map<string, BatchSums>, cid: string): BatchSums
  {
    if cid in batch then batch[cid] else BatchSums(0, 0)
  }

  /** The line of a campaign holds its inputs, and its residual is what makes the books balance. */
  predicate IsLine(l: Line, rt: map<string, int>, batch: map<string, BatchSums>, late: map<string, int>)
  {
    var b := BatchOf(batch, l.campaign);
    && l.realtime == RealtimeOf(rt, l.campaign)
    && l.batch == b.impressions
    && l.ssai == b.raw - b.impressions
    && l.late == RealtimeOf(late, l.campaign)
    && Diff(l) == l.late - l.ssai + l.residual
    && (l.cause.Explained? ==> Total(l.cause.parts) == Diff(l))
    && (l.cause.RealtimeMissing? <==> l.realtime == 0 && l.batch > 0)
    && (l.cause.BatchMissing? <==> l.batch == 0 && l.realtime > 0)
  }

  function Diffs(out: seq<Line>): int
  {
    if out == [] then 0 else Diffs(out[..|out| - 1]) + Diff(out[|out| - 1])
  }

  function Residuals(out: seq<Line>): int
  {
    if out == [] then 0 else Residuals(out[..|out| - 1]) + out[|out| - 1].residual
  }

  function Names(out: seq<Line>): set<string>
  {
    set l | l in out :: l.campaign
  }

  predicate InOrder(out: seq<Line>)
  {
    forall i, j :: 0 <= i < j < |out| ==> StrLess(out[i].campaign, out[j].campaign)
  }

  lemma AppendLine(out: seq<Line>, l: Line)
    ensures Residuals(out + [l]) == Residuals(out) + l.residual && Diffs(out + [l]) == Diffs(out) + Diff(l)
  {
    assert (out + [l])[..|out|] == out;
  }

  method LineFor(cid: string, rt: map<string, int>, batch: map<string, BatchSums>, late: map<string, int>) returns (l: Line)
    ensures l.campaign == cid && IsLine(l, rt, batch, late)
    ensures l.batch - l.realtime == Diff(l) == l.late - l.ssai + l.residual
  {
    var rImp: int := RealtimeOf(rt, cid);
    var bImp: int := BatchOf(batch, cid).impressions;
    var ssai := BatchOf(batch, cid).raw - bImp;
    var lt: int := RealtimeOf(late, cid);
    var diff := bImp - rImp;
    var residual := diff - (lt - ssai);
    var cause := Classify(ssai, lt, residual, rImp, bImp);
    l := Line(cid, rImp, bImp, ssai, lt, residual, cause);
  }

  /** One correct line for each of the first n names, in their order; the totals are theirs. */
  ghost predicate Written(out: seq<Line>, names: seq<string>, n: nat, rt: map<string, int>, batch: map<string, BatchSums>,
                          late: map<string, int>, diffs: int, residuals: int)
  {
    && |out| == n <= |names|
    && (forall i :: 0 <= i < |out| ==> out[i].campaign == names[i] && IsLine(out[i], rt, batch, late))
    && diffs == Diffs(out) && residuals == Residuals(out)
  }

  lemma WriteLine(out: seq<Line>, names: seq<string>, n: nat, rt: map<string, int>, batch: map<string, BatchSums>,
                  late: map<string, int>, diffs: int, residuals: int, l: Line)
    requires Written(out, names, n, rt, batch, late, diffs, residuals) && IsLine(l, rt, batch, late)
    requires n < |names| && l.campaign == names[n]
    ensures Written(out + [l], names, n + 1, rt, batch, late, diffs + Diff(l), residuals + l.residual)
  {
    hide IsLine, Diffs, Diff, Residuals;
    AppendLine(out, l);
  }

  lemma WriteLast(out: seq<Line>, names: seq<string>, rt: map<string, int>, batch: map<string, BatchSums>,
                  late: map<string, int>, diffs: int, residuals: int)
    requires Written(out, names, |names|, rt, batch, late, diffs, residuals) && Increasing(names)
    ensures Names(out) == (set n | n in names) && InOrder(out)
    ensures forall l :: l in out ==> IsLine(l, rt, batch, late)
    ensures diffs == Diffs(out) && residuals == Residuals(out)
  {
    hide IsLine, Diffs, Residuals, StrLess;
    forall n | n in names
      ensures n in Names(out)
    {
      var i :| 0 <= i < |names| && names[i] == n;
      assert out[i] in out;
    }
  }

  // ---------------------------------------------------------------- the totals

  function Impressions(batch: map<string, BatchSums>): map<string, int>
  {
    map c | c in batch :: batch[c].impressions
  }

  function Discarded(batch: map<string, BatchSums>): map<string, int>
  {
    map c | c in batch :: batch[c].raw - batch[c].impressions
  }

  /** The entries of the campaigns that have a line. */
  function Among(m: map<string, int>, rt: map<string, int>, batch: map<string, BatchSums>): map<string, int>
  {
    map c | c in m && (c in rt || c in batch) :: m[c]
  }

  /** The sum over the first n names; a missing entry counts 0. */
  function SumOver(names: seq<string>, n: nat, m: map<string, int>): int
    requires n <= |names|
  {
    if n == 0 then 0 else SumOver(names, n - 1, m) + RealtimeOf(m, names[n - 1])
  }

  function Listed(names: seq<string>, n: nat, m: map<string, int>): map<string, int>
    requires n <= |names|
  {
    map c | c in names[..n] :: RealtimeOf(m, c)
  }

  lemma {:induction false} SumOverNames(names: seq<string>, n: nat, m: map<string, int>)
    requires Increasing(names) && n <= |names|
    ensures SumOver(names, n, m) == SumMap(Listed(names, n, m))
  {
    hide StrLess, RealtimeOf, SumMap, Increasing, Listed;
    if n == 0 {
      ListedNone(names, m);
    } else {
      SumOverNames(names, n - 1, m);
      ListedNext(names, n, m);
      SumUpdate(Listed(names, n - 1, m), names[n - 1], RealtimeOf(m, names[n - 1]));
    }
  }

  lemma ListedNone(names: seq<string>, m: map<string, int>)
    ensures SumMap(Listed(names, 0, m)) == 0
  {
    assert Listed(names, 0, m) == map[];
  }

  lemma ListedNext(names: seq<string>, n: nat, m: map<string, int>)
    requires Increasing(names) && 0 < n <= |names|
    ensures names[n - 1] !in Listed(names, n - 1, m)
    ensures Listed(names, n, m) == Listed(names, n - 1, m)[names[n - 1] := RealtimeOf(m, names[n - 1])]
  {
    hide StrLess, RealtimeOf;
    var x := names[n - 1];
    StrIrreflexive(x);
    assert names[..n] == names[..n - 1] + [x];
    assert x !in names[..n - 1];
  }

  /** A table's sum over the names of a report is the sum of its entries among them. */
  lemma SumOverTable(names: seq<string>, m: map<string, int>, part: map<string, int>)
    requires Increasing(names)
    requires forall c :: c in part <==> c in m && c in names
    requires forall c :: c in part ==> part[c] == m[c]
    ensures SumOver(names, |names|, m) == SumMap(part)
  {
    SumOverNames(names, |names|, m);
    SumPadded(part, Listed(names, |names|, m));
  }

  /** What the four totals have added up after n names. */
  ghost predicate Added(names: seq<string>, n: nat, rt: map<string, int>, batch: map<string, BatchSums>, late: map<string, int>,
                        tRt: int, tBt: int, tLate: int, tSsai: int)
  {
    && n <= |names|
    && tRt == SumOver(names, n, rt) && tBt == SumOver(names, n, Impressions(batch))
    && tLate == SumOver(names, n, late) && tSsai == SumOver(names, n, Discarded(batch))
  }

  lemma AddLine(names: seq<string>, n: nat, rt: map<string, int>, batch: map<string, BatchSums>, late: map<string, int>,
                tRt: int, tBt: int, tLate: int, tSsai: int, l: Line)
    requires Added(names, n, rt, batch, late, tRt, tBt, tLate, tSsai) && n < |names|
    requires IsLine(l, rt, batch, late) && l.campaign == names[n]
    ensures Added(names, n + 1, rt, batch, late, tRt + l.realtime, tBt + l.batch, tLate + l.late, tSsai + l.ssai)
  {
    hide Total;
  }

  lemma ListedNames(names: seq<string>, all: set<string>)
    requires (set n | n in names) == all
    ensures forall c :: c in names <==> c in all
  {
    forall c
      ensures c in names <==> c in all
    {
      var listed := set n | n in names;
      assert c in names <==> c in listed;
    }
  }

  lemma AddedAll(names: seq<string>, rt: map<string, int>, batch: map<string, BatchSums>, late: map<string, int>,
                 tRt: int, tBt: int, tLate: int, tSsai: int)
    requires Added(names, |names|, rt, batch, late, tRt, tBt, tLate, tSsai)
    requires Increasing(names) && (set n | n in names) == rt.Keys + batch.Keys
    ensures tRt == SumMap(rt) && tBt == SumMap(Impressions(batch)) && tSsai == SumMap(Discarded(batch))
    ensures tLate == SumMap(Among(late, rt, batch))
  {
    hide Increasing, SumOver;
    ListedNames(names, rt.Keys + batch.Keys);
    SumOverTable(names, rt, rt);
    SumOverTable(names, Impressions(batch), Impressions(batch));
    SumOverTable(names, Discarded(batch), Discarded(batch));
    SumOverTable(names, late, Among(late, rt, batch));
  }

  lemma NothingYet(names: seq<string>, rt: map<string, int>, batch: map<string, BatchSums>, late: map<string, int>)
    ensures Written([], names, 0, rt, batch, late, 0, 0) && Added(names, 0, rt, batch, late, 0, 0, 0, 0)
  {
  }

  /** The per-campaign loop: one line per campaign of either side, in name order, and the totals: of each side,
      of what the SSAI choice gave up, and of the late impressions of the campaigns listed. */
  method Report(rt: map<string, int>, batch: map<string, BatchSums>, late: map<string, int>)
    returns (out: seq<Line>, tRt: int, tBt: int, tLate: int, tSsai: int)
    ensures Names(out) == rt.Keys + batch.Keys && InOrder(out)
    ensures forall l :: l in out ==> IsLine(l, rt, batch, late)
    ensures (tBt - tRt) - (tLate - tSsai) == Residuals(out)
    ensures tBt - tRt == Diffs(out)
    ensures tRt == SumMap(rt) && tBt == SumMap(Impressions(batch)) && tSsai == SumMap(Discarded(batch))
    ensures tLate == SumMap(Among(late, rt, batch))
  {
    hide *;
    out := [];
    tRt, tBt, tLate, tSsai := 0, 0, 0, 0;
    var names := SortNames(rt.Keys + batch.Keys);
    NothingYet(names, rt, batch, late);
    for i := 0 to |names|
      invariant Written(out, names, i, rt, batch, late, tBt - tRt, (tBt - tRt) - (tLate - tSsai))
      invariant Added(names, i, rt, batch, late, tRt, tBt, tLate, tSsai)
    {
      var l := LineFor(names[i], rt, batch, late);
      WriteLine(out, names, i, rt, batch, late, tBt - tRt, (tBt - tRt) - (tLate - tSsai), l);
      AddLine(names, i, rt, batch, late, tRt, tBt, tLate, tSsai, l);
      tRt, tBt, tLate, tSsai := tRt + l.realtime, tBt + l.batch, tLate + l.late, tSsai + l.ssai;
      out := out + [l];
    }
    WriteLast(out, names, rt, batch, late, tBt - tRt, (tBt - tRt) - (tLate - tSsai));
    AddedAll(names, rt, batch, late, tRt, tBt, tLate, tSsai);
  }
}
