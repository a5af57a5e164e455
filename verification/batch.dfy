/** The settlement batch of spark/batch_settlement.py: whole-history de-duplication, one impression
    per ad request, and the daily and minute tables. */
module Batch {
  import opened Finite
  import opened Ordering
  import opened Events

  /** The columns the aggregates read of an archived record. */
  datatype Row = Row(
    eventType: string, campaign: Option<string>, adRequestId: Option<string>, source: Option<string>,
    quartile: Option<string>, fill: Option<bool>, eventTime: int)

  function Columns(r: Record): Row
  {
    Row(r.eventType, r.campaign, r.adRequestId, r.source, r.quartile, r.fill, r.eventTime)
  }

  // ---------------------------------------------------------------- 2) one row per event_id

  /** ORDER BY event_time ASC, source_topic ASC. */
  predicate Earlier(a: Record, b: Record)
  {
    a.eventTime < b.eventTime || (a.eventTime == b.eventTime && TopicRank(a.topic) < TopicRank(b.topic))
  }

  /** r may carry row number 1 of its event_id. Rows tied in the order have it in an unspecified way. */
  ghost predicate MayBeFirst(rows: seq<Record>, r: Record)
  {
    r in rows && forall q :: q in rows && q.eventId == r.eventId ==> !Earlier(q, r)
  }

  /** d is a possible outcome of `row_number() over (partition by event_id order by ...) = 1`. */
  ghost predicate IsDedup(rows: seq<Record>, d: map<string, Row>)
  {
    && (forall r :: r in rows ==> r.eventId in d)
    && (forall id :: id in d ==> exists r :: MayBeFirst(rows, r) && r.eventId == id && d[id] == Columns(r))
  }

  /** Rows that compete for the same place agree on every column the aggregates read. */
  ghost predicate TiesAgree(rows: seq<Record>)
  {
    forall a, b :: MayBeFirst(rows, a) && MayBeFirst(rows, b) && a.eventId == b.eventId ==> Columns(a) == Columns(b)
  }

  ghost predicate SameRecords(a: seq<Record>, b: seq<Record>)
  {
    forall r :: r in a <==> r in b
  }

  /** Some outcome always exists. */
  lemma {:induction false} DedupExists(rows: seq<Record>) returns (d: map<string, Row>)
    ensures IsDedup(rows, d)
  {
    if rows == [] {
      d := map[];
    } else {
      var before, x := rows[..|rows| - 1], rows[|rows| - 1];
      d := DedupExists(before);
      assert forall r :: r in rows <==> r in before || r == x;
      var better := x.eventId !in d || exists r :: MayBeFirst(before, r) && r.eventId == x.eventId && Earlier(x, r);
      if better {
        if x.eventId in d {
          var r :| MayBeFirst(before, r) && r.eventId == x.eventId && Earlier(x, r);
        }
        assert MayBeFirst(rows, x);
      }
      forall id | id in d && !(better && id == x.eventId)
        ensures exists r :: MayBeFirst(rows, r) && r.eventId == id && d[id] == Columns(r)
      {
        var r :| MayBeFirst(before, r) && r.eventId == id && d[id] == Columns(r);
        assert MayBeFirst(rows, r);
      }
      if better { d := d[x.eventId := Columns(x)]; }
    }
  }

  /** The name of a topic, as the archive writes it. */
  function TopicName(t: Topic): string
  {
    match t
    case AdClick => "ad.click"
    case AdImpression => "ad.impression"
    case AdQuartile => "ad.quartile"
    case AdRequest => "ad.request"
    case UserBehavior => "user.behavior"
  }

  lemma RankIsNameOrder(a: Topic, b: Topic)
    ensures TopicRank(a) < TopicRank(b) <==> StrLess(TopicName(a), TopicName(b))
  {
    hide StrLess;
    var x, y := TopicName(a), TopicName(b);
    var n := if a == UserBehavior || b == UserBehavior then 0 else 3;
    if a == b {
      StrIrreflexive(x);
    } else if TopicRank(a) < TopicRank(b) {
      assert x[..n] == y[..n] && x[n] < y[n];
      FirstDiffers(x, y, n);
    } else {
      assert x[..n] == y[..n] && y[n] < x[n];
      FirstDiffers(y, x, n);
    }
  }

  /** The row kept of an id holds the columns of a record of that id with the least event_time and, among those,
      the least topic name. */
  lemma EarliestIsKept(rows: seq<Record>, d: map<string, Row>, id: string) returns (r: Record)
    requires IsDedup(rows, d) && id in d
    ensures r in rows && r.eventId == id
    ensures d[id].eventType == r.eventType && d[id].campaign == r.campaign && d[id].adRequestId == r.adRequestId
    ensures d[id].source == r.source && d[id].quartile == r.quartile && d[id].fill == r.fill && d[id].eventTime == r.eventTime
    ensures forall q :: q in rows && q.eventId == id ==>
              r.eventTime <= q.eventTime && (r.eventTime == q.eventTime ==> !StrLess(TopicName(q.topic), TopicName(r.topic)))
  {
    r :| MayBeFirst(rows, r) && r.eventId == id && d[id] == Columns(r);
    hide StrLess, TopicName, TopicRank;
    forall q | q in rows && q.eventId == id
      ensures r.eventTime <= q.eventTime && (r.eventTime == q.eventTime ==> !StrLess(TopicName(q.topic), TopicName(r.topic)))
    {
      RankIsNameOrder(q.topic, r.topic);
    }
  }

  /** Redelivery and order do not matter: sequences with the same records have the same outcome,
      whatever the ties were broken by, when competing rows agree. */
  lemma DedupIgnoresCopiesAndOrder(rows: seq<Record>, rows': seq<Record>, d: map<string, Row>, d': map<string, Row>)
    requires SameRecords(rows, rows') && TiesAgree(rows)
    requires IsDedup(rows, d) && IsDedup(rows', d')
    ensures d == d'
  {
    assert forall r :: MayBeFirst(rows, r) <==> MayBeFirst(rows', r);
    hide MayBeFirst, SameRecords, Columns;
    forall id
      ensures id in d <==> id in d'
    {
      if id in d { var r :| MayBeFirst(rows, r) && r.eventId == id; }
      if id in d' { var r :| MayBeFirst(rows', r) && r.eventId == id; }
    }
    forall id | id in d
      ensures d[id] == d'[id]
    {
      var a :| MayBeFirst(rows, a) && a.eventId == id && d[id] == Columns(a);
      var b :| MayBeFirst(rows', b) && b.eventId == id && d'[id] == Columns(b);
    }
  }

  /** Agreement of the competing rows is exactly what makes a re-run give the same table. */
  lemma RerunIsStable(rows: seq<Record>)
    ensures TiesAgree(rows) <==> forall d, d' :: IsDedup(rows, d) && IsDedup(rows, d') ==> d == d'
  {
    if TiesAgree(rows) {
      forall d, d' | IsDedup(rows, d) && IsDedup(rows, d')
        ensures d == d'
      {
        DedupIgnoresCopiesAndOrder(rows, rows, d, d');
      }
    } else {
      var a, b :| MayBeFirst(rows, a) && MayBeFirst(rows, b) && a.eventId == b.eventId && Columns(a) != Columns(b);
      var d := DedupExists(rows);
      OtherOutcome(rows, d, a);
      OtherOutcome(rows, d, b);
      hide IsDedup;
      var da, db := d[a.eventId := Columns(a)], d[a.eventId := Columns(b)];
      assert da[a.eventId] != db[a.eventId];
    }
  }

  lemma OtherOutcome(rows: seq<Record>, d: map<string, Row>, r: Record)
    requires IsDedup(rows, d) && MayBeFirst(rows, r)
    ensures IsDedup(rows, d[r.eventId := Columns(r)])
  {
    hide MayBeFirst;
  }

  // ---------------------------------------------------------------- 3) one impression per ad request

  const NON_CAMPAIGN := {"none", "nofill", "pending"}

  predicate Settled(row: Row)
  {
    row.campaign.Some? && row.campaign.value !in NON_CAMPAIGN
  }

  /** The four counters taken from the de-duplicated rows. */
  datatype Measure = Raw | Clicks | Completes | Requests

  predicate Is(m: Measure, row: Row)
  {
    Settled(row) &&
    match m
    case Raw => row.eventType == "impression"
    case Clicks => row.eventType == "click"
    case Completes => row.eventType == "quartile" && row.quartile == Some("complete")
    case Requests => row.eventType == "ad_response" && row.fill == Some(true)
  }

  function ImpAll(d: map<string, Row>): map<string, Row>
  {
    map id | id in d && Is(Raw, d[id]) :: d[id]
  }

  /** A column expression `when(source == s, n).otherwise(...)`. */
  datatype Prio = Lit(n: int) | When(src: string, n: int, otherwise: Prio)

  function Eval(p: Prio, source: Option<string>): int
  {
    match p
    case Lit(n) => n
    case When(src, n, otherwise) => if source == Some(src) then n else Eval(otherwise, source)
  }

  /** The first place of the source in list[from..], or length + 1. */
  function PlaceFrom(list: seq<string>, from: nat, source: Option<string>): int
    requires from <= |list|
    decreases |list| - from
  {
    if from == |list| then |list| + 1
    else if source == Some(list[from]) then from
    else PlaceFrom(list, from + 1, source)
  }

  function Place(list: seq<string>, source: Option<string>): int
  {
    PlaceFrom(list, 0, source)
  }

  /** Place is the least index holding the source, and length + 1 if there is none. */
  lemma {:induction false} PlaceIsFirstIndex(list: seq<string>, from: nat, source: Option<string>)
    requires from <= |list|
    ensures var p := PlaceFrom(list, from, source);
            if exists i :: from <= i < |list| && source == Some(list[i])
            then from <= p < |list| && source == Some(list[p])
                 && forall i :: from <= i < p ==> source != Some(list[i])
            else p == |list| + 1
    decreases |list| - from
  {
    if from < |list| && source != Some(list[from]) {
      PlaceIsFirstIndex(list, from + 1, source);
    }
  }

  /** The loop that nests the whens, last source first. */
  method BuildPriority(list: seq<string>) returns (prio: Prio)
    ensures forall source :: Eval(prio, source) == Place(list, source)
  {
    prio := Lit(|list| + 1);
    for i := 0 to |list|
      invariant forall source :: Eval(prio, source) == PlaceFrom(list, |list| - i, source)
    {
      var src := list[|list| - 1 - i];
      prio := When(src, |list| - 1 - i, prio);
    }
  }

  /** coalesce(ad_request_id, event_id) */
  function GroupOf(id: string, row: Row): string
  {
    if row.adRequestId.Some? then row.adRequestId.value else id
  }

  /** ORDER BY prio ASC, event_time ASC, event_id ASC. */
  predicate Precedes(list: seq<string>, imps: map<string, Row>, a: string, b: string)
    requires a in imps && b in imps
  {
    var pa, pb := Place(list, imps[a].source), Place(list, imps[b].source);
    var ta, tb := imps[a].eventTime, imps[b].eventTime;
    pa < pb || (pa == pb && (ta < tb || (ta == tb && StrLess(a, b))))
  }

  function Rivals(imps: map<string, Row>, g: string): set<string>
  {
    set id | id in imps && GroupOf(id, imps[id]) == g
  }

  /** row_number() over (partition by group order by ...) */
  function RowNumber(list: seq<string>, imps: map<string, Row>, id: string): nat
    requires id in imps
  {
    1 + |set j | j in Rivals(imps, GroupOf(id, imps[id])) && Precedes(list, imps, j, id)|
  }

  function Chosen(list: seq<string>, imps: map<string, Row>): map<string, Row>
  {
    map id | id in imps && RowNumber(list, imps, id) == 1 :: imps[id]
  }

  lemma PrecedesIsTotal(list: seq<string>, imps: map<string, Row>, a: string, b: string)
    requires a in imps && b in imps
    ensures a == b || Precedes(list, imps, a, b) || Precedes(list, imps, b, a)
    ensures !Precedes(list, imps, a, a)
  {
    StrTotal(a, b);
    StrIrreflexive(a);
  }

  lemma PrecedesIsTransitive(list: seq<string>, imps: map<string, Row>, a: string, b: string, c: string)
    requires a in imps && b in imps && c in imps
    requires Precedes(list, imps, a, b) && Precedes(list, imps, b, c)
    ensures Precedes(list, imps, a, c)
  {
    hide StrLess, Place;
    if StrLess(a, b) && StrLess(b, c) { StrTransitive(a, b, c); }
  }

  lemma {:induction false} FirstOf(list: seq<string>, imps: map<string, Row>, s: set<string>) returns (w: string)
    requires s != {} && s <= imps.Keys
    ensures w in s && forall j :: j in s && j != w ==> Precedes(list, imps, w, j)
    decreases |s|
  {
    hide Precedes;
    var a :| a in s;
    if s == {a} {
      w := a;
    } else {
      var b := FirstOf(list, imps, s - {a});
      PrecedesIsTotal(list, imps, a, b);
      if Precedes(list, imps, a, b) {
        w := a;
        forall j | j in s && j != a
          ensures Precedes(list, imps, a, j)
        {
          if j != b { PrecedesIsTransitive(list, imps, a, b, j); }
        }
      } else {
        w := b;
      }
    }
  }

  /** Row number 1 is held by the row that precedes all its rivals, and by no other. */
  lemma RowNumberOne(list: seq<string>, imps: map<string, Row>, id: string)
    requires id in imps
    ensures RowNumber(list, imps, id) == 1 <==>
            forall j :: j in Rivals(imps, GroupOf(id, imps[id])) && j != id ==> Precedes(list, imps, id, j)
  {
    var g := GroupOf(id, imps[id]);
    assert id in Rivals(imps, g);
    var w := FirstOf(list, imps, Rivals(imps, g));
    var ahead := set j | j in Rivals(imps, g) && Precedes(list, imps, j, id);
    hide Precedes, Rivals;
    PrecedesIsTotal(list, imps, id, id);
    if w == id {
      forall j | j in Rivals(imps, g)
        ensures j !in ahead
      {
        if j != id { NoCycle(list, imps, j, id); }
      }
      assert ahead == {};
    } else {
      assert w in ahead;
      NoCycle(list, imps, id, w);
    }
  }

  lemma NoCycle(list: seq<string>, imps: map<string, Row>, a: string, b: string)
    requires a in imps && b in imps && a != b
    ensures !(Precedes(list, imps, a, b) && Precedes(list, imps, b, a))
  {
    if Precedes(list, imps, a, b) && Precedes(list, imps, b, a) {
      PrecedesIsTransitive(list, imps, a, b, a);
    }
    PrecedesIsTotal(list, imps, a, a);
  }

  /** Whether two impressions are of one ad request; one without an ad request goes by its own id. */
  predicate Compete(imps: map<string, Row>, a: string, b: string)
    requires a in imps && b in imps
  {
    match (imps[a].adRequestId, imps[b].adRequestId)
    case (Some(x), Some(y)) => x == y
    case (Some(x), None) => x == b
    case (None, Some(y)) => a == y
    case (None, None) => a == b
  }

  /** No competitor has a better-placed source, nor an earlier time in the same place, nor a smaller id at that time. */
  predicate Best(list: seq<string>, imps: map<string, Row>, id: string)
    requires id in imps
  {
    forall j :: j in imps && Compete(imps, id, j) ==>
      var p, q := Place(list, imps[id].source), Place(list, imps[j].source);
      && p <= q
      && (p == q ==> imps[id].eventTime <= imps[j].eventTime)
      && (p == q && imps[id].eventTime == imps[j].eventTime && j != id ==> StrLess(id, j))
  }

  lemma RivalsCompete(imps: map<string, Row>, id: string, j: string)
    requires id in imps
    ensures j in Rivals(imps, GroupOf(id, imps[id])) <==> j in imps && Compete(imps, id, j)
  {
  }

  /** The rows kept are the best of their ad requests. */
  lemma ChosenAreBest(list: seq<string>, imps: map<string, Row>, id: string)
    ensures id in Chosen(list, imps) <==> id in imps && Best(list, imps, id)
    ensures id in Chosen(list, imps) ==> Chosen(list, imps)[id] == imps[id]
  {
    if id in imps {
      RowNumberOne(list, imps, id);
      forall j
        ensures j in Rivals(imps, GroupOf(id, imps[id])) <==> j in imps && Compete(imps, id, j)
      {
        RivalsCompete(imps, id, j);
      }
      hide Rivals, Compete, Place, RowNumber, StrLess;
    }
  }

  /** Exactly one impression of each group survives, the best one: no rival has a better-placed source, nor an
      earlier time in the same place, nor a smaller id at that time. */
  lemma OnePerGroup(list: seq<string>, imps: map<string, Row>, g: string) returns (w: string)
    requires Rivals(imps, g) != {}
    ensures Rivals(imps, g) * Chosen(list, imps).Keys == {w}
    ensures w in imps && Best(list, imps, w)
    ensures forall j :: j in Rivals(imps, g) ==> Place(list, imps[w].source) <= Place(list, imps[j].source)
  {
    w := FirstOf(list, imps, Rivals(imps, g));
    RowNumberOne(list, imps, w);
    assert w in Chosen(list, imps);
    ChosenAreBest(list, imps, w);
    forall j | j in Rivals(imps, g) && j != w
      ensures j !in Chosen(list, imps)
    {
      RowNumberOne(list, imps, j);
      NoCycle(list, imps, j, w);
    }
    hide Rivals, RowNumber, Place, Best;
  }

  /** Under the default order, a group that holds a server impression keeps a server impression. */
  lemma ServerWins(imps: map<string, Row>, id: string)
    requires id in imps && imps[id].source == Some("server")
    ensures exists w :: w in Rivals(imps, GroupOf(id, imps[id])) && w in Chosen(["server", "client"], imps)
                        && imps[w].source == Some("server")
  {
    var list := ["server", "client"];
    var g := GroupOf(id, imps[id]);
    assert id in Rivals(imps, g);
    var w := OnePerGroup(list, imps, g);
    assert w in Rivals(imps, g) * Chosen(list, imps).Keys;
    PlaceIsFirstIndex(list, 0, imps[w].source);
    assert Place(list, Some("server")) == 0;
  }

  /** The groups of the impressions that are not kept. */
  function Losers(list: seq<string>, imps: map<string, Row>): map<string, string>
  {
    map id | id in imps && id !in Chosen(list, imps) :: GroupOf(id, imps[id])
  }

  lemma LosersOfGroup(list: seq<string>, imps: map<string, Row>, g: string)
    requires Rivals(imps, g) != {}
    ensures |Fiber(Losers(list, imps), g)| == |Rivals(imps, g)| - 1
  {
    hide RowNumber, Place;
    var w := OnePerGroup(list, imps, g);
    assert w in Rivals(imps, g) * Chosen(list, imps).Keys;
    assert Fiber(Losers(list, imps), g) == Rivals(imps, g) - {w};
  }

  /** What each group gives up: one less than its size. */
  function Surplus(imps: map<string, Row>): map<string, int>
  {
    map id | id in imps :: GroupOf(id, imps[id]) := |Rivals(imps, GroupOf(id, imps[id]))| - 1
  }

  /** The impressions given up to the choice, group by group. */
  lemma DiscardedPerGroup(list: seq<string>, imps: map<string, Row>)
    ensures |imps| - |Chosen(list, imps)| == SumMap(Surplus(imps))
    ensures |Chosen(list, imps)| <= |imps|
  {
    var losers, surplus := Losers(list, imps), Surplus(imps);
    forall g | g in surplus
      ensures surplus[g] == |Fiber(losers, g)|
    {
      var id :| id in imps && GroupOf(id, imps[id]) == g;
      assert id in Rivals(imps, g);
      hide Rivals, Fiber;
      LosersOfGroup(list, imps, g);
    }
    hide Rivals, Fiber;
    CountByKey(losers, surplus);
    KeptAndLost(list, imps);
  }

  lemma KeptAndLost(list: seq<string>, imps: map<string, Row>)
    ensures |imps| == |Chosen(list, imps)| + |Losers(list, imps)|
  {
    hide RowNumber;
    var kept := Chosen(list, imps);
    PartSize(imps, kept.Keys);
    assert Losers(list, imps).Keys == (imps - kept.Keys).Keys;
    assert |Losers(list, imps)| == |Losers(list, imps).Keys|;
    assert |imps - kept.Keys| == |(imps - kept.Keys).Keys|;
    assert |kept| == |kept.Keys|;
  }
}
