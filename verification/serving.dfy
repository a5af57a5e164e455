/** The Redis writer of redis-writer/writer.py: keyed upserts of the minute rows, a sorted-set index
    over them, and the range query that the reconciliation reads. */
module Serving {
  import opened Finite
  import opened Events

  const TTL_SECONDS := 48 * 3600
  const TTL_MS := TTL_SECONDS * 1000

  /** One `agg.minute` message; `windowStart` in epoch seconds. */
  datatype Msg = Msg(
    campaign: string, windowStart: int,
    impressions: nat, clicks: nat, completes: nat, requests: nat, ssaiDupes: nat)

  /** agg:1m:<campaign_id>:<yyyymmddHHMM>, with the minute as a number. */
  datatype Key = Key(campaign: string, minute: int)

  function KeyOf(m: Msg): Key
  {
    Key(m.campaign, m.windowStart / 60)
  }

  /** Two rows share a key only if they are of one campaign and minute. */
  lemma KeysApart(a: Msg, b: Msg)
    requires a.windowStart % 60 == 0 && b.windowStart % 60 == 0
    ensures KeyOf(a) == KeyOf(b) <==> a.campaign == b.campaign && a.windowStart == b.windowStart
  {
  }

  /** A hash and the time (ms) at which it expires. */
  datatype Hash = Hash(fields: Msg, expireAt: int)

  /** late:1m:<minute>, with its expiry. */
  datatype Counter = Counter(count: nat, expireAt: int)

  /** INCR: an absent or expired key starts from 0. */
  function Incr(counters: map<int, Counter>, m: int, now: int): map<int, Counter>
  {
    counters[m := Counter((if m in counters && now < counters[m].expireAt then counters[m].count else 0) + 1, now + TTL_MS)]
  }

  /** `?dt=` as the first second of a day, and `?from=&to=` in seconds. */
  datatype Query = Query(dt: int, from: Option<int>, to: Option<int>)

  /** The first and last second a query asks for: whole minutes [from, to), else the day. */
  function FirstSecond(q: Query): int
  {
    if q.from.Some? && q.to.Some? then q.from.value / 60 * 60 else q.dt
  }

  function LastSecond(q: Query): int
  {
    if q.from.Some? && q.to.Some? then q.to.value / 60 * 60 - 1 else q.dt + 86_400 - 1
  }

  /** With both ends given a query asks for the minutes that end after `from` and have ended by `to`; else for
      the seconds of its day. */
  lemma AskedFor(q: Query, w: int)
    ensures q.from.Some? && q.to.Some? && w % 60 == 0 ==>
              (FirstSecond(q) <= w <= LastSecond(q) <==> q.from.value < w + 60 <= q.to.value)
    ensures q.from.None? || q.to.None? ==> (FirstSecond(q) <= w <= LastSecond(q) <==> q.dt <= w < q.dt + 24 * 3600)
  {
    if q.from.Some? && q.to.Some? && w % 60 == 0 {
      WholeMinutes(q.from.value, w / 60);
      WholeMinutes(q.to.value, w / 60);
    }
  }

  lemma WholeMinutes(t: int, n: int)
    ensures t / 60 * 60 <= 60 * n <==> t < 60 * n + 60
  {
  }

  function LateRun(counters: map<int, Counter>, m: int, times: seq<int>): map<int, Counter>
  {
    if times == [] then counters else Incr(LateRun(counters, m, times[..|times| - 1]), m, times[|times| - 1])
  }

  /** A minute's counter holds the messages since the last gap of 48 hours, and each other counter stays. */
  lemma {:induction false} CountsSinceGap(counters: map<int, Counter>, m: int, times: seq<int>, since: nat)
    requires since < |times| && forall i :: since < i < |times| ==> times[i] < times[i - 1] + 172_800_000
    requires if since == 0 then m !in counters else times[since] >= times[since - 1] + 172_800_000
    ensures var after := LateRun(counters, m, times);
            && m in after && after[m] == Counter(|times| - since, times[|times| - 1] + 172_800_000)
            && forall j :: j != m ==> (j in after <==> j in counters) && (j in counters ==> after[j] == counters[j])
    decreases |times|
  {
    var n := |times| - 1;
    OthersStay(counters, m, times);
    if since < n {
      CountsSinceGap(counters, m, times[..n], since);
    } else if n > 0 {
      LastExpiry(counters, m, times[..n]);
    } else {
      assert times[..0] == [];
    }
  }

  lemma {:induction false} OthersStay(counters: map<int, Counter>, m: int, times: seq<int>)
    ensures var after := LateRun(counters, m, times);
            forall j :: j != m ==> (j in after <==> j in counters) && (j in counters ==> after[j] == counters[j])
  {
    if times != [] { OthersStay(counters, m, times[..|times| - 1]); }
  }

  lemma LastExpiry(counters: map<int, Counter>, m: int, times: seq<int>)
    requires times != []
    ensures m in LateRun(counters, m, times) && LateRun(counters, m, times)[m].expireAt == times[|times| - 1] + 172_800_000
  {
  }

  /** A message and the time (ms) at which it was handled. */
  datatype Handled = Handled(msg: Msg, at: int)

  /** No message comes before its window starts. */
  ghost predicate Prompt(log: seq<Handled>)
  {
    forall h :: h in log ==> h.msg.windowStart * 1000 <= h.at
  }

  /** The last message of each key. */
  function Last(log: seq<Handled>): map<Key, Handled>
  {
    if log == [] then map[]
    else Last(log[..|log| - 1])[KeyOf(log[|log| - 1].msg) := log[|log| - 1]]
  }

  datatype Field = FImpressions | FClicks | FCompletes | FRequests | FSsaiDupes | FMinutes

  function Pick(m: Msg, f: Field): int
  {
    match f
    case FImpressions => m.impressions
    case FClicks => m.clicks
    case FCompletes => m.completes
    case FRequests => m.requests
    case FSsaiDupes => m.ssaiDupes
    case FMinutes => 1
  }

  /** One campaign's entry of the answer. */
  datatype Sums = Sums(impressions: int, clicks: int, completes: int, requests: int, ssaiDupes: int, minutes: int)

  const NO_SUMS := Sums(0, 0, 0, 0, 0, 0)

  function Plus(s: Sums, m: Msg): Sums
  {
    Sums(s.impressions + m.impressions, s.clicks + m.clicks, s.completes + m.completes,
         s.requests + m.requests, s.ssaiDupes + m.ssaiDupes, s.minutes + 1)
  }

  function Column(rows: map<Key, Msg>, c: string, f: Field): map<Key, int>
  {
    map k | k in rows && k.campaign == c :: Pick(rows[k], f)
  }

  /** The plain sum of one field over the rows of one campaign. */
  ghost function SumOf(rows: map<Key, Msg>, c: string, f: Field): int
  {
    SumMap(Column(rows, c, f))
  }

  /** All fields of one campaign's entry. */
  ghost function SumsOf(rows: map<Key, Msg>, c: string): Sums
  {
    Sums(SumOf(rows, c, FImpressions), SumOf(rows, c, FClicks), SumOf(rows, c, FCompletes),
         SumOf(rows, c, FRequests), SumOf(rows, c, FSsaiDupes), SumOf(rows, c, FMinutes))
  }

  /** The answer holds the plain sums, for exactly the campaigns that have a row. */
  ghost predicate Totals(out: map<string, Sums>, rows: map<Key, Msg>)
  {
    && (forall c :: c in out <==> HasRow(rows, c))
    && (forall c :: c in out ==> out[c] == SumsOf(rows, c))
  }

  lemma SumOfAdd(rows: map<Key, Msg>, k: Key, m: Msg, c: string, f: Field)
    requires k !in rows
    ensures SumOf(rows[k := m], c, f) == SumOf(rows, c, f) + if k.campaign == c then Pick(m, f) else 0
  {
    var before := Column(rows, c, f);
    var rows' := rows[k := m];
    var after := Column(rows', c, f);
    if k.campaign == c {
      assert after == before[k := Pick(m, f)];
      SumUpdate(before, k, Pick(m, f));
    } else {
      assert after == before;
    }
  }

  lemma SumOfNone(rows: map<Key, Msg>, c: string, f: Field)
    requires forall k :: k in rows ==> k.campaign != c
    ensures SumOf(rows, c, f) == 0
  {
    assert Column(rows, c, f) == map[];
  }

  lemma SumsAdd(rows: map<Key, Msg>, k: Key, m: Msg, c: string)
    requires k !in rows
    ensures SumsOf(rows[k := m], c) == if k.campaign == c then Plus(SumsOf(rows, c), m) else SumsOf(rows, c)
  {
    hide SumOf;
    forall f
      ensures SumOf(rows[k := m], c, f) == SumOf(rows, c, f) + if k.campaign == c then Pick(m, f) else 0
    {
      SumOfAdd(rows, k, m, c, f);
    }
  }

  lemma NoSumsOf(rows: map<Key, Msg>, c: string)
    requires !HasRow(rows, c)
    ensures SumsOf(rows, c) == NO_SUMS
  {
    hide SumOf;
    forall f
      ensures SumOf(rows, c, f) == 0
    {
      SumOfNone(rows, c, f);
    }
  }

  /** c has a row. */
  predicate HasRow(rows: map<Key, Msg>, c: string)
  {
    exists k :: k in rows && k.campaign == c
  }

  lemma HasRowStill(rows: map<Key, Msg>, k: Key, m: Msg, c: string)
    ensures HasRow(rows[k := m], c) <==> c == k.campaign || HasRow(rows - {k}, c)
  {
    var rows' := rows[k := m];
    assert k in rows';
    if j :| j in rows - {k} && j.campaign == c {
      assert j in rows';
    }
    if j :| j in rows' && j.campaign == c && j != k {
      assert j in rows - {k};
    }
  }

  lemma TotalsAdd(out: map<string, Sums>, rows: map<Key, Msg>, k: Key, m: Msg)
    requires Totals(out, rows) && k !in rows
    ensures Totals(out[k.campaign := Plus(if k.campaign in out then out[k.campaign] else NO_SUMS, m)], rows[k := m])
  {
    var c0 := k.campaign;
    var out' := out[c0 := Plus(if c0 in out then out[c0] else NO_SUMS, m)];
    assert rows - {k} == rows;
    forall c
      ensures c in out' <==> HasRow(rows[k := m], c)
    {
      HasRowStill(rows, k, m, c);
      hide HasRow;
    }
    forall c | c in out'
      ensures out'[c] == SumsOf(rows[k := m], c)
    {
      SumsAdd(rows, k, m, c);
      if c == c0 && c0 !in out { NoSumsOf(rows, c); }
      hide SumsOf, HasRow;
    }
  }

  /** Hashes hold the last message of their key; the index lacks only keys pruned for age. */
  ghost predicate Coherent(hashes: map<Key, Hash>, index: map<Key, int>, log: seq<Handled>, clock: int)
  {
    && hashes.Keys == Last(log).Keys
    && (forall k :: k in hashes ==> hashes[k] == Hash(Last(log)[k].msg, Last(log)[k].at + TTL_MS) && KeyOf(hashes[k].fields) == k)
    && index.Keys <= hashes.Keys
    && (forall k :: k in index ==> index[k] == hashes[k].fields.windowStart)
    && (forall k :: k in hashes && k !in index ==> hashes[k].fields.windowStart <= clock / 1000 - TTL_SECONDS)
  }

  /** After a message the index lacks nothing of the last 48 hours and holds nothing older (but before the epoch). */
  lemma ReindexKeeps(index: map<Key, int>, d: Msg, now: int, k: Key)
    requires k in index || k == KeyOf(d)
    ensures var score := if k == KeyOf(d) then d.windowStart else index[k];
            var index' := Reindex(index, d, now);
            && (k in index' <==> score < 0 || score > now / 1000 - 172_800)
            && (k in index' ==> index'[k] == score)
  {
  }

  /** ZADD followed by ZREMRANGEBYSCORE 0 (now - TTL). */
  function Reindex(index: map<Key, int>, d: Msg, now: int): map<Key, int>
  {
    var indexed := index[KeyOf(d) := d.windowStart];
    map k | k in indexed && !(0 <= indexed[k] <= now / 1000 - TTL_SECONDS) :: indexed[k]
  }

  lemma HandlingIsCoherent(hashes: map<Key, Hash>, index: map<Key, int>, log: seq<Handled>, clock: int, d: Msg, now: int)
    requires Coherent(hashes, index, log, clock) && (log == [] || clock <= now)
    ensures Coherent(hashes[KeyOf(d) := Hash(d, now + TTL_MS)], Reindex(index, d, now), log + [Handled(d, now)], now)
  {
    var log' := log + [Handled(d, now)];
    assert log'[..|log|] == log;
    assert Last(log') == Last(log)[KeyOf(d) := Handled(d, now)];
    hide Last;
  }

  lemma TakeOne<K, V>(m: map<K, V>, keys: set<K>, k: K)
    requires k in keys
    ensures m - (keys - {k}) == if k in m then (m - keys)[k := m[k]] else m - keys
  {
  }

  class RedisWriter {
    var hashes: map<Key, Hash>
    var index: map<Key, int>              // agg:index, the score of each member
    var lateMinutes: map<int, Counter>    // late:1m:<minute>
    var lateTotal: nat                    // late:total
    var aggCount: nat
    var lateCount: nat
    ghost var log: seq<Handled>           // every agg.minute message handled, with its time
    ghost var clock: int                  // the time of the last one

    ghost predicate Valid()
      reads this
    {
      Coherent(hashes, index, log, clock)
    }

    constructor ()
      ensures Valid() && log == [] && lateTotal == 0 && lateMinutes == map[] && lateCount == 0 && aggCount == 0
    {
      hashes, index, lateMinutes := map[], map[], map[];
      lateTotal, aggCount, lateCount := 0, 0, 0;
      log, clock := [], 0;
    }

    /** HSET, EXPIRE, ZADD, then prune the index of scores in [0, now - TTL]. */
    method HandleAgg(d: Msg, now: int)
      requires Valid() && (log == [] || clock <= now)
      modifies this
      ensures Valid() && log == old(log) + [Handled(d, now)] && clock == now
      ensures index == Reindex(old(index), d, now)
      ensures hashes == old(hashes)[KeyOf(d) := Hash(d, now + 172_800_000)]
      ensures aggCount == old(aggCount) + 1
      ensures lateMinutes == old(lateMinutes) && lateTotal == old(lateTotal) && lateCount == old(lateCount)
    {
      HandlingIsCoherent(hashes, index, log, clock, d, now);
      hide Coherent;
      var key := KeyOf(d);
      hashes := hashes[key := Hash(d, now + TTL_MS)];
      index := index[key := d.windowStart];
      Prune(now / 1000 - TTL_SECONDS);
      aggCount := aggCount + 1;
      log, clock := log + [Handled(d, now)], now;
    }

    /** ZREMRANGEBYSCORE agg:index 0 bound */
    method Prune(bound: int)
      modifies this`index
      ensures index == map k | k in old(index) && !(0 <= old(index)[k] <= bound) :: old(index)[k]
    {
      index := map k | k in index && !(0 <= index[k] <= bound) :: index[k];
    }

    /** A late event without a time is ignored; any other is counted, repeats included. Only the minute's
        counter expires. */
    method HandleLate(eventTime: Option<int>, now: int)
      requires Valid()
      modifies this
      ensures Valid() && log == old(log) && hashes == old(hashes) && index == old(index) && clock == old(clock)
      ensures aggCount == old(aggCount)
      ensures eventTime.None? ==> lateTotal == old(lateTotal) && lateMinutes == old(lateMinutes) && lateCount == old(lateCount)
      ensures eventTime.Some? ==>
                && lateTotal == old(lateTotal) + 1 && lateCount == old(lateCount) + 1
                && lateMinutes == Incr(old(lateMinutes), eventTime.value / 60, now)
    {
      if eventTime.None? {
        return;
      }
      var m := eventTime.value / 60;
      var count := if m in lateMinutes && now < lateMinutes[m].expireAt then lateMinutes[m].count else 0;
      lateMinutes := lateMinutes[m := Counter(count + 1, now + TTL_MS)];
      lateTotal := lateTotal + 1;
      lateCount := lateCount + 1;
    }

    /** What a range query at time now can see: indexed, not expired, with a campaign. */
    function Visible(start: int, end: int, now: int): map<Key, Msg>
      reads this
    {
      map k | k in index && start <= index[k] <= end && k in hashes && now < hashes[k].expireAt && k.campaign != "" ::
        hashes[k].fields
    }

    /** `_sum_range`: the keys of the index range, their hashes, summed by campaign. */
    method SumRange(start: int, end: int, now: int) returns (out: map<string, Sums>)
      requires Valid()
      ensures Totals(out, Visible(start, end, now))
    {
      out := map[];
      var keys := set k | k in index && start <= index[k] <= end;
      ghost var rows: map<Key, Msg> := map[];
      ghost var visible := Visible(start, end, now);
      assert Totals(out, rows) && rows == visible - keys;
      hide Totals, Plus, Last;
      while keys != {}
        invariant keys <= set k | k in index && start <= index[k] <= end
        invariant rows == visible - keys
        invariant Totals(out, rows)
        decreases |keys|
      {
        var k :| k in keys;
        TakeOne(visible, keys, k);
        keys := keys - {k};
        if k !in hashes || now >= hashes[k].expireAt {
          continue;
        }
        var h := hashes[k].fields;
        var cid := h.campaign;
        assert cid == k.campaign;
        if cid == "" {
          continue;
        }
        assert k in visible && visible[k] == h;
        TotalsAdd(out, rows, k, h);
        var acc := if cid in out then out[cid] else NO_SUMS;
        out := out[cid := Plus(acc, h)];
        rows := rows[k := h];
      }
      assert visible - keys == visible;
    }

    /** Nothing of a range inside the last TTL is hidden by pruning or expiry, as long as rows are
        written no earlier than their window starts: the query sees the last message of every key. */
    lemma RecentRangeIsComplete(start: int, end: int, now: int)
      requires Valid() && clock <= now && now - 172_800_000 < start * 1000
      requires Prompt(log)
      ensures Visible(start, end, now) == LastIn(log, start, end)
    {
      forall k | k in Last(log)
        ensures Last(log)[k] in log
      {
        LastIsHandled(log, k);
      }
    }

    /** What a query sees of a key is its last message, if that was handled within 48 hours and the key is indexed. */
    lemma VisibleIs(start: int, end: int, now: int, k: Key)
      requires Valid()
      ensures k in Visible(start, end, now) <==>
              k in LastIn(log, start, end) && k in index && now < Last(log)[k].at + 172_800_000
      ensures k in Visible(start, end, now) ==> Visible(start, end, now)[k] == LastIn(log, start, end)[k]
    {
      hide Last;
    }

    /** `/agg/summary`: with both ends given they are cut to the minute and the range is half open,
        else it is a day. An old range may have lost rows to pruning or expiry; a recent one has not. */
    method Summary(q: Query, now: int) returns (out: map<string, Sums>, late: nat)
      requires Valid()
      ensures Totals(out, Visible(FirstSecond(q), LastSecond(q), now)) && late == lateTotal
      ensures clock <= now && now - 172_800_000 < FirstSecond(q) * 1000 && Prompt(log) ==>
                Totals(out, LastIn(log, FirstSecond(q), LastSecond(q)))
    {
      hide Totals, Prompt;
      var start, end;
      if q.from.Some? && q.to.Some? {
        start := q.from.value / 60 * 60;
        end := q.to.value / 60 * 60 - 1;
      } else {
        start := q.dt;
        end := start + 86_400 - 1;
      }
      out := SumRange(start, end, now);
      late := lateTotal;
      if clock <= now && now - TTL_MS < start * 1000 && Prompt(log) {
        RecentRangeIsComplete(start, end, now);
      }
    }
  }

  /** The last message of every key whose window starts in [start, end]. */
  function LastIn(log: seq<Handled>, start: int, end: int): map<Key, Msg>
  {
    map k | k in Last(log) && start <= Last(log)[k].msg.windowStart <= end && k.campaign != "" :: Last(log)[k].msg
  }

  lemma {:induction false} LastIsHandled(log: seq<Handled>, k: Key)
    requires k in Last(log)
    ensures Last(log)[k] in log && KeyOf(Last(log)[k].msg) == k
  {
    var before := log[..|log| - 1];
    if k != KeyOf(log[|log| - 1].msg) {
      LastIsHandled(before, k);
    }
  }

  lemma {:induction false} HandledHasLast(log: seq<Handled>, h: Handled)
    requires h in log
    ensures KeyOf(h.msg) in Last(log)
  {
    var before := log[..|log| - 1];
    if h != log[|log| - 1] {
      assert h in before;
      HandledHasLast(before, h);
    }
  }
}
