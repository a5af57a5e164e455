/** Budget-weighted choice of a campaign (CampaignCache.pick), in exact arithmetic. */
module CampaignCache {
  import opened Finite
  import opened Events

  datatype Campaign = Campaign(campaignId: string, dailyBudget: real)

  /** The sum of the first n budgets. */
  function Prefix(list: seq<Campaign>, n: nat): real
    requires n <= |list|
  {
    if n == 0 then 0.0 else Prefix(list, n - 1) + list[n - 1].dailyBudget
  }

  function TotalBudget(list: seq<Campaign>): real
  {
    Prefix(list, |list|)
  }

  /** A uniform draw from [0, total). */
  function Draw(u: real, total: real): (r: real)
    ensures 0.0 <= u < 1.0 && total > 0.0 ==> 0.0 <= r < total
  {
    u * total
  }

  /** k is where the running sum of budgets first reaches r, or the last campaign. */
  predicate Reaches(list: seq<Campaign>, r: real, k: nat)
  {
    && k < |list|
    && (forall j: nat :: 0 < j <= k ==> Prefix(list, j) < r)
    && (r <= Prefix(list, k + 1) || k == |list| - 1)
  }

  /** What a weighted pick may return: where the running sum reaches the draw, or a uniform choice when
      there is no budget at all. */
  predicate Drawn(list: seq<Campaign>, u: real, index: nat, c: Campaign)
  {
    if TotalBudget(list) <= 0.0 then index < |list| && c == list[index]
    else exists k: nat :: k < |list| && Reaches(list, Draw(u, TotalBudget(list)), k) && c == list[k]
  }

  /** What that means for the draw u, when no budget is negative: c is the campaign whose interval of budgets
      holds u * total, the first one for u = 0. */
  predicate HoldsDraw(list: seq<Campaign>, u: real, index: nat, c: Campaign)
  {
    var total := TotalBudget(list);
    && (total <= 0.0 ==> index < |list| && c == list[index])
    && (total > 0.0 && NoNegativeBudget(list) && u > 0.0 ==>
         exists k: nat :: k < |list| && c == list[k] && Prefix(list, k) < u * total <= Prefix(list, k + 1))
    && (total > 0.0 && NoNegativeBudget(list) && u == 0.0 ==> list != [] && c == list[0])
  }

  /** The first campaign of the list with this id. */
  predicate FirstWithId(list: seq<Campaign>, id: string, c: Campaign)
  {
    exists i :: 0 <= i < |list| && list[i] == c && c.campaignId == id && forall j :: 0 <= j < i ==> list[j].campaignId != id
  }

  /** The id is given, not blank, and in the list. */
  predicate Active(list: seq<Campaign>, id: Option<string>)
  {
    id.Some? && !Blank(id.value) && exists i :: 0 <= i < |list| && list[i].campaignId == id.value
  }

  class CampaignCache {
    var cache: seq<Campaign>

    constructor (rows: seq<Campaign>)
      ensures cache == rows
    {
      cache := rows;
    }

    /** `rows` is what the query returned, or None when it failed: the old list then stays. */
    method Refresh(rows: Option<seq<Campaign>>)
      modifies this
      ensures cache == if rows.Some? then rows.value else old(cache)
    {
      if rows.Some? {
        cache := rows.value;
      }
    }

    /** `u` and `index` are the random draws: u in [0, 1), index within the list. */
    method Pick(u: real, index: nat) returns (c: Option<Campaign>)
      requires 0.0 <= u < 1.0 && (cache != [] ==> index < |cache|)
      ensures c.None? <==> cache == []
      ensures c.Some? ==> c.value in cache
      ensures c.Some? ==> Drawn(cache, u, index, c.value)
      ensures c.Some? ==> HoldsDraw(cache, u, index, c.value)
    {
      hide *;
      if cache == [] {
        return None;
      }
      var total := Total();
      if total <= 0.0 {
        UniformHolds(cache, u, index);
        return Some(cache[index]);
      }
      var k := Walk(Draw(u, total));
      WalkHolds(cache, u, index, k);
      return Some(cache[k]);
    }

    /** The sum of the budgets. */
    method Total() returns (total: real)
      ensures total == TotalBudget(cache)
    {
      total := 0.0;
      for i := 0 to |cache|
        invariant total == Prefix(cache, i)
      {
        total := total + cache[i].dailyBudget;
      }
    }

    /** Take budgets off the draw until nothing is left of it. */
    method Walk(draw: real) returns (k: nat)
      requires cache != []
      ensures k < |cache| && Reaches(cache, draw, k)
    {
      var r := draw;
      for i := 0 to |cache|
        invariant r == draw - Prefix(cache, i)
        invariant forall j: nat :: 0 < j <= i ==> Prefix(cache, j) < draw
      {
        r := r - cache[i].dailyBudget;
        if r <= 0.0 {
          return i;
        }
      }
      return |cache| - 1;
    }

    /** The first active campaign with this id; a missing or blank id finds none. */
    method ById(campaignId: Option<string>) returns (c: Option<Campaign>)
      ensures c.Some? <==> Active(cache, campaignId)
      ensures c.Some? <==> campaignId.Some? && (exists ch :: ch in campaignId.value && ch !in " \t\n\r")
                           && exists i :: 0 <= i < |cache| && cache[i].campaignId == campaignId.value
      ensures c.Some? ==> cache != []
      ensures c.Some? ==> FirstWithId(cache, campaignId.value, c.value)
      ensures c.Some? ==> exists i :: 0 <= i < |cache| && c.value == cache[i] && cache[i].campaignId == campaignId.value
                                      && forall j :: 0 <= j < i ==> cache[j].campaignId != campaignId.value
    {
      if campaignId.Some? { NotBlank(campaignId.value); }
      hide Blank;
      if campaignId.None? || Blank(campaignId.value) {
        return None;
      }
      for i := 0 to |cache|
        invariant forall j :: 0 <= j < i ==> cache[j].campaignId != campaignId.value
      {
        if cache[i].campaignId == campaignId.value {
          return Some(cache[i]);
        }
      }
      return None;
    }
  }

  predicate Blank(s: string)
  {
    forall ch :: ch in s ==> ch in {' ', '\t', '\n', '\r'}
  }

  lemma NotBlank(s: string)
    ensures Blank(s) <==> !exists ch :: ch in s && ch !in " \t\n\r"
  {
    assert " \t\n\r" == [' ', '\t', '\n', '\r'];
    forall ch: char
      ensures ch in " \t\n\r" <==> ch in {' ', '\t', '\n', '\r'}
    {
    }
  }

  // ---------------------------------------------------------------- what the choice means

  predicate NoNegativeBudget(list: seq<Campaign>)
  {
    forall c :: c in list ==> c.dailyBudget >= 0.0
  }

  lemma {:induction false} PrefixGrows(list: seq<Campaign>, i: nat, j: nat)
    requires NoNegativeBudget(list) && i <= j <= |list|
    ensures Prefix(list, i) <= Prefix(list, j)
    decreases j
  {
    if i < j {
      assert list[j - 1] in list;
      PrefixGrows(list, i, j - 1);
    }
  }

  /** For 0 < r <= total the choice is the one campaign whose interval (prefix, prefix + budget] holds r. */
  lemma ChosenInterval(list: seq<Campaign>, r: real, k: nat)
    requires NoNegativeBudget(list) && 0.0 < r <= TotalBudget(list) && k < |list|
    ensures Reaches(list, r, k) <==> Prefix(list, k) < r <= Prefix(list, k + 1)
  {
    if Prefix(list, k) < r <= Prefix(list, k + 1) {
      forall j: nat | 0 < j <= k
        ensures Prefix(list, j) < r
      {
        PrefixGrows(list, j, k);
      }
    }
  }

  /** What the draw u chooses: the campaign whose interval holds u * total, and the first one for u = 0. */
  lemma DrawnInterval(list: seq<Campaign>, u: real, k: nat)
    requires 0.0 <= u < 1.0 && TotalBudget(list) > 0.0 && k < |list| && Reaches(list, Draw(u, TotalBudget(list)), k)
    ensures NoNegativeBudget(list) && u > 0.0 ==> Prefix(list, k) < u * TotalBudget(list) <= Prefix(list, k + 1)
    ensures NoNegativeBudget(list) && u == 0.0 ==> k == 0
  {
    var total := TotalBudget(list);
    var r := Draw(u, total);
    assert r == u * total;
    hide Prefix, Reaches, NoNegativeBudget, TotalBudget;
    if NoNegativeBudget(list) && u > 0.0 {
      assert r > 0.0;
      assert r <= TotalBudget(list);
      ChosenInterval(list, r, k);
    } else if NoNegativeBudget(list) {
      FirstAtZero(list, k);
    }
  }

  lemma FirstAtZero(list: seq<Campaign>, k: nat)
    requires NoNegativeBudget(list) && Reaches(list, 0.0, k)
    ensures k == 0
  {
    if k > 0 { PrefixGrows(list, 0, k); }
  }

  lemma UniformHolds(list: seq<Campaign>, u: real, index: nat)
    requires TotalBudget(list) <= 0.0 && index < |list|
    ensures Drawn(list, u, index, list[index]) && HoldsDraw(list, u, index, list[index])
  {
    hide TotalBudget, NoNegativeBudget, Prefix;
  }

  lemma WalkHolds(list: seq<Campaign>, u: real, index: nat, k: nat)
    requires 0.0 <= u < 1.0 && !(TotalBudget(list) <= 0.0) && k < |list| && Reaches(list, Draw(u, TotalBudget(list)), k)
    ensures Drawn(list, u, index, list[k]) && HoldsDraw(list, u, index, list[k])
  {
    DrawnInterval(list, u, k);
    hide TotalBudget, NoNegativeBudget, Prefix, Reaches, Draw;
  }

  /** Proportionality: the draws in (0, 1) that choose campaign k form an interval of length budget / total. */
  lemma DrawsOf(list: seq<Campaign>, k: nat) returns (lo: real, hi: real)
    requires NoNegativeBudget(list) && TotalBudget(list) > 0.0 && k < |list|
    ensures 0.0 <= lo <= hi <= 1.0 && hi - lo == list[k].dailyBudget / TotalBudget(list)
    ensures forall u :: 0.0 < u < 1.0 ==> (lo < u <= hi <==> Reaches(list, Draw(u, TotalBudget(list)), k))
  {
    var total, a, b := TotalBudget(list), Prefix(list, k), Prefix(list, k + 1);
    Steps(list, k);
    hide *;
    lo, hi := a / total, b / total;
    Shares(a, b, total);
    forall u | 0.0 < u < 1.0
      ensures lo < u <= hi <==> Reaches(list, Draw(u, total), k)
    {
      Between(a, u, total);
      Between(b, u, total);
      DrawInside(list, u, k);
    }
  }

  lemma Steps(list: seq<Campaign>, k: nat)
    requires NoNegativeBudget(list) && k < |list|
    ensures 0.0 <= Prefix(list, k) <= Prefix(list, k + 1) <= TotalBudget(list)
    ensures Prefix(list, k + 1) - Prefix(list, k) == list[k].dailyBudget
  {
    PrefixGrows(list, 0, k);
    PrefixGrows(list, k, k + 1);
    PrefixGrows(list, k + 1, |list|);
  }

  lemma DrawInside(list: seq<Campaign>, u: real, k: nat)
    requires NoNegativeBudget(list) && TotalBudget(list) > 0.0 && k < |list| && 0.0 < u < 1.0
    ensures Reaches(list, Draw(u, TotalBudget(list)), k) <==> Prefix(list, k) < u * TotalBudget(list) <= Prefix(list, k + 1)
  {
    var r := Draw(u, TotalBudget(list));
    assert r == u * TotalBudget(list);
    hide Prefix, Reaches, NoNegativeBudget, TotalBudget;
    assert r > 0.0 && r <= TotalBudget(list);
    ChosenInterval(list, r, k);
  }

  lemma Between(a: real, u: real, total: real)
    requires total > 0.0
    ensures a / total < u <==> a < u * total
    ensures u <= a / total <==> u * total <= a
  {
    var q := a / total;
    assert q * total == a;
    Scaled(q, u, total);
    Scaled(u, q, total);
  }

  lemma Scaled(x: real, y: real, t: real)
    requires t > 0.0
    ensures x < y <==> x * t < y * t
    ensures x <= y <==> x * t <= y * t
  {
    assert y * t - x * t == (y - x) * t;
  }

  lemma Shares(a: real, b: real, total: real)
    requires 0.0 <= a <= b <= total && total > 0.0
    ensures 0.0 <= a / total <= b / total <= 1.0 && b / total - a / total == (b - a) / total
  {
    var p, q, r := a / total, b / total, (b - a) / total;
    assert p * total == a && q * total == b && r * total == b - a;
    assert (q - p) * total == q * total - p * total;
    Scaled(q - p, r, total);
    Scaled(r, q - p, total);
    Scaled(0.0, p, total);
    Scaled(p, q, total);
    Scaled(q, 1.0, total);
  }

  /** Some campaign is always chosen, and never two. */
  lemma {:induction false} ExactlyOne(list: seq<Campaign>, r: real)
    requires list != []
    ensures exists k: nat :: Reaches(list, r, k)
    ensures forall k: nat, k': nat :: Reaches(list, r, k) && Reaches(list, r, k') ==> k == k'
  {
    var k := 0;
    while k < |list| - 1 && Prefix(list, k + 1) < r
      invariant k < |list|
      invariant forall j: nat :: 0 < j <= k ==> Prefix(list, j) < r
    {
      k := k + 1;
    }
    assert Reaches(list, r, k);
  }

  /** A draw is u * total with 0 <= u < 1. A campaign without budget is chosen only by the draw 0,
      and only when it comes first. */
  lemma ZeroBudgetOnlyAtZero(list: seq<Campaign>, r: real, k: nat)
    requires NoNegativeBudget(list) && 0.0 <= r < TotalBudget(list) && Reaches(list, r, k)
    ensures list[k].dailyBudget == 0.0 <==> r == 0.0 && list[0].dailyBudget == 0.0
  {
    assert list[k] in list && list[0] in list;
    if r == 0.0 {
      assert Prefix(list, 1) == list[0].dailyBudget;
    } else {
      ChosenInterval(list, r, k);
    }
  }

  function Whole(list: seq<Campaign>, budgets: seq<nat>, n: nat): nat
    requires n <= |list| && |budgets| == |list|
  {
    if n == 0 then 0 else Whole(list, budgets, n - 1) + budgets[n - 1]
  }

  lemma {:induction false} WholeIsPrefix(list: seq<Campaign>, budgets: seq<nat>, n: nat)
    requires n <= |list| && Budgets(list, budgets)
    ensures Prefix(list, n) == Whole(list, budgets, n) as real
  {
    if n > 0 { WholeIsPrefix(list, budgets, n - 1); }
  }

  predicate Budgets(list: seq<Campaign>, budgets: seq<nat>)
  {
    |budgets| == |list| && forall i :: 0 <= i < |list| ==> list[i].dailyBudget == budgets[i] as real
  }

  lemma WholeDraw(list: seq<Campaign>, budgets: seq<nat>, k: nat, n: int)
    requires Budgets(list, budgets) && k < |list| && 1 <= n <= Whole(list, budgets, |list|)
    ensures Chooses(list, n, k) <==> Whole(list, budgets, k) < n <= Whole(list, budgets, k) + budgets[k]
  {
    WholeIsPrefix(list, budgets, k);
    WholeIsPrefix(list, budgets, k + 1);
    WholeIsPrefix(list, budgets, |list|);
    hide Reaches, Prefix;
    ChosenInterval(list, n as real, k);
  }

  lemma {:induction false} WholeGrows(list: seq<Campaign>, budgets: seq<nat>, i: nat, j: nat)
    requires |budgets| == |list| && i <= j <= |list|
    ensures Whole(list, budgets, i) <= Whole(list, budgets, j)
    decreases j
  {
    if i < j { WholeGrows(list, budgets, i, j - 1); }
  }

  /** The draw n, a whole number, chooses campaign k. */
  predicate Chooses(list: seq<Campaign>, n: int, k: nat)
  {
    Reaches(list, n as real, k)
  }

  lemma ChosenDraws(list: seq<Campaign>, k: nat, total: int, from: int, to: int)
    requires 0 <= from <= to <= total && forall n :: 1 <= n <= total ==> (Chooses(list, n, k) <==> from < n <= to)
    ensures |set n | n in Interval(1, total + 1) && Chooses(list, n, k)| == to - from
  {
    hide Chooses;
    assert (set n | n in Interval(1, total + 1) && Chooses(list, n, k)) == Interval(from + 1, to + 1);
  }

  /** Proportionality: with whole budgets, of the draws 1, 2, ..., total exactly budget(k) choose k. */
  lemma ShareIsBudget(list: seq<Campaign>, budgets: seq<nat>, k: nat)
    requires Budgets(list, budgets) && k < |list|
    ensures |set n | n in Interval(1, Whole(list, budgets, |list|) + 1) && Chooses(list, n, k)| == budgets[k]
  {
    var total := Whole(list, budgets, |list|);
    var from := Whole(list, budgets, k);
    assert Whole(list, budgets, k + 1) == from + budgets[k];
    WholeGrows(list, budgets, k + 1, |list|);
    hide Chooses, Whole;
    forall n | 1 <= n <= total
      ensures Chooses(list, n, k) <==> from < n <= from + budgets[k]
    {
      WholeDraw(list, budgets, k, n);
    }
    ChosenDraws(list, k, total, from, from + budgets[k]);
  }
}
