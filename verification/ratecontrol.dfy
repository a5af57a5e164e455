/** The speed correction of generator/main.py: once a second, multiply the clock's speed towards the
    target event rate. Reals stand for the program's doubles. */
module RateControl {

  const LOWEST := 0.05
  const HIGHEST := 5000.0
  const GAIN := 0.35

  function Clamp(x: real, lo: real, hi: real): real
  {
    var y := if x > lo then x else lo;
    if y < hi then y else hi
  }

  /** One correction, for the number of events sent in the last second. */
  function Corrected(speed: real, sent: real, target: real): real
  {
    var actual := if sent > 1.0 then sent else 1.0;
    var ratio := Clamp(target / actual, 0.5, 2.0);
    Clamp(speed * (1.0 + GAIN * (ratio - 1.0)), LOWEST, HIGHEST)
  }

  /** The speed after a run of seconds; the first two are a warm-up. The program's samples are whole
      numbers; any real is allowed here, so that the linear case below is exact. */
  function SpeedAfter(speed: real, tick: nat, target: real, samples: seq<real>): real
  {
    if samples == [] then speed
    else
      var n := |samples| - 1;
      var s := SpeedAfter(speed, tick, target, samples[..n]);
      if tick + n + 1 > 2 then Corrected(s, samples[n], target) else s
  }

  /** What one correction does: towards the target by at most a factor of 1.35 up or 0.825 down, in full when the
      rate is off by a factor of two or more; within 0.05 and 5000; and a second without events counts as one event. */
  lemma CorrectedMeans(speed: real, sent: real, target: real)
    requires 0.05 <= speed <= 5000.0 && target > 0.0
    ensures 0.05 <= Corrected(speed, sent, target) <= 5000.0
    ensures sent >= 1.0 && target >= 2.0 * sent ==>
              Corrected(speed, sent, target) == if 1.35 * speed < 5000.0 then 1.35 * speed else 5000.0
    ensures sent >= 1.0 && target <= 0.5 * sent ==>
              Corrected(speed, sent, target) == if 0.825 * speed > 0.05 then 0.825 * speed else 0.05
    ensures sent >= 1.0 && target == sent ==> Corrected(speed, sent, target) == speed
    ensures sent < 1.0 ==> Corrected(speed, sent, target) == Corrected(speed, 1.0, target)
  {
    Within(speed, sent, target);
    hide Corrected;
    if sent >= 1.0 {
      RatioCases(target, sent);
      ByRatio(speed, sent, target);
    }
  }

  lemma Within(speed: real, sent: real, target: real)
    ensures 0.05 <= Corrected(speed, sent, target) <= 5000.0
    ensures sent < 1.0 ==> Corrected(speed, sent, target) == Corrected(speed, 1.0, target)
  {
  }

  /** With the ratio at one of its limits, or at 1, the factor is a constant. */
  lemma ByRatio(speed: real, sent: real, target: real)
    requires sent >= 1.0
    ensures Clamp(target / sent, 0.5, 2.0) == 2.0 ==> Corrected(speed, sent, target) == Clamp(1.35 * speed, LOWEST, HIGHEST)
    ensures Clamp(target / sent, 0.5, 2.0) == 0.5 ==> Corrected(speed, sent, target) == Clamp(0.825 * speed, LOWEST, HIGHEST)
    ensures Clamp(target / sent, 0.5, 2.0) == 1.0 ==> Corrected(speed, sent, target) == Clamp(speed, LOWEST, HIGHEST)
  {
    var ratio := Clamp(target / sent, 0.5, 2.0);
    assert Corrected(speed, sent, target) == Clamp(speed * (1.0 + GAIN * (ratio - 1.0)), LOWEST, HIGHEST);
    hide Clamp, Corrected;
  }

  lemma RatioCases(target: real, actual: real)
    requires target > 0.0 && actual >= 1.0
    ensures target >= 2.0 * actual ==> Clamp(target / actual, 0.5, 2.0) == 2.0
    ensures target <= 0.5 * actual ==> Clamp(target / actual, 0.5, 2.0) == 0.5
    ensures target == actual ==> Clamp(target / actual, 0.5, 2.0) == 1.0
  {
    hide *;
    Quotient(target, actual, 2.0);
    Quotient(target, actual, 0.5);
    Quotient(target, actual, 1.0);
    Clamped(target / actual);
  }

  lemma Quotient(target: real, actual: real, c: real)
    requires actual > 0.0
    ensures target >= c * actual <==> target / actual >= c
    ensures target <= c * actual <==> target / actual <= c
  {
    var q := target / actual;
    assert q * actual == target;
    Ordered(c, q, actual);
    Ordered(q, c, actual);
  }

  lemma Clamped(q: real)
    ensures q >= 2.0 ==> Clamp(q, 0.5, 2.0) == 2.0
    ensures q <= 0.5 ==> Clamp(q, 0.5, 2.0) == 0.5
    ensures q == 1.0 ==> Clamp(q, 0.5, 2.0) == 1.0
  {
  }

  /** The first two seconds change nothing; every later one corrects. */
  lemma {:induction false} WarmUp(speed: real, target: real, samples: seq<real>)
    ensures |samples| <= 2 ==> SpeedAfter(speed, 0, target, samples) == speed
    ensures |samples| > 2 ==>
              var n := |samples| - 1;
              SpeedAfter(speed, 0, target, samples) == Corrected(SpeedAfter(speed, 0, target, samples[..n]), samples[n], target)
  {
    hide Corrected;
    if 0 < |samples| <= 2 {
      WarmUp(speed, target, samples[..|samples| - 1]);
    }
  }

  class Reporter {
    const target: real
    var tick: nat
    var speed: real

    constructor (target: real, speed: real)
      ensures this.target == target && this.speed == speed && tick == 0
    {
      this.target, this.speed, tick := target, speed, 0;
    }

    /** One tick: after the two warm-up seconds, correct the clock. */
    method Tick(sent: real)
      modifies this
      ensures tick == old(tick) + 1
      ensures speed == if tick > 2 then Corrected(old(speed), sent, target) else old(speed)
    {
      tick := tick + 1;
      if tick > 2 {
        var actual := if sent > 1.0 then sent else 1.0;
        var ratio := target / actual;
        ratio := Clamp(ratio, 0.5, 2.0);
        speed := Clamp(speed * (1.0 + GAIN * (ratio - 1.0)), LOWEST, HIGHEST);
      }
    }

    /** The loop of `reporter`, one sample per second until it is stopped. */
    method Run(samples: seq<real>)
      modifies this
      ensures tick == old(tick) + |samples|
      ensures speed == SpeedAfter(old(speed), old(tick), target, samples)
    {
      hide Corrected, Clamp;
      for i := 0 to |samples|
        invariant tick == old(tick) + i
        invariant speed == SpeedAfter(old(speed), old(tick), target, samples[..i])
      {
        assert samples[..i + 1][..i] == samples[..i];
        Tick(samples[i]);
      }
      assert samples[..|samples|] == samples;
    }
  }

  // ---------------------------------------------------------------- the error of the rate

  /** The correction seen on x = actual / target, when events are linear in speed. */
  function Next(x: real): real
    requires x > 0.0
  {
    x * (1.0 + GAIN * (Clamp(1.0 / x, 0.5, 2.0) - 1.0))
  }

  lemma NextByCases(x: real)
    requires x > 0.0
    ensures Next(x) == if x < 0.5 then 1.35 * x else if x > 2.0 then 0.825 * x else 1.0 + 0.65 * (x - 1.0)
    ensures Next(x) > 0.0
  {
    var inv := 1.0 / x;
    assert inv * x == 1.0;
    Ordered(inv, 2.0, x);
    Ordered(inv, 0.5, x);
    if 0.5 <= x <= 2.0 {
      assert Clamp(inv, 0.5, 2.0) == inv;
      assert x * (1.0 + GAIN * (inv - 1.0)) == x + GAIN * (inv * x) - GAIN * x;
    }
  }

  /** The rate moves towards the target and never over it. */
  lemma NeverCrosses(x: real)
    requires x > 0.0
    ensures x < 1.0 ==> x < Next(x) < 1.0
    ensures x > 1.0 ==> 1.0 < Next(x) < x
    ensures x == 1.0 ==> Next(x) == 1.0
  {
    NextByCases(x);
  }

  function After(x: real, n: nat): real
    requires x > 0.0
    ensures After(x, n) > 0.0
  {
    if n == 0 then x
    else
      NextByCases(After(x, n - 1));
      Next(After(x, n - 1))
  }

  function Power(b: real, n: nat): real
  {
    if n == 0 then 1.0 else b * Power(b, n - 1)
  }

  /** Within a factor of two of the target the error shrinks by exactly 0.65 a second, for good. */
  lemma {:induction false} ErrorShrinks(x: real, n: nat)
    requires 0.5 <= x <= 2.0
    ensures After(x, n) - 1.0 == Power(0.65, n) * (x - 1.0)
    ensures 0.5 <= After(x, n) <= 2.0
  {
    if n > 0 {
      ErrorShrinks(x, n - 1);
      NextByCases(After(x, n - 1));
    }
  }

  /** From any positive rate that band is reached, within a number of seconds known beforehand. */
  function Bound(x: real): real
    requires x > 0.0
  {
    if x < 0.5 then (0.5 - x) / (0.35 * x) + 1.0
    else if x > 2.0 then (x - 2.0) / 0.35 + 1.0
    else 0.0
  }

  lemma {:induction false} BandIsReached(x: real) returns (n: nat)
    requires x > 0.0
    ensures 0.5 <= After(x, n) <= 2.0
    ensures n as real <= Bound(x)
  {
    if x < 0.5 {
      n := FromBelow(x);
    } else if x > 2.0 {
      n := FromAbove(x);
    } else {
      n := 0;
    }
  }

  lemma Up(x: real, y: real, n: nat)
    requires 0.0 < x <= y < 0.5 && y >= x + 0.35 * x * n as real
    ensures Next(y) <= 2.0 && Next(y) >= x + 0.35 * x * (n + 1) as real
    ensures x + 0.35 * x * n as real < 0.5
  {
    NextByCases(y);
    hide Next;
    assert 0.35 * x * (n + 1) as real == 0.35 * x * n as real + 0.35 * x;
  }

  lemma FromBelow(x: real) returns (n: nat)
    requires 0.0 < x < 0.5
    ensures 0.5 <= After(x, n) <= 2.0
    ensures n as real <= Bound(x)
  {
    hide Next;
    n := 0;
    while After(x, n) < 0.5
      invariant x <= After(x, n) <= 2.0
      invariant After(x, n) >= x + 0.35 * x * n as real
      invariant n > 0 ==> (n - 1) as real <= (0.5 - x) / (0.35 * x)
      decreases ((0.5 - x) / (0.35 * x)).Floor + 1 - n
    {
      Up(x, After(x, n), n);
      StepsUp(x, n);
      assert 0.35 * x * (n + 1) as real >= 0.0;
      n := n + 1;
    }
  }

  lemma FromAbove(x: real) returns (n: nat)
    requires x > 2.0
    ensures 0.5 <= After(x, n) <= 2.0
    ensures n as real <= Bound(x)
  {
    n := 0;
    while After(x, n) > 2.0
      invariant After(x, n) >= 0.5 && After(x, n) <= x - 0.35 * n as real
      invariant n > 0 ==> (n - 1) as real <= (x - 2.0) / 0.35
      decreases ((x - 2.0) / 0.35).Floor + 1 - n
    {
      NextByCases(After(x, n));
      StepsDown(x, n);
      hide Next;
      n := n + 1;
    }
  }

  lemma StepsUp(x: real, n: nat)
    requires 0.0 < x && x + 0.35 * x * n as real < 0.5
    ensures n as real <= (0.5 - x) / (0.35 * x)
    ensures n <= ((0.5 - x) / (0.35 * x)).Floor
  {
    var step := 0.35 * x;
    var q := (0.5 - x) / step;
    assert q * step == 0.5 - x;
    Ordered(n as real, q, step);
  }

  lemma StepsDown(x: real, n: nat)
    requires x - 0.35 * n as real > 2.0
    ensures n as real <= (x - 2.0) / 0.35
    ensures n <= ((x - 2.0) / 0.35).Floor
  {
  }

  // ---------------------------------------------------------------- back to the program

  /** Events per second are linear in the speed. */
  function EventRate(k: real, speed: real): real
  {
    k * speed
  }

  /** What they are of the target. */
  function Ratio(k: real, speed: real, target: real): (x: real)
    requires target > 0.0
    ensures x * target == EventRate(k, speed)
  {
    EventRate(k, speed) / target
  }

  /** The speed, and the speed that meets the target, lie within the limits; a second sees an event. */
  predicate Moderate(speed: real, k: real, target: real)
  {
    k > 0.0 && target >= 1.0 && LOWEST <= speed <= HIGHEST && LOWEST <= target / k <= HIGHEST && EventRate(k, speed) >= 1.0
  }

  /** Then a correction is Next on the ratio, and the limits never bind. */
  lemma CorrectionIsNext(speed: real, k: real, target: real)
    requires target > 0.0 && Moderate(speed, k, target)
    ensures Ratio(k, speed, target) > 0.0
    ensures Ratio(k, Corrected(speed, EventRate(k, speed), target), target) == Next(Ratio(k, speed, target))
    ensures Moderate(Corrected(speed, EventRate(k, speed), target), k, target)
  {
    var actual, x, goal := EventRate(k, speed), Ratio(k, speed, target), target / k;
    assert goal * k == target;
    hide Next, Corrected, Clamp;
    var f := Factor(speed, actual, target);
    hide Ratio;
    NeverCrosses(x);
    var y := Next(x);
    Between(speed, goal, k, target, x, f, y);
    UniqueRatio(k, speed * f, target, y);
  }

  lemma UniqueRatio(k: real, speed: real, target: real, y: real)
    requires target > 0.0 && EventRate(k, speed) == y * target
    ensures Ratio(k, speed, target) == y
  {
    Ordered(Ratio(k, speed, target), y, target);
    Ordered(y, Ratio(k, speed, target), target);
  }

  /** Events per second were k times the speed in every second of the run. */
  predicate Linear(speed: real, k: real, tick: nat, target: real, samples: seq<real>)
  {
    forall i :: 0 <= i < |samples| ==> samples[i] == EventRate(k, SpeedAfter(speed, tick, target, samples[..i]))
  }

  /** A whole run after the warm-up: the measured ratio follows After, so by ErrorShrinks and
      BandIsReached it converges to the target, and the limits on the speed never bind. */
  lemma {:induction false} LinearRun(speed: real, k: real, tick: nat, target: real, samples: seq<real>)
    requires tick >= 2 && target > 0.0 && Linear(speed, k, tick, target, samples) && Moderate(speed, k, target)
    ensures Ratio(k, speed, target) > 0.0
    ensures Ratio(k, SpeedAfter(speed, tick, target, samples), target) == After(Ratio(k, speed, target), |samples|)
    ensures Moderate(SpeedAfter(speed, tick, target, samples), k, target)
    decreases |samples|
  {
    hide Next, Corrected, Ratio, EventRate, Moderate;
    CorrectionIsNext(speed, k, target);
    if samples != [] {
      var n := |samples| - 1;
      var before := samples[..n];
      assert forall i :: 0 <= i < n ==> before[..i] == samples[..i];
      LinearRun(speed, k, tick, target, before);
      var s := SpeedAfter(speed, tick, target, before);
      CorrectionIsNext(s, k, target);
      assert samples[n] == EventRate(k, s);
    }
  }

  /** Both corrections multiply by the same factor. */
  lemma Factor(speed: real, actual: real, target: real) returns (f: real)
    requires actual >= 1.0 && target >= 1.0
    ensures actual / target > 0.0 && Next(actual / target) == actual / target * f
    ensures Corrected(speed, actual, target) == Clamp(speed * f, LOWEST, HIGHEST)
  {
    Inverse(actual, target);
    f := 1.0 + GAIN * (Clamp(target / actual, 0.5, 2.0) - 1.0);
    hide Clamp;
  }

  lemma Inverse(a: real, b: real)
    requires a > 0.0 && b > 0.0
    ensures a / b > 0.0 && 1.0 / (a / b) == b / a
  {
    var q := a / b;
    assert q * b == a;
    Ordered(0.0, q, b);
    var r := b / a;
    assert r * a == b;
    assert r * q == 1.0 by {
      assert (r * q) * b == r * a;
      Ordered(r * q, 1.0, b);
      Ordered(1.0, r * q, b);
    }
  }

  /** Scaling the speed by f scales the ratio by f, and both stay on their side of the goal. */
  lemma Between(speed: real, goal: real, k: real, target: real, x: real, f: real, y: real)
    requires k > 0.0 && target >= 1.0 && goal * k == target && x * target == EventRate(k, speed) && x > 0.0
    requires LOWEST <= speed <= HIGHEST && LOWEST <= goal <= HIGHEST && EventRate(k, speed) >= 1.0
    requires y == x * f
    requires x < 1.0 ==> x < y < 1.0
    requires x > 1.0 ==> 1.0 < y < x
    requires x == 1.0 ==> y == 1.0
    ensures LOWEST <= speed * f <= HIGHEST && EventRate(k, speed * f) >= 1.0
    ensures Clamp(speed * f, LOWEST, HIGHEST) == speed * f
    ensures EventRate(k, speed * f) == y * target
  {
    SpeedIsMultiple(speed, goal, k, target, x);
    assert speed * f == y * goal by { Regroup(x, goal, f); }
    assert EventRate(k, speed * f) == y * target by {
      Regroup(k, speed, f);
      Regroup(x, target, f);
    }
    hide EventRate;
    Toward(x, y, goal);
    Toward(x, y, target);
  }

  lemma SpeedIsMultiple(speed: real, goal: real, k: real, target: real, x: real)
    requires k > 0.0 && goal * k == target && x * target == EventRate(k, speed)
    ensures speed == x * goal
  {
    assert speed * k == (x * goal) * k;
    Ordered(speed, x * goal, k);
    Ordered(x * goal, speed, k);
  }

  lemma Regroup(a: real, b: real, c: real)
    ensures (a * b) * c == a * (b * c) == (a * c) * b
  {
  }

  /** A ratio between x and 1 keeps its multiple of c between x * c and c. */
  lemma Toward(x: real, y: real, c: real)
    requires c > 0.0
    requires x < 1.0 ==> x < y < 1.0
    requires x > 1.0 ==> 1.0 < y < x
    requires x == 1.0 ==> y == 1.0
    ensures x * c <= y * c <= c || c <= y * c <= x * c
  {
    Ordered(x, y, c);
    Ordered(y, x, c);
    Ordered(y, 1.0, c);
    Ordered(1.0, y, c);
  }

  lemma Ordered(a: real, b: real, c: real)
    requires c > 0.0
    ensures a <= b <==> a * c <= b * c
    ensures a < b <==> a * c < b * c
  {
    assert b * c - a * c == (b - a) * c;
  }
}
