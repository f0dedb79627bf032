/** Timestamps and percentages (internal/util/time.go). Percentages are counted in units of 1e-5. */
module Time {
  import opened Wrappers

  const PERCENT_SCALE: nat := 100000

  /** Milliseconds to seconds; Go's integer division truncates toward zero. */
  function MsToSeconds(ms: int): (s: int)
    ensures Abs(s) * 1000 <= Abs(ms) < (Abs(s) + 1) * 1000
    ensures ms >= 0 ==> s >= 0
    ensures ms <= 0 ==> s <= 0
  {
    if ms >= 0 then ms / 1000 else -(-ms / 1000)
  }

  function MaxOf(values: seq<int>): (m: int)
    ensures m >= 0 && forall v :: v in values ==> v <= m
    ensures m == 0 || m in values
  {
    if values == [] then 0
    else
      var front, last := values[..|values| - 1], values[|values| - 1];
      assert values == front + [last];
      Max(MaxOf(front), last)
  }

  method MaxMs(values: seq<int>) returns (max: int)
    ensures max == MaxOf(values)
  {
    max := 0;
    for i := 0 to |values|
      invariant max == MaxOf(values[..i])
    {
      assert values[..i + 1][..i] == values[..i];
      if values[i] > max {
        max := values[i];
      }
    }
    assert values[..|values|] == values;
  }

  function Pow10(n: nat): (p: real)
    ensures p >= 1.0
  {
    if n == 0 then 1.0 else Pow10(n - 1) * 10.0
  }

  /** Go's conversion of a floating-point number to int. */
  function Truncate(x: real): int {
    if x >= 0.0 then x.Floor else -((-x).Floor)
  }

  /** round: half away from zero on the non-negative values it is given, to `places` decimals. */
  method Round(v: real, places: nat) returns (r: real)
    ensures r == Truncate(v * Pow10(places) + 0.5) as real / Pow10(places)
  {
    var p := 1.0;
    for i := 0 to places
      invariant p == Pow10(i)
    {
      p := p * 10.0;
    }
    var scaled := v * p;
    assert scaled == v * Pow10(places);
    r := Truncate(scaled + 0.5) as real / p;
  }

  /** min(1, cur / total) */
  function Ratio(cur: real, total: real): (q: real)
    requires total > 0.0 && cur >= 0.0
    ensures 0.0 <= q <= 1.0
  {
    if cur > total then 1.0 else DivUnit(cur, total)
  }

  function DivUnit(cur: real, total: real): (q: real)
    requires 0.0 <= cur <= total && total > 0.0
    ensures 0.0 <= q <= 1.0
  {
    cur / total
  }

  /** Percent, as a whole number of 1e-5 units; None is the error return. */
  function Percent(cur: real, total: real): Option<int> {
    if total <= 0.0 || cur < 0.0 then None
    else Some((Ratio(cur, total) * 100000.0 + 0.5).Floor)
  }

  /** On the grid, inside [0, 1], and never more than half a unit from the exact ratio. */
  lemma PercentIsNearest(cur: real, total: real)
    ensures Percent(cur, total).None? <==> total <= 0.0 || cur < 0.0
    ensures Percent(cur, total).Some? ==>
              && 0 <= Percent(cur, total).value <= PERCENT_SCALE
              && -0.5 <= Percent(cur, total).value as real - Ratio(cur, total) * 100000.0 <= 0.5
  {
    if total > 0.0 && cur >= 0.0 {
      var q := Ratio(cur, total) * 100000.0;
      assert 0.0 <= q <= 100000.0;
    }
  }

  lemma DivMonotone(a: real, b: real, total: real)
    requires a <= b && total > 0.0
    ensures a / total <= b / total
  {
  }

  lemma PercentMonotone(a: real, b: real, total: real)
    requires 0.0 <= a <= b && total > 0.0
    ensures Percent(a, total).value <= Percent(b, total).value
  {
    if b <= total {
      DivMonotone(a, b, total);
    }
    assert Ratio(a, total) <= Ratio(b, total);
    var x, y := Ratio(a, total) * 100000.0 + 0.5, Ratio(b, total) * 100000.0 + 0.5;
    assert x <= y;
  }

  /** util.Percent: clamp, then round to five places. */
  method ComputePercent(cur: real, total: real) returns (pct: Option<real>)
    ensures pct.None? <==> Percent(cur, total).None?
    ensures pct.Some? ==> pct.value * 100000.0 == Percent(cur, total).value as real
  {
    if total <= 0.0 {
      return None;
    }
    if cur < 0.0 {
      return None;
    }
    var p := cur / total;
    if p > 1.0 {
      p := 1.0;
    }
    RatioIsClamped(cur, total);
    var r := Round(p, 5);
    assert Pow10(5) == 100000.0;
    return Some(r);
  }

  lemma RatioIsClamped(cur: real, total: real)
    requires total > 0.0 && cur >= 0.0
    ensures Ratio(cur, total) == if cur / total > 1.0 then 1.0 else cur / total
  {
    if cur > total {
      assert cur / total > 1.0 by {
        assert (cur / total) * total == cur;
      }
    }
  }
}
