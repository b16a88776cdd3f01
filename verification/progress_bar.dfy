/** The quiz's progress bar: `Math.round((value / max) * 100)` percent, computed exactly. */
module ProgressBar {
  import opened Wrappers
  import Questions

  /** The percentage the bar shows. A zero `max` makes the quotient NaN or infinite, which
      is `None`; otherwise the result is the quotient rounded half up, as `Math.round`
      does, computed on integers. */
  function Percentage(value: int, max: int): (r: Option<int>)
    ensures r.None? <==> max == 0
    ensures r.Some? ==>
      r.value as real <= value as real / max as real * 100.0 + 0.5 < r.value as real + 1.0
  {
    if max == 0 then None
    else
      var v := if max < 0 then -value else value;
      var m := if max < 0 then -max else max;
      var q := (200 * v + m) / (2 * m);
      RoundedQuotient(v, m, q);
      Some(q)
  }

  /** `q`, the integer quotient of `200v + m` by `2m`, is `100v/m` rounded half up. */
  lemma {:induction false} RoundedQuotient(v: int, m: int, q: int)
    requires m > 0 && q == (200 * v + m) / (2 * m)
    ensures q as real <= v as real / m as real * 100.0 + 0.5 < q as real + 1.0
    ensures (-v) as real / (-m) as real == v as real / m as real
  {
    var n := 200 * v + m;
    var d := 2 * m;
    assert q * d <= n < q * d + d;
    assert (q * d) as real == q as real * d as real;
    RealQuotient(n as real, d as real, q as real);
    HalfUp(v as real, m as real);
  }

  /** Bounds on a product bound the quotient. */
  lemma {:induction false} RealQuotient(n: real, d: real, q: real)
    requires d > 0.0 && q * d <= n < q * d + d
    ensures q <= n / d < q + 1.0
  {
    var x := n / d;
    assert x * d == n;
    assert (x - q) * d == n - q * d >= 0.0;
    assert (q + 1.0 - x) * d == q * d + d - n > 0.0;
    ProductSign(x - q, d);
    ProductSign(q + 1.0 - x, d);
  }

  lemma {:induction false} ProductSign(a: real, d: real)
    requires d > 0.0
    ensures a * d >= 0.0 ==> a >= 0.0
    ensures a * d > 0.0 ==> a > 0.0
  {
  }

  /** `(200v + m) / 2m` is `100v/m + 1/2`. */
  lemma {:induction false} HalfUp(v: real, m: real)
    requires m > 0.0
    ensures (200.0 * v + m) / (2.0 * m) == v / m * 100.0 + 0.5
    ensures (-v) / (-m) == v / m
  {
    var x := v / m;
    assert x * m == v;
    var y := (200.0 * v + m) / (2.0 * m);
    assert y * (2.0 * m) == 200.0 * v + m;
    assert (x * 100.0 + 0.5) * (2.0 * m) == 200.0 * v + m;
    assert (y - (x * 100.0 + 0.5)) * (2.0 * m) == 0.0;
    ProductSign(y - (x * 100.0 + 0.5), 2.0 * m);
    ProductSign(x * 100.0 + 0.5 - y, 2.0 * m);
    var z := (-v) / (-m);
    assert z * (-m) == -v;
    assert (z - x) * m == 0.0;
    ProductSign(z - x, m);
    ProductSign(x - z, m);
  }

  /** The bar is never emptier than empty nor fuller than full while the value stays
      within [0, max]. */
  lemma {:induction false} PercentageRange(value: int, max: int)
    requires 0 <= value <= max && max > 0
    ensures 0 <= Percentage(value, max).value <= 100
  {
    var x := value as real / max as real;
    assert x * max as real == value as real;
    assert x <= 1.0;
  }

  /** The last step shows a full bar. */
  lemma {:induction false} PercentageFull(max: int)
    requires max != 0
    ensures Percentage(max, max) == Some(100)
  {
    assert max as real / max as real == 1.0;
  }

  /** A larger value never shows a smaller percentage. */
  lemma {:induction false} PercentageMonotone(v1: int, v2: int, max: int)
    requires max > 0 && v1 <= v2
    ensures Percentage(v1, max).value <= Percentage(v2, max).value
  {
    var x1 := v1 as real / max as real;
    var x2 := v2 as real / max as real;
    assert x1 * max as real == v1 as real;
    assert x2 * max as real == v2 as real;
    assert x1 <= x2;
  }

  /** On question `current` (counted from 0) the quiz passes `current + 1` of the catalog's
      length: every question moves the bar forward, from 3% on the first to 100% on the
      last and only there. */
  lemma {:induction false} QuizProgress(current: nat)
    requires current < |Questions.Catalog|
    ensures 3 <= Percentage(current + 1, |Questions.Catalog|).value <= 100
    ensures Percentage(current + 1, |Questions.Catalog|).value == 100 <==> current + 1 == |Questions.Catalog|
    ensures current + 1 < |Questions.Catalog| ==>
      Percentage(current + 1, |Questions.Catalog|).value < Percentage(current + 2, |Questions.Catalog|).value
  {
    Questions.CatalogIds();
    QuizStep(current);
    if current + 1 < 30 {
      QuizStep(current + 1);
    }
  }

  /** The bar on question `current` of a 30-question quiz, as an integer. */
  lemma {:induction false} QuizStep(current: nat)
    requires current < 30
    ensures Percentage(current + 1, 30) == Some((200 * (current + 1) + 30) / 60)
  {
    var q := (200 * (current + 1) + 30) / 60;
    RoundedQuotient(current + 1, 30, q);
    var r := Percentage(current + 1, 30).value;
    assert r as real <= (current + 1) as real / 30.0 * 100.0 + 0.5 < r as real + 1.0;
  }
}
