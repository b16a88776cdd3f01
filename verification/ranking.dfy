/** The per-category results of the quiz engine and how they are ordered and summarised:
    the level bands, the stable descending sort by score, the overall risk band, and the
    filters and cuts the two result pages apply. */
module Ranking {
  import Text

  datatype Level = Bajo | Medio | Alto

  /** How a level is spelled in the stored profile and in the style mappers. */
  function LevelName(l: Level): string {
    match l
    case Bajo => "bajo"
    case Medio => "medio"
    case Alto => "alto"
  }

  /** `ProfileScore`: one category's normalised score, its level and its display name. */
  datatype CategoryScore = CategoryScore(category: string, score: int, level: Level, name: string)

  /** Position of a level on the low-to-high scale. */
  function Severity(l: Level): nat {
    match l
    case Bajo => 0
    case Medio => 1
    case Alto => 2
  }

  /** Per-category band: "alto" from 70, "medio" from 40, "bajo" below; each band
      includes its lower bound. */
  function LevelOf(score: int): (r: Level)
    ensures r == Alto <==> score >= 70
    ensures r == Medio <==> 40 <= score < 70
    ensures r == Bajo <==> score < 40
  {
    if score >= 70 then Alto else if score >= 40 then Medio else Bajo
  }

  /** A higher score never gets a lower level. */
  lemma {:induction false} LevelMonotone(s: int, t: int)
    requires s <= t
    ensures Severity(LevelOf(s)) <= Severity(LevelOf(t))
  {
  }

  /** `scores.reduce((a, b) => a + b.score, 0)`. */
  function SumScores(es: seq<CategoryScore>): int
    decreases |es|
  {
    if |es| == 0 then 0 else es[0].score + SumScores(es[1..])
  }

  /** The overall risk band of the mean score: "alto" from 65, "medio" from 40, "bajo"
      below. With no categories the mean is NaN, every comparison is false and the band
      stays "bajo". */
  function RiskOf(es: seq<CategoryScore>): (r: Level)
    ensures |es| == 0 ==> r == Bajo
    ensures |es| > 0 ==>
      var mean := SumScores(es) as real / |es| as real;
      && (r == Alto <==> mean >= 65.0)
      && (r == Medio <==> 40.0 <= mean < 65.0)
      && (r == Bajo <==> mean < 40.0)
  {
    var n := |es|;
    var total := SumScores(es);
    if n > 0 then
      MeanAtLeast(total, n, 65);
      MeanAtLeast(total, n, 40);
      if total >= 65 * n then Alto else if total >= 40 * n then Medio else Bajo
    else
      Bajo
  }

  /** Comparing a mean against a bound is comparing the total against n times the bound. */
  lemma {:induction false} MeanAtLeast(total: int, n: int, bound: int)
    requires n > 0
    ensures total as real / n as real >= bound as real <==> total >= bound * n
  {
    var mean := total as real / n as real;
    assert mean * n as real == total as real;
    if total >= bound * n {
      assert mean * n as real >= bound as real * n as real;
    } else {
      assert mean * n as real < bound as real * n as real;
    }
  }

  // ---------------------------------------------------------------------------
  // Sorting: `scores.sort((a, b) => b.score - a.score)`, a stable sort.

  predicate SortedDesc(es: seq<CategoryScore>) {
    forall i, j :: 0 <= i < j < |es| ==> es[i].score >= es[j].score
  }

  /** Places `x` before the first element that does not score strictly more. */
  function Insert(x: CategoryScore, t: seq<CategoryScore>): (r: seq<CategoryScore>)
    ensures |r| == |t| + 1
    ensures multiset(r) == multiset{x} + multiset(t)
    decreases |t|
  {
    if |t| == 0 || x.score >= t[0].score then
      [x] + t
    else
      assert t == [t[0]] + t[1..];
      [t[0]] + Insert(x, t[1..])
  }

  /** Every entry of `Insert(x, t)` is `x` or an entry of `t`. */
  lemma {:induction false} InsertMember(x: CategoryScore, t: seq<CategoryScore>, k: nat)
    requires k < |t| + 1
    ensures Insert(x, t)[k] == x || Insert(x, t)[k] in t
  {
    var r := Insert(x, t);
    assert r[k] in multiset(r);
  }

  lemma {:induction false} SortedTail(xs: seq<CategoryScore>)
    requires SortedDesc(xs) && |xs| > 0
    ensures SortedDesc(xs[1..])
  {
    forall i, j | 0 <= i < j < |xs[1..]|
      ensures xs[1..][i].score >= xs[1..][j].score
    {
      assert xs[1..][i] == xs[i + 1] && xs[1..][j] == xs[j + 1];
    }
  }

  /** Inserting into a descending list keeps it descending. */
  lemma {:induction false} InsertSorted(x: CategoryScore, t: seq<CategoryScore>)
    requires SortedDesc(t)
    ensures SortedDesc(Insert(x, t))
    decreases |t|
  {
    if |t| > 0 && x.score < t[0].score {
      SortedTail(t);
      InsertSorted(x, t[1..]);
      var rest := Insert(x, t[1..]);
      forall j | 0 <= j < |rest|
        ensures t[0].score >= rest[j].score
      {
        InsertMember(x, t[1..], j);
        if rest[j] != x {
          var m :| 0 <= m < |t[1..]| && t[1..][m] == rest[j];
          assert t[m + 1] == rest[j];
        }
      }
      assert Insert(x, t) == [t[0]] + rest;
    }
  }

  /** Stable descending sort by score (insertion sort). */
  function SortDesc(xs: seq<CategoryScore>): (r: seq<CategoryScore>)
    ensures |r| == |xs|
    ensures multiset(r) == multiset(xs)
    ensures SortedDesc(r)
    decreases |xs|
  {
    if |xs| == 0 then [] else
      assert xs == [xs[0]] + xs[1..];
      InsertSorted(xs[0], SortDesc(xs[1..]));
      Insert(xs[0], SortDesc(xs[1..]))
  }

  /** Entries tied on score appear in increasing `key` order. */
  predicate TiesOrderedBy(es: seq<CategoryScore>, key: CategoryScore -> int) {
    forall i, j :: 0 <= i < j < |es| && es[i].score == es[j].score ==> key(es[i]) < key(es[j])
  }

  predicate IncreasingBy(es: seq<CategoryScore>, key: CategoryScore -> int) {
    forall i, j :: 0 <= i < j < |es| ==> key(es[i]) < key(es[j])
  }

  lemma {:induction false} InsertKeepsTies(x: CategoryScore, t: seq<CategoryScore>, key: CategoryScore -> int)
    requires SortedDesc(t) && TiesOrderedBy(t, key)
    requires forall y :: y in t ==> key(x) < key(y)
    ensures TiesOrderedBy(Insert(x, t), key)
    decreases |t|
  {
    if |t| == 0 || x.score >= t[0].score {
      var r := [x] + t;
      forall i, j | 0 <= i < j < |r| && r[i].score == r[j].score
        ensures key(r[i]) < key(r[j])
      {
        if i == 0 {
          assert r[j] in t;
        } else {
          assert r[i] == t[i - 1] && r[j] == t[j - 1];
        }
      }
    } else {
      SortedTail(t);
      assert TiesOrderedBy(t[1..], key) by {
        forall i, j | 0 <= i < j < |t[1..]| && t[1..][i].score == t[1..][j].score
          ensures key(t[1..][i]) < key(t[1..][j])
        {
          assert t[1..][i] == t[i + 1] && t[1..][j] == t[j + 1];
        }
      }
      InsertKeepsTies(x, t[1..], key);
      var rest := Insert(x, t[1..]);
      var r := [t[0]] + rest;
      assert Insert(x, t) == r;
      forall i, j | 0 <= i < j < |r| && r[i].score == r[j].score
        ensures key(r[i]) < key(r[j])
      {
        if i == 0 {
          assert r[j] == rest[j - 1];
          InsertMember(x, t[1..], j - 1);
          if r[j] == x {
            // x scores strictly less than t[0]: no tie
          } else {
            var m :| 0 <= m < |t[1..]| && t[1..][m] == r[j];
            assert t[1 + m] == r[j];
          }
        } else {
          assert r[i] == rest[i - 1] && r[j] == rest[j - 1];
        }
      }
    }
  }

  /** Stability: when the input is in increasing `key` order, tied entries keep that order. */
  lemma {:induction false} SortDescStable(xs: seq<CategoryScore>, key: CategoryScore -> int)
    requires IncreasingBy(xs, key)
    ensures TiesOrderedBy(SortDesc(xs), key)
    decreases |xs|
  {
    if |xs| > 0 {
      assert IncreasingBy(xs[1..], key) by {
        forall i, j | 0 <= i < j < |xs[1..]|
          ensures key(xs[1..][i]) < key(xs[1..][j])
        {
          assert xs[1..][i] == xs[i + 1] && xs[1..][j] == xs[j + 1];
        }
      }
      SortDescStable(xs[1..], key);
      var sorted := SortDesc(xs[1..]);
      forall y | y in sorted
        ensures key(xs[0]) < key(y)
      {
        assert y in multiset(sorted);
        assert y in xs[1..];
        var m :| 0 <= m < |xs[1..]| && xs[1..][m] == y;
        assert xs[m + 1] == y;
      }
      InsertKeepsTies(xs[0], sorted, key);
    }
  }

  /** Sorting a list that is already in descending order changes nothing. */
  lemma {:induction false} SortSortedIsIdentity(xs: seq<CategoryScore>)
    requires SortedDesc(xs)
    ensures SortDesc(xs) == xs
    decreases |xs|
  {
    if |xs| > 0 {
      SortedTail(xs);
      SortSortedIsIdentity(xs[1..]);
      assert xs == [xs[0]] + xs[1..];
    }
  }

  // ---------------------------------------------------------------------------
  // Cuts applied by the result pages.

  /** `slice(0, n)`: the first min(n, |es|) entries. */
  function Take(es: seq<CategoryScore>, n: nat): (r: seq<CategoryScore>)
    ensures |r| == if |es| < n then |es| else n
    ensures r == es[..|r|]
  {
    if |es| <= n then es else es[..n]
  }

  /** The first `n` entries of a descending list are its best: sorted, and no entry left
      out scores more than one kept. */
  lemma {:induction false} TakeTop(es: seq<CategoryScore>, n: nat)
    requires SortedDesc(es)
    ensures SortedDesc(Take(es, n))
    ensures forall e, x :: e in es && e !in Take(es, n) && x in Take(es, n) ==> x.score >= e.score
  {
    var top := Take(es, n);
    assert forall k :: 0 <= k < |top| ==> es[k] in top;
    forall e, x | e in es && e !in top && x in top
      ensures x.score >= e.score
    {
      var k :| 0 <= k < |es| && es[k] == e;
      var i :| 0 <= i < |top| && top[i] == x;
      assert x == es[i];
    }
  }

  /** `filter((s) => s.level !== "bajo")`. */
  function NotLow(es: seq<CategoryScore>): (r: seq<CategoryScore>)
    ensures forall i :: 0 <= i < |r| ==> r[i].level != Bajo
    ensures forall e :: e in es && e.level != Bajo ==> e in r
    ensures |r| <= |es|
    decreases |es|
  {
    if |es| == 0 then []
    else if es[0].level != Bajo then [es[0]] + NotLow(es[1..])
    else NotLow(es[1..])
  }

  lemma {:induction false} NotLowIsSubsequence(es: seq<CategoryScore>)
    ensures Text.IsSubsequence(NotLow(es), es)
    decreases |es|
  {
    if |es| > 0 {
      NotLowIsSubsequence(es[1..]);
      var rest := NotLow(es[1..]);
      if es[0].level != Bajo {
        assert ([es[0]] + rest)[1..] == rest;
      } else {
        Text.SubsequenceCons(es[0], rest, es[1..]);
        assert [es[0]] + es[1..] == es;
      }
    }
  }

  /** A subsequence of a descending list is descending. */
  lemma {:induction false} SubsequenceKeepsSorted(a: seq<CategoryScore>, b: seq<CategoryScore>)
    requires Text.IsSubsequence(a, b) && SortedDesc(b)
    ensures SortedDesc(a)
    decreases |b|
  {
    if |a| > 0 {
      SortedTail(b);
      if a[0] == b[0] {
        SubsequenceKeepsSorted(a[1..], b[1..]);
        forall j | 0 < j < |a|
          ensures a[0].score >= a[j].score
        {
          assert a[j] == a[1..][j - 1];
          assert a[j] in a[1..];
          Text.SubsequenceMembers(a[1..], b[1..], a[j]);
          var m :| 0 <= m < |b[1..]| && b[1..][m] == a[j];
          assert b[m + 1] == a[j];
        }
      } else {
        SubsequenceKeepsSorted(a, b[1..]);
      }
    }
  }
}
