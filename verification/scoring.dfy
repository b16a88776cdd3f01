/** The scoring engine behind the quiz and results pages (`calculateProfile`): answers
    are grouped by category in catalog order, each bucket's mean is normalised to 0..100,
    banded, named, sorted by score (stable) and summarised in an overall risk band. */
module Scoring {
  import opened Wrappers
  import Text
  import opened Questions
  import opened Ranking

  /** A stored answer as JSON returns it: a string or a number, a list, or anything else
      (null, a boolean, an object). A missing key is JavaScript's `undefined`. */
  datatype Answer = Scalar(v: Value) | Items(xs: seq<Value>) | Other

  /** `answers[q.id]`, keyed by question id. */
  type Answers = map<int, Answer>

  /** What one question does to its category's bucket during the scan: nothing (no
      answer), push a score, only open the bucket, or throw a TypeError. */
  datatype Contribution = Unanswered | Adds(k: int) | Skips | Throws

  /** Why the engine produces no ranking: a TypeError raised at a question id, or a
      category whose bucket stayed empty, whose mean is NaN and whose order among the
      others the sort comparator leaves undefined. */
  datatype EngineError = TypeErrorAt(id: int) | UnscoredCategory(category: string)

  function Min(a: int, b: int): int {
    if a < b then a else b
  }

  // ---------------------------------------------------------------------------
  // One question's contribution.

  /** A multiple-choice answer scores 1 when it includes "ninguna", otherwise one more
      than its length, capped at 5. A string answer is searched and measured as a string;
      anything else has no `includes` method and throws. */
  function MultiScore(a: Answer): (r: Contribution)
    ensures r.Adds? ==> 1 <= r.k <= 5
    ensures r == Throws <==> !(a.Items? || (a.Scalar? && a.v.Str?))
    ensures a.Items? && Str(None_) in a.xs ==> r == Adds(1)
    ensures a.Items? && Str(None_) !in a.xs ==> r == Adds(Min(5, |a.xs| + 1))
    ensures r != Unanswered && r != Skips
  {
    match a
    case Items(xs) => Adds(if Str(None_) in xs then 1 else Min(5, |xs| + 1))
    case Scalar(Str(s)) => Adds(if Text.Contains(s, None_) then 1 else Min(5, |s| + 1))
    case _ => Throws
  }

  /** `options.find((o) => o.value === answer)`, as an index: |opts| when nothing matches. */
  function FindOption(opts: seq<QOption>, a: Answer): (r: nat)
    ensures r <= |opts|
    ensures r < |opts| ==> a == Scalar(opts[r].value)
    ensures forall j :: 0 <= j < r ==> a != Scalar(opts[j].value)
    decreases |opts|
  {
    if |opts| == 0 || a == Scalar(opts[0].value) then 0 else 1 + FindOption(opts[1..], a)
  }

  /** A single-choice, likert or numeric answer pushes the matched option's score when
      that score is present and non-zero (`option?.score` is truthy); otherwise the bucket
      is only opened. */
  function OptionScore(opts: seq<QOption>, a: Answer): (r: Contribution)
    ensures r.Adds? || r == Skips
    ensures r.Adds? <==> exists j :: 0 <= j < |opts| && a == Scalar(opts[j].value)
                                     && (forall i :: 0 <= i < j ==> a != Scalar(opts[i].value))
                                     && opts[j].score.Some? && opts[j].score.value != 0
    ensures r.Adds? ==> exists j :: 0 <= j < |opts| && a == Scalar(opts[j].value)
                                    && (forall i :: 0 <= i < j ==> a != Scalar(opts[i].value))
                                    && opts[j].score == Some(r.k)
  {
    var j := FindOption(opts, a);
    if j < |opts| && opts[j].score.Some? && opts[j].score.value != 0 then
      Adds(opts[j].score.value)
    else
      Skips
  }

  function Contribute(q: Question, a: Answer): Contribution {
    if q.kind == Multi then MultiScore(a) else OptionScore(q.options, a)
  }

  function ContributionOf(q: Question, answers: Answers): (r: Contribution)
    ensures r == Unanswered <==> q.id !in answers
  {
    if q.id in answers then Contribute(q, answers[q.id]) else Unanswered
  }

  // ---------------------------------------------------------------------------
  // The scan: `questions.forEach` filling `categoryScores`.

  /** One entry of `categoryScores`: a category key and its pushed scores, in insertion order. */
  datatype Bucket = Bucket(category: string, scores: seq<int>)

  /** Position of the bucket for `c`, or |bs| when there is none. */
  function IndexOf(bs: seq<Bucket>, c: string): (r: nat)
    ensures r <= |bs|
    ensures r < |bs| ==> bs[r].category == c
    ensures forall i :: 0 <= i < r ==> bs[i].category != c
    decreases |bs|
  {
    if |bs| == 0 || bs[0].category == c then 0 else 1 + IndexOf(bs[1..], c)
  }

  /** `if (!categoryScores[c]) categoryScores[c] = []`: a new key goes last. */
  function Open(bs: seq<Bucket>, c: string): (r: seq<Bucket>)
    ensures IndexOf(r, c) < |r|
    ensures |bs| <= |r| <= |bs| + 1 && r[..|bs|] == bs
    ensures |r| == |bs| + 1 <==> IndexOf(bs, c) == |bs|
    ensures |r| == |bs| + 1 ==> r[|bs|] == Bucket(c, [])
  {
    if IndexOf(bs, c) < |bs| then bs
    else
      var r := bs + [Bucket(c, [])];
      assert r[|bs|].category == c;
      r
  }

  /** `categoryScores[c].push(k)` on an existing key. */
  function Push(bs: seq<Bucket>, c: string, k: int): (r: seq<Bucket>)
    requires IndexOf(bs, c) < |bs|
    ensures |r| == |bs|
    ensures r[IndexOf(bs, c)] == Bucket(c, bs[IndexOf(bs, c)].scores + [k])
    ensures forall i :: 0 <= i < |bs| && i != IndexOf(bs, c) ==> r[i] == bs[i]
  {
    var i := IndexOf(bs, c);
    bs[i := Bucket(c, bs[i].scores + [k])]
  }

  /** The body of the `forEach` callback for one question. */
  function Visit(bs: seq<Bucket>, q: Question, answers: Answers): Result<seq<Bucket>, int> {
    match ContributionOf(q, answers)
    case Unanswered => Success(bs)
    case Throws => Failure(q.id)
    case Skips => Success(Open(bs, q.category))
    case Adds(k) => Success(Push(Open(bs, q.category), q.category, k))
  }

  /** The scan over `qs` in order; a failure carries the id of the question that threw. */
  function Group(qs: seq<Question>, answers: Answers): (r: Result<seq<Bucket>, int>)
    ensures r.Success? <==> forall i :: 0 <= i < |qs| ==> ContributionOf(qs[i], answers) != Throws
    ensures r.Failure? ==> exists i :: 0 <= i < |qs| && qs[i].id == r.error && ContributionOf(qs[i], answers) == Throws
    ensures r.Success? ==> |r.value| <= |qs|
    decreases |qs|
  {
    if |qs| == 0 then Success([])
    else
      var bs :- Group(qs[..|qs| - 1], answers);
      Visit(bs, qs[|qs| - 1], answers)
  }

  // ---------------------------------------------------------------------------
  // Reference definitions the scan is proved against.

  /** Question `q` opens the bucket of category `c`. */
  predicate Opens(q: Question, answers: Answers, c: string) {
    q.category == c && q.id in answers
  }

  /** Index of the first question that opens `c`, or |qs| when none does. */
  function FirstOpening(qs: seq<Question>, answers: Answers, c: string): (r: nat)
    ensures r <= |qs|
    ensures r < |qs| ==> Opens(qs[r], answers, c)
    ensures forall j :: 0 <= j < r ==> !Opens(qs[j], answers, c)
    decreases |qs|
  {
    if |qs| == 0 || Opens(qs[0], answers, c) then 0 else 1 + FirstOpening(qs[1..], answers, c)
  }

  /** Index of the first answered question that throws, or |qs| when none does. */
  function FirstThrow(qs: seq<Question>, answers: Answers): (r: nat)
    ensures r <= |qs|
    ensures r < |qs| ==> ContributionOf(qs[r], answers) == Throws
    ensures forall j :: 0 <= j < r ==> ContributionOf(qs[j], answers) != Throws
    decreases |qs|
  {
    if |qs| == 0 || ContributionOf(qs[0], answers) == Throws then 0
    else 1 + FirstThrow(qs[1..], answers)
  }

  /** The score `q` pushes into the bucket of `c`, if any. */
  function Own(q: Question, answers: Answers, c: string): seq<int> {
    if q.category == c && ContributionOf(q, answers).Adds? then [ContributionOf(q, answers).k] else []
  }

  /** All scores pushed for `c`, in catalog order. */
  function Contributions(qs: seq<Question>, answers: Answers, c: string): seq<int>
    decreases |qs|
  {
    if |qs| == 0 then [] else Own(qs[0], answers, c) + Contributions(qs[1..], answers, c)
  }

  /** Every bucket belongs to a category some question opens. */
  ghost predicate Opened(qs: seq<Question>, answers: Answers, bs: seq<Bucket>) {
    forall i :: 0 <= i < |bs| ==> FirstOpening(qs, answers, bs[i].category) < |qs|
  }

  /** Every answered question's category has a bucket. */
  ghost predicate Covers(qs: seq<Question>, answers: Answers, bs: seq<Bucket>) {
    forall j :: 0 <= j < |qs| && qs[j].id in answers ==> IndexOf(bs, qs[j].category) < |bs|
  }

  /** Each bucket holds all scores pushed for its category, in order. */
  ghost predicate Filled(qs: seq<Question>, answers: Answers, bs: seq<Bucket>) {
    forall i :: 0 <= i < |bs| ==> bs[i].scores == Contributions(qs, answers, bs[i].category)
  }

  /** Buckets are ordered by their category's first answered question (hence distinct). */
  ghost predicate InOrder(qs: seq<Question>, answers: Answers, bs: seq<Bucket>) {
    forall i, j :: 0 <= i < j < |bs| ==>
      FirstOpening(qs, answers, bs[i].category) < FirstOpening(qs, answers, bs[j].category)
  }

  /** The buckets hold exactly the categories some answered question names, in order of
      their first answered question, each with all of its pushed scores in order. */
  ghost predicate Grouped(qs: seq<Question>, answers: Answers, bs: seq<Bucket>) {
    Opened(qs, answers, bs) && Covers(qs, answers, bs) && Filled(qs, answers, bs) && InOrder(qs, answers, bs)
  }

  lemma {:induction false} ContributionsSnoc(qs: seq<Question>, answers: Answers, c: string)
    requires |qs| > 0
    ensures Contributions(qs, answers, c)
         == Contributions(qs[..|qs| - 1], answers, c) + Own(qs[|qs| - 1], answers, c)
    decreases |qs|
  {
    var p := qs[..|qs| - 1];
    if |qs| == 1 {
      assert p == [];
    } else {
      ContributionsSnoc(qs[1..], answers, c);
      assert qs[1..][..|qs[1..]| - 1] == p[1..];
      assert qs[1..][|qs[1..]| - 1] == qs[|qs| - 1];
      assert p[0] == qs[0];
    }
  }

  /** A category nobody opens receives no scores. */
  lemma {:induction false} UnopenedHasNoContributions(qs: seq<Question>, answers: Answers, c: string)
    requires FirstOpening(qs, answers, c) == |qs|
    ensures Contributions(qs, answers, c) == []
    decreases |qs|
  {
    if |qs| > 0 {
      assert !Opens(qs[0], answers, c);
      assert FirstOpening(qs[1..], answers, c) == |qs| - 1;
      UnopenedHasNoContributions(qs[1..], answers, c);
    }
  }

  lemma {:induction false} FirstOpeningSnoc(qs: seq<Question>, answers: Answers, c: string)
    requires |qs| > 0
    ensures FirstOpening(qs[..|qs| - 1], answers, c) < |qs| - 1 ==>
              FirstOpening(qs, answers, c) == FirstOpening(qs[..|qs| - 1], answers, c)
    ensures FirstOpening(qs[..|qs| - 1], answers, c) == |qs| - 1 ==>
              FirstOpening(qs, answers, c) == if Opens(qs[|qs| - 1], answers, c) then |qs| - 1 else |qs|
  {
    var p := qs[..|qs| - 1];
    var a := FirstOpening(p, answers, c);
    var b := FirstOpening(qs, answers, c);
    assert forall j :: 0 <= j < |p| ==> p[j] == qs[j];
  }

  lemma {:induction false} FirstThrowSnoc(qs: seq<Question>, answers: Answers)
    requires |qs| > 0
    ensures FirstThrow(qs[..|qs| - 1], answers) < |qs| - 1 ==>
              FirstThrow(qs, answers) == FirstThrow(qs[..|qs| - 1], answers)
    ensures FirstThrow(qs[..|qs| - 1], answers) == |qs| - 1 ==>
              FirstThrow(qs, answers)
                == if ContributionOf(qs[|qs| - 1], answers) == Throws then |qs| - 1 else |qs|
  {
    var p := qs[..|qs| - 1];
    var a := FirstThrow(p, answers);
    var b := FirstThrow(qs, answers);
    assert forall j :: 0 <= j < |p| ==> p[j] == qs[j];
  }

  /** An unanswered question changes no bucket. */
  lemma {:induction false} VisitUnanswered(qs: seq<Question>, answers: Answers, bs: seq<Bucket>)
    requires |qs| > 0 && Grouped(qs[..|qs| - 1], answers, bs)
    requires qs[|qs| - 1].id !in answers
    ensures Grouped(qs, answers, bs)
  {
    var p := qs[..|qs| - 1];
    var q := qs[|qs| - 1];
    forall i | 0 <= i < |bs|
      ensures FirstOpening(qs, answers, bs[i].category) == FirstOpening(p, answers, bs[i].category)
      ensures bs[i].scores == Contributions(qs, answers, bs[i].category)
    {
      FirstOpeningSnoc(qs, answers, bs[i].category);
      ContributionsSnoc(qs, answers, bs[i].category);
      assert Own(q, answers, bs[i].category) == [];
    }
    forall j | 0 <= j < |qs| && qs[j].id in answers
      ensures IndexOf(bs, qs[j].category) < |bs|
    {
      assert j < |p| && p[j] == qs[j];
    }
  }

  /** Appends `extra` to the bucket of `c`, opening it at the end when absent. */
  function Extend(bs: seq<Bucket>, c: string, extra: seq<int>): (r: seq<Bucket>)
    ensures IndexOf(bs, c) < |bs| ==> |r| == |bs|
    ensures IndexOf(bs, c) == |bs| ==> |r| == |bs| + 1 && r[|bs|] == Bucket(c, extra)
    ensures forall i :: 0 <= i < |bs| ==> r[i].category == bs[i].category
    ensures forall i :: 0 <= i < |bs| && bs[i].category != c ==> r[i] == bs[i]
    ensures IndexOf(bs, c) < |bs| ==> r[IndexOf(bs, c)] == Bucket(c, bs[IndexOf(bs, c)].scores + extra)
  {
    var i := IndexOf(bs, c);
    if i < |bs| then bs[i := Bucket(c, bs[i].scores + extra)] else bs + [Bucket(c, extra)]
  }

  lemma {:induction false} VisitIsExtend(bs: seq<Bucket>, q: Question, answers: Answers)
    requires ContributionOf(q, answers).Adds? || ContributionOf(q, answers) == Skips
    ensures Visit(bs, q, answers) == Success(Extend(bs, q.category, Own(q, answers, q.category)))
  {
    var c := q.category;
    var i := IndexOf(bs, c);
    if i == |bs| && ContributionOf(q, answers).Adds? {
      var grown := bs + [Bucket(c, [])];
      assert forall j :: 0 <= j < |bs| ==> grown[j] == bs[j];
      assert grown[|bs|].category == c;
      assert IndexOf(grown, c) == |bs|;
      var k := ContributionOf(q, answers).k;
      assert Own(q, answers, c) == [k];
      assert [] + [k] == [k];
      assert grown[|bs| := Bucket(c, [] + [k])] == bs + [Bucket(c, [k])];
    }
    if i < |bs| && ContributionOf(q, answers) == Skips {
      assert Own(q, answers, c) == [];
      assert Bucket(c, bs[i].scores + []) == bs[i];
      assert bs[i := Bucket(c, bs[i].scores + [])] == bs;
    }
  }

  lemma {:induction false} ExtendOpened(qs: seq<Question>, answers: Answers, bs: seq<Bucket>)
    requires |qs| > 0 && Opened(qs[..|qs| - 1], answers, bs)
    requires qs[|qs| - 1].id in answers
    ensures Opened(qs, answers, Extend(bs, qs[|qs| - 1].category, Own(qs[|qs| - 1], answers, qs[|qs| - 1].category)))
  {
    var c := qs[|qs| - 1].category;
    var r := Extend(bs, c, Own(qs[|qs| - 1], answers, c));
    forall i | 0 <= i < |r|
      ensures FirstOpening(qs, answers, r[i].category) < |qs|
    {
      if i < |bs| {
        FirstOpeningSnoc(qs, answers, bs[i].category);
      } else {
        assert Opens(qs[|qs| - 1], answers, r[i].category);
      }
    }
  }

  lemma {:induction false} ExtendCovers(qs: seq<Question>, answers: Answers, bs: seq<Bucket>)
    requires |qs| > 0 && Covers(qs[..|qs| - 1], answers, bs)
    requires qs[|qs| - 1].id in answers
    ensures Covers(qs, answers, Extend(bs, qs[|qs| - 1].category, Own(qs[|qs| - 1], answers, qs[|qs| - 1].category)))
  {
    var p := qs[..|qs| - 1];
    var c := qs[|qs| - 1].category;
    var r := Extend(bs, c, Own(qs[|qs| - 1], answers, c));
    forall j | 0 <= j < |qs| && qs[j].id in answers
      ensures IndexOf(r, qs[j].category) < |r|
    {
      var k := if j < |p| then (assert p[j] == qs[j]; IndexOf(bs, qs[j].category))
               else if IndexOf(bs, c) < |bs| then IndexOf(bs, c) else |bs|;
      assert k < |r| && r[k].category == qs[j].category;
    }
  }

  /** Ordered buckets have distinct categories: each is the first bucket of its category. */
  lemma {:induction false} InOrderDistinct(qs: seq<Question>, answers: Answers, bs: seq<Bucket>, i: nat)
    requires InOrder(qs, answers, bs) && i < |bs|
    ensures IndexOf(bs, bs[i].category) == i
  {
    forall k | 0 <= k < i
      ensures bs[k].category != bs[i].category
    {
      assert FirstOpening(qs, answers, bs[k].category) < FirstOpening(qs, answers, bs[i].category);
    }
  }

  lemma {:induction false} ExtendFilled(qs: seq<Question>, answers: Answers, bs: seq<Bucket>)
    requires |qs| > 0 && Filled(qs[..|qs| - 1], answers, bs) && Covers(qs[..|qs| - 1], answers, bs)
    requires InOrder(qs[..|qs| - 1], answers, bs)
    requires qs[|qs| - 1].id in answers
    ensures Filled(qs, answers, Extend(bs, qs[|qs| - 1].category, Own(qs[|qs| - 1], answers, qs[|qs| - 1].category)))
  {
    var p := qs[..|qs| - 1];
    var q := qs[|qs| - 1];
    var c := q.category;
    var r := Extend(bs, c, Own(q, answers, c));
    forall i | 0 <= i < |r|
      ensures r[i].scores == Contributions(qs, answers, r[i].category)
    {
      ContributionsSnoc(qs, answers, r[i].category);
      if i == |bs| {
        NewCategoryUnopened(p, answers, bs, c);
        UnopenedHasNoContributions(p, answers, c);
      } else {
        InOrderDistinct(p, answers, bs, i);
        if bs[i].category != c {
          assert Own(q, answers, r[i].category) == [];
        }
      }
    }
  }

  /** A category without a bucket has not been opened by any earlier question. */
  lemma {:induction false} NewCategoryUnopened(p: seq<Question>, answers: Answers, bs: seq<Bucket>, c: string)
    requires Covers(p, answers, bs) && IndexOf(bs, c) == |bs|
    ensures FirstOpening(p, answers, c) == |p|
  {
    forall j | 0 <= j < |p|
      ensures !Opens(p[j], answers, c)
    {
      assert p[j].id in answers ==> IndexOf(bs, p[j].category) < |bs|;
    }
  }

  lemma {:induction false} ExtendInOrder(qs: seq<Question>, answers: Answers, bs: seq<Bucket>)
    requires |qs| > 0 && Opened(qs[..|qs| - 1], answers, bs) && InOrder(qs[..|qs| - 1], answers, bs)
    requires Covers(qs[..|qs| - 1], answers, bs)
    requires qs[|qs| - 1].id in answers
    ensures InOrder(qs, answers, Extend(bs, qs[|qs| - 1].category, Own(qs[|qs| - 1], answers, qs[|qs| - 1].category)))
  {
    var p := qs[..|qs| - 1];
    var c := qs[|qs| - 1].category;
    var r := Extend(bs, c, Own(qs[|qs| - 1], answers, c));
    forall i | 0 <= i < |bs|
      ensures FirstOpening(qs, answers, r[i].category) == FirstOpening(p, answers, bs[i].category) < |p|
    {
      FirstOpeningSnoc(qs, answers, bs[i].category);
    }
    if |r| > |bs| {
      NewCategoryUnopened(p, answers, bs, c);
      FirstOpeningSnoc(qs, answers, c);
      assert FirstOpening(qs, answers, r[|bs|].category) == |p|;
    }
  }

  /** The scan fails exactly at the first answered question that throws; otherwise its
      buckets are the grouping the reference definitions describe. */
  lemma {:induction false} GroupSpec(qs: seq<Question>, answers: Answers)
    ensures Group(qs, answers).Success? <==> FirstThrow(qs, answers) == |qs|
    ensures Group(qs, answers).Failure? ==> Group(qs, answers).error == qs[FirstThrow(qs, answers)].id
    ensures Group(qs, answers).Success? ==> Grouped(qs, answers, Group(qs, answers).value)
    decreases |qs|
  {
    if |qs| > 0 {
      var p := qs[..|qs| - 1];
      var q := qs[|qs| - 1];
      GroupSpec(p, answers);
      FirstThrowSnoc(qs, answers);
      match Group(p, answers)
      case Failure(id) =>
        assert p[FirstThrow(p, answers)] == qs[FirstThrow(p, answers)];
      case Success(bs) =>
        match ContributionOf(q, answers)
        case Unanswered =>
          VisitUnanswered(qs, answers, bs);
        case Throws =>
        case _ =>
          VisitIsExtend(bs, q, answers);
          ExtendOpened(qs, answers, bs);
          ExtendCovers(qs, answers, bs);
          ExtendFilled(qs, answers, bs);
          ExtendInOrder(qs, answers, bs);
    }
  }

  // ---------------------------------------------------------------------------
  // From buckets to the ranked profile.

  function Sum(s: seq<int>): int
    decreases |s|
  {
    if |s| == 0 then 0 else s[0] + Sum(s[1..])
  }

  /** `Math.round((sum / n / 5) * 100)` in exact arithmetic: the integer nearest to the
      mean scaled from 0..5 to 0..100, halves rounding up. */
  function RoundedPercent(sum: int, n: int): (r: int)
    requires n > 0
    ensures r as real <= (sum as real / n as real) / 5.0 * 100.0 + 0.5 < r as real + 1.0
  {
    var x := 40 * sum + n;
    var d := 2 * n;
    FloorDivReal(x, d);
    ScaledMean(sum, n);
    x / d
  }

  /** The scaled mean plus one half is (40 sum + n) / 2n. */
  lemma {:induction false} ScaledMean(sum: int, n: int)
    requires n > 0
    ensures (sum as real / n as real) / 5.0 * 100.0 + 0.5 == (40 * sum + n) as real / (2 * n) as real
  {
    var nr := n as real;
    var mean := sum as real / nr;
    var lhs := mean / 5.0 * 100.0 + 0.5;
    assert lhs == 20.0 * mean + 0.5;
    assert mean * nr == sum as real;
    assert lhs * (2.0 * nr) == 40.0 * (mean * nr) + nr;
    RealQuotient(lhs, (40 * sum + n) as real, 2.0 * nr);
  }

  /** A number times a positive divisor equal to the dividend is the quotient. */
  lemma {:induction false} RealQuotient(y: real, x: real, d: real)
    requires d > 0.0 && y * d == x
    ensures y == x / d
  {
  }

  /** Floor division agrees with real division rounded down. */
  lemma {:induction false} FloorDivReal(x: int, d: int)
    requires d > 0
    ensures (x / d) as real <= x as real / d as real < (x / d) as real + 1.0
  {
    var q := x / d;
    var dr := d as real;
    var y := x as real / dr;
    RealQuotientTimes(x as real, dr);
    assert q * d <= x < (q + 1) * d;
    IntMulAsReal(q, d);
    IntMulAsReal(q + 1, d);
    RealCancel(q as real, y, dr);
    RealCancelStrict(y, (q + 1) as real, dr);
  }

  lemma {:induction false} RealQuotientTimes(x: real, d: real)
    requires d > 0.0
    ensures (x / d) * d == x
  {
  }

  lemma {:induction false} IntMulAsReal(a: int, b: int)
    ensures (a * b) as real == (a as real) * (b as real)
  {
  }

  lemma {:induction false} RealCancel(a: real, b: real, c: real)
    requires c > 0.0 && a * c <= b * c
    ensures a <= b
  {
  }

  lemma {:induction false} RealCancelStrict(a: real, b: real, c: real)
    requires c > 0.0 && a * c < b * c
    ensures a < b
  {
  }

  lemma {:induction false} DivAtLeast(x: int, d: int, a: int)
    requires d > 0 && a * d <= x
    ensures a <= x / d
  {
    var q := x / d;
    assert x < q * d + d;
    assert a * d < (q + 1) * d;
    if q + 1 <= a {
      MulMonotone(q + 1, a, d);
    }
  }

  lemma {:induction false} DivBelow(x: int, d: int, b: int)
    requires d > 0 && x < b * d
    ensures x / d < b
  {
    var q := x / d;
    assert q * d <= x;
    if b <= q {
      MulMonotone(b, q, d);
    }
  }

  lemma {:induction false} MulMonotone(a: int, b: int, d: int)
    requires a <= b && d > 0
    ensures a * d <= b * d
  {
    assert b * d - a * d == (b - a) * d;
  }

  /** Means of 1..5 scores land in 20..100. */
  lemma {:induction false} RoundedPercentRange(sum: int, n: int)
    requires n > 0 && n <= sum <= 5 * n
    ensures 20 <= RoundedPercent(sum, n) <= 100
  {
    DivAtLeast(40 * sum + n, 2 * n, 20);
    DivBelow(40 * sum + n, 2 * n, 101);
  }

  /** `categories[c]?.name || c`: the catalog's display name, or the key itself. */
  function DisplayName(c: string): (r: string)
    ensures r == c || exists k :: 0 <= k < |Categories| && Categories[k].key == c && r == Categories[k].name
    ensures r == "" ==> c == ""
  {
    match NameIn(Categories, c)
    case Some(name) => if name != "" then name else c
    case None => c
  }

  /** Every catalog category is shown under its own name; any other key is shown as is. */
  lemma {:induction false} DisplayNames(c: string)
    ensures forall k :: 0 <= k < |Categories| ==> DisplayName(Categories[k].key) == Categories[k].name
    ensures c !in CategoryKeys() ==> DisplayName(c) == c
  {
    forall k | 0 <= k < |Categories|
      ensures DisplayName(Categories[k].key) == Categories[k].name
    {
      DisplayNameAt(k);
    }
    assert CategoryName(c) == NameIn(Categories, c);
  }

  lemma {:induction false} DisplayNameAt(k: nat)
    requires k < |Categories|
    ensures DisplayName(Categories[k].key) == Categories[k].name
  {
    CategoryKeysDistinct();
    CategoryNamesFilled();
    NameInDistinct(Categories, k);
  }

  /** With distinct keys, looking up entry k's key finds entry k. */
  lemma {:induction false} NameInDistinct(infos: seq<CategoryInfo>, k: nat)
    requires k < |infos|
    requires forall a, b :: 0 <= a < b < |infos| ==> infos[a].key != infos[b].key
    ensures NameIn(infos, infos[k].key) == Some(infos[k].name)
    decreases k
  {
    if k > 0 {
      assert infos[0].key != infos[k].key;
      assert infos[1..][k - 1] == infos[k];
      NameInDistinct(infos[1..], k - 1);
    }
  }

  /** One element of `scores` built from a non-empty bucket: the bucket's mean scaled from
      0..5 to 0..100 and rounded, its band, and the category's display name. */
  function Entry(b: Bucket): (r: CategoryScore)
    requires |b.scores| > 0
    ensures r.category == b.category && r.name == DisplayName(b.category)
    ensures r.score as real <= (Sum(b.scores) as real / |b.scores| as real) / 5.0 * 100.0 + 0.5 < r.score as real + 1.0
    ensures r.level == LevelOf(r.score)
    ensures (forall i :: 0 <= i < |b.scores| ==> 1 <= b.scores[i] <= 5) ==> 20 <= r.score <= 100
  {
    ScoreRange(b.scores);
    var score := RoundedPercent(Sum(b.scores), |b.scores|);
    CategoryScore(b.category, score, LevelOf(score), DisplayName(b.category))
  }

  /** `Object.entries(categoryScores).map(...)`, failing on the first empty bucket. */
  function ScoreAll(bs: seq<Bucket>): (r: Result<seq<CategoryScore>, EngineError>)
    ensures r.Success? <==> forall i :: 0 <= i < |bs| ==> |bs[i].scores| > 0
    ensures r.Success? ==> |r.value| == |bs|
    ensures r.Success? ==> forall i :: 0 <= i < |bs| ==> |bs[i].scores| > 0 && r.value[i] == Entry(bs[i])
    ensures r.Failure? ==> exists i :: 0 <= i < |bs| && bs[i].scores == [] && r.error == UnscoredCategory(bs[i].category)
    decreases |bs|
  {
    if |bs| == 0 then Success([])
    else if |bs[0].scores| == 0 then Failure(UnscoredCategory(bs[0].category))
    else
      match ScoreAll(bs[1..])
      case Failure(e) =>
        UnscoredShift(bs, e);
        Failure(e)
      case Success(rest) =>
        EntriesShift(bs, rest);
        Success([Entry(bs[0])] + rest)
  }

  lemma {:induction false} UnscoredShift(bs: seq<Bucket>, e: EngineError)
    requires |bs| > 0
    requires exists i :: 0 <= i < |bs[1..]| && bs[1..][i].scores == [] && e == UnscoredCategory(bs[1..][i].category)
    ensures exists i :: 0 <= i < |bs| && bs[i].scores == [] && e == UnscoredCategory(bs[i].category)
  {
    var i :| 0 <= i < |bs[1..]| && bs[1..][i].scores == [] && e == UnscoredCategory(bs[1..][i].category);
    assert bs[i + 1] == bs[1..][i];
  }

  lemma {:induction false} EntriesShift(bs: seq<Bucket>, rest: seq<CategoryScore>)
    requires |bs| > 0 && |bs[0].scores| > 0 && |rest| == |bs| - 1
    requires forall i :: 0 <= i < |bs[1..]| ==> |bs[1..][i].scores| > 0 && rest[i] == Entry(bs[1..][i])
    ensures forall i :: 0 <= i < |bs| ==> |bs[i].scores| > 0 && ([Entry(bs[0])] + rest)[i] == Entry(bs[i])
  {
    var r := [Entry(bs[0])] + rest;
    forall i | 0 <= i < |bs|
      ensures |bs[i].scores| > 0 && r[i] == Entry(bs[i])
    {
      if i > 0 {
        EntryShiftAt(bs, rest, i);
      }
    }
  }

  lemma {:induction false} EntryShiftAt(bs: seq<Bucket>, rest: seq<CategoryScore>, i: nat)
    requires 0 < i < |bs| && |bs[0].scores| > 0 && |rest| == |bs| - 1
    requires |bs[1..][i - 1].scores| > 0 && rest[i - 1] == Entry(bs[1..][i - 1])
    ensures |bs[i].scores| > 0 && ([Entry(bs[0])] + rest)[i] == Entry(bs[i])
  {
    assert bs[i] == bs[1..][i - 1];
  }

  /** The profile the engine returns: entries sorted by score, and the overall risk band. */
  datatype Profile = Profile(scores: seq<CategoryScore>, risk: Level)

  /** Every entry's level is the band of its score. */
  predicate Banded(es: seq<CategoryScore>) {
    forall i :: 0 <= i < |es| ==> es[i].level == LevelOf(es[i].score)
  }

  lemma {:induction false} PermutationBanded(a: seq<CategoryScore>, b: seq<CategoryScore>)
    requires multiset(a) == multiset(b) && Banded(b)
    ensures Banded(a)
  {
    forall i | 0 <= i < |a|
      ensures a[i].level == LevelOf(a[i].score)
    {
      assert a[i] in multiset(b);
      var j :| 0 <= j < |b| && b[j] == a[i];
    }
  }

  /** `calculateProfile` up to the point both pages share: it fails exactly where a
      question throws, and otherwise returns banded entries sorted by score with the risk
      band of their mean. */
  function Score(qs: seq<Question>, answers: Answers): (r: Result<Profile, EngineError>)
    ensures r.Failure? && r.error.TypeErrorAt? <==> exists i :: 0 <= i < |qs| && ContributionOf(qs[i], answers) == Throws
    ensures r.Failure? && r.error.TypeErrorAt? ==>
      exists i :: 0 <= i < |qs| && qs[i].id == r.error.id && ContributionOf(qs[i], answers) == Throws
    ensures r.Success? ==> SortedDesc(r.value.scores) && Banded(r.value.scores) && r.value.risk == RiskOf(r.value.scores)
  {
    match Group(qs, answers)
    case Failure(id) => Failure(TypeErrorAt(id))
    case Success(bs) =>
      match ScoreAll(bs)
      case Failure(e) => Failure(e)
      case Success(es) =>
        var sorted := SortDesc(es);
        PermutationBanded(sorted, es);
        Success(Profile(sorted, RiskOf(sorted)))
  }

  // ---------------------------------------------------------------------------
  // What the engine computes, stated against the reference definitions.

  /** Category `c` has an entry in `es`. */
  predicate Listed(es: seq<CategoryScore>, c: string) {
    exists i :: 0 <= i < |es| && es[i].category == c
  }

  /** The tie-break order the stable sort keeps: the position of the category's first
      answered question in the catalog. */
  function FirstSeen(qs: seq<Question>, answers: Answers): CategoryScore -> int {
    (e: CategoryScore) => FirstOpening(qs, answers, e.category)
  }

  /** The entry of category `e.category` is computed from all its pushed scores. */
  ghost predicate EntryFor(qs: seq<Question>, answers: Answers, e: CategoryScore) {
    var cs := Contributions(qs, answers, e.category);
    && |cs| > 0
    && e.score == RoundedPercent(Sum(cs), |cs|)
    && e.level == LevelOf(e.score)
    && e.name == DisplayName(e.category)
  }

  predicate DistinctCategories(es: seq<CategoryScore>) {
    forall i, j :: 0 <= i < j < |es| ==> es[i].category != es[j].category
  }

  lemma {:induction false} DistinctCount(b: seq<CategoryScore>, x: CategoryScore)
    requires DistinctCategories(b)
    ensures multiset(b)[x] <= 1
    decreases |b|
  {
    if |b| > 0 {
      assert b == [b[0]] + b[1..];
      assert DistinctCategories(b[1..]) by {
        forall i, j | 0 <= i < j < |b[1..]|
          ensures b[1..][i].category != b[1..][j].category
        {
          assert b[1..][i] == b[i + 1] && b[1..][j] == b[j + 1];
        }
      }
      DistinctCount(b[1..], x);
      if x == b[0] {
        forall k | 0 <= k < |b[1..]|
          ensures b[1..][k] != x
        {
          assert b[1..][k] == b[k + 1];
        }
        assert x !in b[1..];
      }
    }
  }

  lemma {:induction false} TwoCount(a: seq<CategoryScore>, i: nat, j: nat)
    requires i < j < |a|
    ensures a[i] == a[j] ==> multiset(a)[a[i]] >= 2
  {
    assert a == a[..j] + a[j..];
    assert a[..j][i] == a[i];
    assert a[j..][0] == a[j];
  }

  /** Reordering keeps categories distinct. */
  lemma {:induction false} PermutationDistinct(a: seq<CategoryScore>, b: seq<CategoryScore>)
    requires multiset(a) == multiset(b) && DistinctCategories(b)
    ensures DistinctCategories(a)
  {
    forall i, j | 0 <= i < j < |a|
      ensures a[i].category != a[j].category
    {
      assert a[i] in multiset(b) && a[j] in multiset(b);
      var k :| 0 <= k < |b| && b[k] == a[i];
      var l :| 0 <= l < |b| && b[l] == a[j];
      assert a[i].category == a[j].category ==> k == l;
      TwoCount(a, i, j);
      DistinctCount(b, a[i]);
    }
  }

  /** A successful run unfolds into its three stages. */
  lemma {:induction false} ScoreStages(qs: seq<Question>, answers: Answers)
    requires Score(qs, answers).Success?
    ensures Group(qs, answers).Success? && Grouped(qs, answers, Group(qs, answers).value)
    ensures ScoreAll(Group(qs, answers).value).Success?
    ensures Score(qs, answers).value.scores == SortDesc(ScoreAll(Group(qs, answers).value).value)
    ensures Score(qs, answers).value.risk == RiskOf(Score(qs, answers).value.scores)
  {
    GroupSpec(qs, answers);
  }

  /** Every entry of a successful run is computed from all of its category's scores. */
  lemma {:induction false} ScoreEntries(qs: seq<Question>, answers: Answers)
    requires Score(qs, answers).Success?
    ensures forall e :: e in Score(qs, answers).value.scores ==> EntryFor(qs, answers, e)
  {
    ScoreStages(qs, answers);
    var bs := Group(qs, answers).value;
    var entries := ScoreAll(bs).value;
    var es := SortDesc(entries);
    EntriesFor(qs, answers, bs);
    forall e | e in es
      ensures EntryFor(qs, answers, e)
    {
      assert e in multiset(entries);
    }
  }

  /** Each entry computed from filled buckets is computed from all its category's scores. */
  lemma {:induction false} EntriesFor(qs: seq<Question>, answers: Answers, bs: seq<Bucket>)
    requires Filled(qs, answers, bs) && ScoreAll(bs).Success?
    ensures forall e :: e in ScoreAll(bs).value ==> EntryFor(qs, answers, e)
  {
    var entries := ScoreAll(bs).value;
    forall e | e in entries
      ensures EntryFor(qs, answers, e)
    {
      var k :| 0 <= k < |entries| && entries[k] == e;
      assert bs[k].scores == Contributions(qs, answers, bs[k].category);
    }
  }

  /** Reordering does not change which categories are listed. */
  lemma {:induction false} ListedPermutation(a: seq<CategoryScore>, b: seq<CategoryScore>, c: string)
    requires multiset(a) == multiset(b)
    ensures Listed(a, c) <==> Listed(b, c)
  {
    if Listed(a, c) {
      var i :| 0 <= i < |a| && a[i].category == c;
      assert a[i] in multiset(b);
      var k :| 0 <= k < |b| && b[k] == a[i];
    }
    if Listed(b, c) {
      var i :| 0 <= i < |b| && b[i].category == c;
      assert b[i] in multiset(a);
      var k :| 0 <= k < |a| && a[k] == b[i];
    }
  }

  /** A category is listed exactly when some question of it was answered. */
  lemma {:induction false} ScoreListed(qs: seq<Question>, answers: Answers, c: string)
    requires Score(qs, answers).Success?
    ensures Listed(Score(qs, answers).value.scores, c) <==> FirstOpening(qs, answers, c) < |qs|
  {
    ScoreStages(qs, answers);
    var bs := Group(qs, answers).value;
    var entries := ScoreAll(bs).value;
    ListedPermutation(SortDesc(entries), entries, c);
    if FirstOpening(qs, answers, c) < |qs| {
      assert qs[FirstOpening(qs, answers, c)].id in answers;
      assert entries[IndexOf(bs, c)].category == c;
    }
    if Listed(entries, c) {
      var i :| 0 <= i < |entries| && entries[i].category == c;
      assert bs[i].category == c;
    }
  }

  /** The unsorted entries carry distinct categories in first-answered order. */
  lemma {:induction false} EntriesInOrder(qs: seq<Question>, answers: Answers)
    requires Score(qs, answers).Success?
    ensures DistinctCategories(ScoreAll(Group(qs, answers).value).value)
    ensures IncreasingBy(ScoreAll(Group(qs, answers).value).value, FirstSeen(qs, answers))
  {
    ScoreStages(qs, answers);
    var bs := Group(qs, answers).value;
    var entries := ScoreAll(bs).value;
    forall i, j | 0 <= i < j < |entries|
      ensures entries[i].category != entries[j].category
      ensures FirstSeen(qs, answers)(entries[i]) < FirstSeen(qs, answers)(entries[j])
    {
      assert FirstOpening(qs, answers, bs[i].category) < FirstOpening(qs, answers, bs[j].category);
    }
  }

  /** Whenever the engine succeeds, its profile lists exactly the answered categories, once
      each, with the rounded mean of all their pushed scores, sorted by score with ties in
      catalog order, and the risk band of those scores. */
  lemma {:induction false} ScoreSpec(qs: seq<Question>, answers: Answers)
    requires Score(qs, answers).Success?
    ensures forall c :: Listed(Score(qs, answers).value.scores, c) <==> FirstOpening(qs, answers, c) < |qs|
    ensures forall e :: e in Score(qs, answers).value.scores ==> EntryFor(qs, answers, e)
    ensures DistinctCategories(Score(qs, answers).value.scores)
    ensures SortedDesc(Score(qs, answers).value.scores)
    ensures TiesOrderedBy(Score(qs, answers).value.scores, FirstSeen(qs, answers))
    ensures Score(qs, answers).value.risk == RiskOf(Score(qs, answers).value.scores)
  {
    ScoreStages(qs, answers);
    ScoreEntries(qs, answers);
    forall c
      ensures Listed(Score(qs, answers).value.scores, c) <==> FirstOpening(qs, answers, c) < |qs|
    {
      ScoreListed(qs, answers, c);
    }
    EntriesInOrder(qs, answers);
    var entries := ScoreAll(Group(qs, answers).value).value;
    PermutationDistinct(SortDesc(entries), entries);
    SortDescStable(entries, FirstSeen(qs, answers));
  }

  /** With successful grouping, every bucket is non-empty exactly when every answered
      category received a score. */
  lemma {:induction false} BucketsFilled(qs: seq<Question>, answers: Answers, bs: seq<Bucket>)
    requires Grouped(qs, answers, bs)
    ensures (forall i :: 0 <= i < |bs| ==> |bs[i].scores| > 0) <==>
            (forall c :: FirstOpening(qs, answers, c) < |qs| ==> Contributions(qs, answers, c) != [])
    ensures forall i :: 0 <= i < |bs| ==>
              FirstOpening(qs, answers, bs[i].category) < |qs| && bs[i].scores == Contributions(qs, answers, bs[i].category)
  {
    forall c | FirstOpening(qs, answers, c) < |qs|
      ensures IndexOf(bs, c) < |bs| && bs[IndexOf(bs, c)].scores == Contributions(qs, answers, c)
    {
      assert qs[FirstOpening(qs, answers, c)].id in answers;
    }
    if forall i :: 0 <= i < |bs| ==> |bs[i].scores| > 0 {
      forall c | FirstOpening(qs, answers, c) < |qs|
        ensures Contributions(qs, answers, c) != []
      {
        assert |bs[IndexOf(bs, c)].scores| > 0;
      }
    }
    if !(forall i :: 0 <= i < |bs| ==> |bs[i].scores| > 0) {
      var i :| 0 <= i < |bs| && |bs[i].scores| == 0;
      assert FirstOpening(qs, answers, bs[i].category) < |qs|;
      assert Contributions(qs, answers, bs[i].category) == [];
    }
  }

  /** The engine succeeds exactly when no answered question throws and every answered
      category received at least one score; a throw is reported at the first throwing
      question, and otherwise the failure names an answered category without scores. */
  lemma {:induction false} ScoreSucceeds(qs: seq<Question>, answers: Answers)
    ensures Score(qs, answers).Success? <==>
              && FirstThrow(qs, answers) == |qs|
              && forall c :: FirstOpening(qs, answers, c) < |qs| ==> Contributions(qs, answers, c) != []
    ensures FirstThrow(qs, answers) < |qs| ==>
              Score(qs, answers) == Failure(TypeErrorAt(qs[FirstThrow(qs, answers)].id))
    ensures FirstThrow(qs, answers) == |qs| && Score(qs, answers).Failure? ==>
              && Score(qs, answers).error.UnscoredCategory?
              && FirstOpening(qs, answers, Score(qs, answers).error.category) < |qs|
              && Contributions(qs, answers, Score(qs, answers).error.category) == []
  {
    GroupSpec(qs, answers);
    if FirstThrow(qs, answers) == |qs| {
      BucketsFilled(qs, answers, Group(qs, answers).value);
    }
  }

  /** With no answers the scan opens no bucket. */
  lemma {:induction false} GroupNoAnswers(qs: seq<Question>)
    ensures Group(qs, map[]) == Success([])
    decreases |qs|
  {
    if |qs| > 0 {
      GroupNoAnswers(qs[..|qs| - 1]);
    }
  }

  /** With no answers at all there are no entries and the risk band is "bajo". */
  lemma {:induction false} NoAnswers(qs: seq<Question>)
    ensures Score(qs, map[]) == Success(Profile([], Bajo))
  {
    GroupNoAnswers(qs);
  }

  // ---------------------------------------------------------------------------
  // Answers the quiz page can produce.

  /** An answer the quiz page can record for `q`: one of its option values, or for the
      multiple-choice question a list of its option values. */
  predicate QuizAnswer(q: Question, a: Answer) {
    if q.kind == Multi then
      a.Items? && forall x :: x in a.xs ==> exists j :: 0 <= j < |q.options| && q.options[j].value == x
    else
      exists j :: 0 <= j < |q.options| && a == Scalar(q.options[j].value)
  }

  /** Every recorded answer to a question of `qs` is one the quiz page can produce. */
  ghost predicate QuizAnswers(qs: seq<Question>, answers: Answers) {
    forall j :: 0 <= j < |qs| && qs[j].id in answers ==> QuizAnswer(qs[j], answers[qs[j].id])
  }

  /** On a well-shaped question a quiz answer always pushes a score in 1..5: the chosen
      option's own score, or the multiple-choice score. */
  lemma {:induction false} QuizContribution(q: Question, a: Answer)
    requires WellShaped(q) && QuizAnswer(q, a)
    ensures Contribute(q, a).Adds? && 1 <= Contribute(q, a).k <= 5
    ensures q.kind != Multi ==>
              forall j :: 0 <= j < |q.options| && a == Scalar(q.options[j].value) ==>
                q.options[j].score == Some(Contribute(q, a).k)
  {
    if q.kind != Multi {
      var j :| 0 <= j < |q.options| && a == Scalar(q.options[j].value);
      var f := FindOption(q.options, a);
      assert f <= j;
      forall i | 0 <= i < |q.options| && a == Scalar(q.options[i].value)
        ensures i == f
      {
        assert q.options[i].value == q.options[f].value;
      }
    }
  }

  lemma {:induction false} QuizContributions(qs: seq<Question>, answers: Answers, c: string)
    requires forall j :: 0 <= j < |qs| ==> WellShaped(qs[j])
    requires QuizAnswers(qs, answers)
    ensures forall k :: 0 <= k < |Contributions(qs, answers, c)| ==> 1 <= Contributions(qs, answers, c)[k] <= 5
    ensures FirstOpening(qs, answers, c) < |qs| ==> Contributions(qs, answers, c) != []
    decreases |qs|
  {
    if |qs| > 0 {
      var tail := qs[1..];
      assert forall j :: 0 <= j < |tail| ==> tail[j] == qs[j + 1];
      QuizContributions(tail, answers, c);
      OwnInRange(qs[0], answers, c);
      ContributionsBounds(Own(qs[0], answers, c), Contributions(tail, answers, c));
    }
  }

  /** A quiz answer to a well-shaped question pushes one score in 1..5 for its category. */
  lemma {:induction false} OwnInRange(q: Question, answers: Answers, c: string)
    requires WellShaped(q)
    requires q.id in answers ==> QuizAnswer(q, answers[q.id])
    ensures forall k :: 0 <= k < |Own(q, answers, c)| ==> 1 <= Own(q, answers, c)[k] <= 5
    ensures Opens(q, answers, c) ==> Own(q, answers, c) != []
  {
    if q.id in answers {
      QuizContribution(q, answers[q.id]);
    }
  }

  lemma {:induction false} ContributionsBounds(own: seq<int>, rest: seq<int>)
    requires forall k :: 0 <= k < |own| ==> 1 <= own[k] <= 5
    requires forall k :: 0 <= k < |rest| ==> 1 <= rest[k] <= 5
    ensures forall k :: 0 <= k < |own + rest| ==> 1 <= (own + rest)[k] <= 5
  {
  }

  /** Means of scores in 1..5 are normalised into 20..100. */
  lemma {:induction false} ScoreRange(s: seq<int>)
    requires |s| > 0
    ensures (forall i :: 0 <= i < |s| ==> 1 <= s[i] <= 5) ==> 20 <= RoundedPercent(Sum(s), |s|) <= 100
  {
    if forall i :: 0 <= i < |s| ==> 1 <= s[i] <= 5 {
      SumBounds(s);
      RoundedPercentRange(Sum(s), |s|);
    }
  }

  lemma {:induction false} SumBounds(s: seq<int>)
    requires forall k :: 0 <= k < |s| ==> 1 <= s[k] <= 5
    ensures |s| <= Sum(s) <= 5 * |s|
    decreases |s|
  {
    if |s| > 0 {
      assert forall k :: 0 <= k < |s[1..]| ==> s[1..][k] == s[k + 1];
      SumBounds(s[1..]);
    }
  }

  /** Answers the quiz page produces always yield a profile, and every category score lies
      in 20..100. */
  lemma {:induction false} QuizAnswersScore(qs: seq<Question>, answers: Answers)
    requires forall j :: 0 <= j < |qs| ==> WellShaped(qs[j])
    requires QuizAnswers(qs, answers)
    ensures Score(qs, answers).Success?
    ensures forall e :: e in Score(qs, answers).value.scores ==> 20 <= e.score <= 100
  {
    forall j | 0 <= j < |qs|
      ensures ContributionOf(qs[j], answers) != Throws
    {
      if qs[j].id in answers {
        QuizContribution(qs[j], answers[qs[j].id]);
      }
    }
    assert FirstThrow(qs, answers) == |qs|;
    forall c | FirstOpening(qs, answers, c) < |qs|
      ensures Contributions(qs, answers, c) != []
    {
      QuizContributions(qs, answers, c);
    }
    ScoreSucceeds(qs, answers);
    ScoreEntries(qs, answers);
    forall e | e in Score(qs, answers).value.scores
      ensures 20 <= e.score <= 100
    {
      var cs := Contributions(qs, answers, e.category);
      QuizContributions(qs, answers, e.category);
      SumBounds(cs);
      RoundedPercentRange(Sum(cs), |cs|);
    }
  }

  /** On the catalog itself, quiz answers always yield a profile with scores in 20..100. */
  lemma {:induction false} CatalogQuizScores(answers: Answers)
    requires QuizAnswers(Catalog, answers)
    ensures Score(Catalog, answers).Success?
    ensures forall e :: e in Score(Catalog, answers).value.scores ==> 20 <= e.score <= 100
  {
    CatalogWellShaped();
    QuizAnswersScore(Catalog, answers);
  }
}
