/** The quiz page: recording answers, the multiple-choice toggle, the navigation buttons,
    and the profile it stores when the last question is submitted. */
module TestPage {
  import opened Wrappers
  import Text
  import opened Questions
  import opened Ranking
  import opened Scoring

  // ---------------------------------------------------------------------------
  // The stored profile.

  /** What the quiz page's `calculateProfile` returns and stores. */
  datatype StoredProfile = StoredProfile(scores: seq<CategoryScore>, risk: Level, mainFactors: seq<CategoryScore>)

  /** The shared engine followed by `mainFactors: sortedScores.slice(0, 3)`: the stored
      profile keeps the engine's ranking, and its main factors are the best three entries,
      best first, whatever their level. */
  function CalculateProfile(qs: seq<Question>, answers: Answers): (r: Result<StoredProfile, EngineError>)
    ensures r.Success? <==> Score(qs, answers).Success?
    ensures r.Failure? ==> r.error == Score(qs, answers).error
    ensures r.Success? ==>
      && r.value.scores == Score(qs, answers).value.scores
      && SortedDesc(r.value.scores)
      && r.value.risk == RiskOf(r.value.scores)
      && |r.value.mainFactors| == (if |r.value.scores| < 3 then |r.value.scores| else 3)
      && r.value.mainFactors == r.value.scores[..|r.value.mainFactors|]
  {
    var p :- Score(qs, answers);
    Success(StoredProfile(p.scores, p.risk, Take(p.scores, 3)))
  }

  /** `mainFactors` are the (at most) three best-scoring categories, best first, whatever
      their level: no entry left out scores more than one kept. */
  lemma {:induction false} MainFactorsAreTop(qs: seq<Question>, answers: Answers)
    requires CalculateProfile(qs, answers).Success?
    ensures var p := CalculateProfile(qs, answers).value;
      && p.scores == Score(qs, answers).value.scores
      && p.risk == RiskOf(p.scores)
      && |p.mainFactors| == (if |p.scores| < 3 then |p.scores| else 3)
      && (forall i :: 0 <= i < |p.mainFactors| ==> p.mainFactors[i] == p.scores[i])
      && SortedDesc(p.mainFactors)
      && (forall e, x :: e in p.scores && e !in p.mainFactors && x in p.mainFactors ==> x.score >= e.score)
  {
    var p := CalculateProfile(qs, answers).value;
    TakeTop(p.scores, 3);
  }

  /** When only the question at index `i` is answered, the scores pushed for any category
      are that question's own. */
  lemma {:induction false} ContributionsOfOne(qs: seq<Question>, answers: Answers, c: string, i: nat)
    requires i < |qs|
    requires forall j :: 0 <= j < |qs| && j != i ==> qs[j].id !in answers
    ensures Contributions(qs, answers, c) == Own(qs[i], answers, c)
    decreases |qs|
  {
    var tail := qs[1..];
    if i == 0 {
      UnansweredContribute(tail, answers, c);
      assert Own(qs[i], answers, c) + [] == Own(qs[i], answers, c);
    } else {
      assert qs[0].id !in answers;
      assert forall j :: 0 <= j < |tail| ==> tail[j] == qs[j + 1];
      ContributionsOfOne(tail, answers, c, i - 1);
    }
  }

  lemma {:induction false} UnansweredContribute(qs: seq<Question>, answers: Answers, c: string)
    requires forall j :: 0 <= j < |qs| ==> qs[j].id !in answers
    ensures Contributions(qs, answers, c) == []
    decreases |qs|
  {
    if |qs| > 0 {
      var tail := qs[1..];
      assert forall j :: 0 <= j < |tail| ==> tail[j] == qs[j + 1];
      UnansweredContribute(tail, answers, c);
    }
  }

  /** A single favourable answer: question 3 (category "deficit_calorico") answered with
      its lowest option. */
  const OneLowAnswer: Answers := map[3 := Scalar(Num(1))]

  lemma {:induction false} OneLowAnswerFacts()
    ensures QuizAnswers(Catalog, OneLowAnswer)
    ensures forall j :: 0 <= j < |Catalog| && Catalog[j].id in OneLowAnswer ==> j == 2
    ensures Catalog[2] == Question(3, Deficit, Single, Ascending)
  {
    CatalogIds();
    var a := OneLowAnswer;
    forall j | 0 <= j < |Catalog| && Catalog[j].id in a
      ensures j == 2 && QuizAnswer(Catalog[j], a[Catalog[j].id])
    {
      assert Catalog[j].id == 3;
      assert a[3] == Scalar(Ascending[0].value);
    }
  }

  lemma {:induction false} OneLowAnswerDeficit()
    ensures FirstOpening(Catalog, OneLowAnswer, Deficit) == 2
    ensures Contributions(Catalog, OneLowAnswer, Deficit) == [1]
    ensures forall c :: FirstOpening(Catalog, OneLowAnswer, c) < |Catalog| ==> c == Deficit
  {
    var a := OneLowAnswer;
    OneLowAnswerFacts();
    assert Opens(Catalog[2], a, Deficit);
    ContributionsOfOne(Catalog, a, Deficit, 2);
    assert ContributionOf(Catalog[2], a) == Adds(1);
    forall c | FirstOpening(Catalog, a, c) < |Catalog|
      ensures c == Deficit
    {
      var f := FirstOpening(Catalog, a, c);
      assert Catalog[f].id in a;
    }
  }

  /** When answers open a single category, the profile's first entry is that category's. */
  lemma {:induction false} SingleCategoryFirst(qs: seq<Question>, answers: Answers, c: string)
    requires Score(qs, answers).Success?
    requires FirstOpening(qs, answers, c) < |qs|
    requires forall d :: FirstOpening(qs, answers, d) < |qs| ==> d == c
    ensures |Score(qs, answers).value.scores| > 0
    ensures Score(qs, answers).value.scores[0].category == c
    ensures EntryFor(qs, answers, Score(qs, answers).value.scores[0])
  {
    var scores := Score(qs, answers).value.scores;
    ScoreListed(qs, answers, c);
    ScoreEntries(qs, answers);
    var e := scores[0];
    ScoreListed(qs, answers, e.category);
  }

  /** Unlike the result page's list of main factors, `mainFactors` keeps categories at
      level "bajo": with one favourable answer the only category scores 20. */
  lemma {:induction false} MainFactorsKeepLowLevels()
    ensures CalculateProfile(Catalog, OneLowAnswer).Success?
    ensures var p := CalculateProfile(Catalog, OneLowAnswer).value;
      && |p.mainFactors| > 0
      && p.mainFactors[0] == CategoryScore(Deficit, 20, Bajo, DisplayName(Deficit))
  {
    var a := OneLowAnswer;
    OneLowAnswerFacts();
    CatalogQuizScores(a);
    OneLowAnswerDeficit();
    SingleCategoryFirst(Catalog, a, Deficit);
    assert RoundedPercent(Sum([1]), 1) == 20;
  }

  // ---------------------------------------------------------------------------
  // Recording answers.

  /** The quiz page's state: the index of the shown question and the answers so far. */
  datatype Quiz = Quiz(current: nat, answers: Answers)

  const Start: Quiz := Quiz(0, map[])

  /** `answers[question.id]`, absent when the question has not been answered. */
  function CurrentAnswer(q: Question, answers: Answers): (r: Option<Answer>)
    ensures r.Some? <==> q.id in answers
    ensures r.Some? ==> r.value == answers[q.id]
  {
    if q.id in answers then Some(answers[q.id]) else None
  }

  /** `handleAnswer`: records `a` for the shown question and leaves every other answer
      and the position alone. */
  function HandleAnswer(st: Quiz, qs: seq<Question>, a: Answer): (r: Quiz)
    requires st.current < |qs|
    ensures r.current == st.current
    ensures CurrentAnswer(qs[st.current], r.answers) == Some(a)
    ensures forall id :: id != qs[st.current].id ==>
              (id in r.answers <==> id in st.answers) && (id in st.answers ==> r.answers[id] == st.answers[id])
  {
    Quiz(st.current, st.answers[qs[st.current].id := a])
  }

  /** `(currentAnswer as string[]) || []`: the selection of the multiple-choice question. */
  function Selected(answers: Answers, id: int): (r: seq<Value>)
    ensures id in answers && answers[id].Items? ==> r == answers[id].xs
    ensures !(id in answers && answers[id].Items?) ==> r == []
  {
    if id in answers && answers[id].Items? then answers[id].xs else []
  }

  /** `current.filter((v) => v !== value)`. */
  function Without(xs: seq<Value>, v: Value): (r: seq<Value>)
    ensures forall x :: x in r <==> x in xs && x != v
    ensures |r| <= |xs|
    decreases |xs|
  {
    if |xs| == 0 then []
    else if xs[0] == v then Without(xs[1..], v)
    else assert xs == [xs[0]] + xs[1..]; [xs[0]] + Without(xs[1..], v)
  }

  /** The selection after clicking `v`: a selected value is removed (every copy of it),
      an unselected one is appended at the end. */
  function Toggle(xs: seq<Value>, v: Value): (r: seq<Value>)
    ensures v in xs ==> v !in r && |r| < |xs|
    ensures v !in xs ==> r == xs + [v]
    ensures forall x :: x != v ==> (x in r <==> x in xs)
  {
    if v in xs then WithoutShrinks(xs, v); Without(xs, v) else xs + [v]
  }

  lemma {:induction false} WithoutShrinks(xs: seq<Value>, v: Value)
    requires v in xs
    ensures |Without(xs, v)| < |xs|
    decreases |xs|
  {
    if xs[0] != v {
      WithoutShrinks(xs[1..], v);
    }
  }

  lemma {:induction false} WithoutAbsent(xs: seq<Value>, v: Value)
    requires v !in xs
    ensures Without(xs, v) == xs
    decreases |xs|
  {
    if |xs| > 0 {
      WithoutAbsent(xs[1..], v);
      assert xs == [xs[0]] + xs[1..];
    }
  }

  /** Selecting an unselected value and clicking it again restores the selection. */
  lemma {:induction false} ToggleTwice(xs: seq<Value>, v: Value)
    requires v !in xs
    ensures Toggle(Toggle(xs, v), v) == xs
  {
    var once := xs + [v];
    assert v in once;
    WithoutAbsent(xs, v);
    WithoutAppend(xs, v);
  }

  lemma {:induction false} WithoutAppend(xs: seq<Value>, v: Value)
    ensures Without(xs + [v], v) == Without(xs, v)
    decreases |xs|
  {
    if |xs| == 0 {
      assert xs + [v] == [v];
      assert [v][1..] == [];
    } else {
      assert (xs + [v])[0] == xs[0];
      assert (xs + [v])[1..] == xs[1..] + [v];
      WithoutAppend(xs[1..], v);
    }
  }

  predicate NoDuplicates(xs: seq<Value>) {
    forall i, j :: 0 <= i < j < |xs| ==> xs[i] != xs[j]
  }

  lemma {:induction false} WithoutKeepsNoDuplicates(xs: seq<Value>, v: Value)
    requires NoDuplicates(xs)
    ensures NoDuplicates(Without(xs, v))
    decreases |xs|
  {
    if |xs| > 0 {
      var tail := xs[1..];
      assert NoDuplicates(tail) by {
        forall i, j | 0 <= i < j < |tail| ensures tail[i] != tail[j] {
          assert tail[i] == xs[i + 1] && tail[j] == xs[j + 1];
        }
      }
      WithoutKeepsNoDuplicates(tail, v);
      if xs[0] != v {
        var rest := Without(tail, v);
        assert xs[0] !in tail;
        var r := [xs[0]] + rest;
        forall i, j | 0 <= i < j < |r| ensures r[i] != r[j] {
          if i == 0 {
            assert r[j] == rest[j - 1];
            assert r[j] in tail;
          } else {
            assert r[i] == rest[i - 1] && r[j] == rest[j - 1];
          }
        }
      }
    }
  }

  /** Clicking options never selects the same value twice. */
  lemma {:induction false} ToggleKeepsNoDuplicates(xs: seq<Value>, v: Value)
    requires NoDuplicates(xs)
    ensures NoDuplicates(Toggle(xs, v))
  {
    if v in xs {
      WithoutKeepsNoDuplicates(xs, v);
    } else {
      var r := xs + [v];
      forall i, j | 0 <= i < j < |r| ensures r[i] != r[j] {
        if j == |xs| {
          assert r[i] == xs[i];
        } else {
          assert r[i] == xs[i] && r[j] == xs[j];
        }
      }
    }
  }

  /** `String(option.value)`. */
  function ValueString(v: Value): (r: string)
    ensures v.Str? ==> r == v.s
  {
    match v
    case Str(s) => s
    case Num(n) => Text.IntToString(n)
  }

  /** `handleMultiSelect(value)`: the shown question's selection gains the value when it
      lacks it and loses it otherwise; every other value and every other answer stay. */
  function HandleMultiSelect(st: Quiz, qs: seq<Question>, s: string): (r: Quiz)
    requires st.current < |qs|
    ensures r.current == st.current
    ensures var id := qs[st.current].id;
      && id in r.answers && r.answers[id].Items?
      && (Str(s) in r.answers[id].xs <==> Str(s) !in Selected(st.answers, id))
      && (forall x :: x != Str(s) ==> (x in r.answers[id].xs <==> x in Selected(st.answers, id)))
    ensures forall id :: id != qs[st.current].id ==>
              (id in r.answers <==> id in st.answers) && (id in st.answers ==> r.answers[id] == st.answers[id])
  {
    HandleAnswer(st, qs, Items(Toggle(Selected(st.answers, qs[st.current].id), Str(s))))
  }

  // ---------------------------------------------------------------------------
  // Navigation.

  /** `canProceed`: the multiple-choice question needs a non-empty selection (a stored
      string counts by its length), any other question just needs an answer. */
  predicate CanProceed(q: Question, a: Option<Answer>): (r: bool)
    ensures r ==> a.Some?
    ensures q.kind != Multi ==> (r <==> a.Some?)
    ensures q.kind == Multi && r ==> MultiScore(a.value).Adds?
    ensures q.kind == Multi && a.Some? && a.value.Items? ==> (r <==> |a.value.xs| > 0)
  {
    if q.kind == Multi then
      match a
      case Some(Items(xs)) => |xs| > 0
      case Some(Scalar(Str(s))) => |s| > 0
      case _ => false
    else
      a.Some?
  }

  /** What a click leads to: another state of the page, or the submission of the answers. */
  datatype Outcome = Shown(st: Quiz) | Submitted(answers: Answers)

  /** `handleNext`: submits on the last question, otherwise shows the next one. */
  function HandleNext(st: Quiz, qs: seq<Question>): (r: Outcome)
    requires st.current < |qs|
    ensures r.Submitted? <==> st.current == |qs| - 1
    ensures r.Submitted? ==> r.answers == st.answers
    ensures r.Shown? ==> r.st == Quiz(st.current + 1, st.answers) && r.st.current < |qs|
  {
    if st.current == |qs| - 1 then Submitted(st.answers) else Shown(Quiz(st.current + 1, st.answers))
  }

  /** `handleBack`: shows the previous question, if any. */
  function HandleBack(st: Quiz): (r: Quiz)
    ensures r.answers == st.answers
    ensures st.current > 0 ==> r.current + 1 == st.current
    ensures st.current == 0 ==> r.current == 0
  {
    if st.current > 0 then Quiz(st.current - 1, st.answers) else st
  }

  /** Going forward and then back shows the same question with the same answers. */
  lemma {:induction false} NextThenBack(st: Quiz, qs: seq<Question>)
    requires st.current < |qs| - 1
    ensures HandleNext(st, qs).Shown? && HandleBack(HandleNext(st, qs).st) == st
  {
  }

  /** A click on the page: option `j` of the shown question, the "Siguiente"/"Ver
      resultados" button (disabled while the shown question cannot proceed) or the
      "Anterior" button (disabled on the first question). */
  datatype Event = Choose(j: nat) | Next | Back

  function Press(st: Quiz, qs: seq<Question>, e: Event): (r: Outcome)
    requires st.current < |qs|
    ensures r.Submitted? ==> e == Next && st.current == |qs| - 1 && r.answers == st.answers
  {
    var q := qs[st.current];
    match e
    case Choose(j) =>
      if j >= |q.options| then Shown(st)
      else if q.kind == Multi then Shown(HandleMultiSelect(st, qs, ValueString(q.options[j].value)))
      else Shown(HandleAnswer(st, qs, Scalar(q.options[j].value)))
    case Next =>
      if CanProceed(q, CurrentAnswer(q, st.answers)) then HandleNext(st, qs) else Shown(st)
    case Back =>
      Shown(HandleBack(st))
  }

  predicate DistinctIds(qs: seq<Question>) {
    forall i, j :: 0 <= i < j < |qs| ==> qs[i].id != qs[j].id
  }

  /** What holds on every screen of the quiz: the shown question exists, every answer is
      one the page can produce, and every earlier question can proceed. */
  ghost predicate Valid(qs: seq<Question>, st: Quiz) {
    && st.current < |qs|
    && QuizAnswers(qs, st.answers)
    && forall j :: 0 <= j < st.current ==> CanProceed(qs[j], CurrentAnswer(qs[j], st.answers))
  }

  lemma {:induction false} StartValid(qs: seq<Question>)
    requires |qs| > 0
    ensures Valid(qs, Start)
  {
  }

  /** Recording a quiz answer for the shown question keeps the page valid. */
  lemma {:induction false} AnswerKeepsValid(qs: seq<Question>, st: Quiz, a: Answer)
    requires DistinctIds(qs) && Valid(qs, st)
    requires QuizAnswer(qs[st.current], a)
    ensures Valid(qs, HandleAnswer(st, qs, a))
  {
    var r := HandleAnswer(st, qs, a);
    var id := qs[st.current].id;
    forall j | 0 <= j < |qs| && qs[j].id in r.answers
      ensures QuizAnswer(qs[j], r.answers[qs[j].id])
    {
      if j != st.current {
        assert qs[j].id != id;
      }
    }
    forall j | 0 <= j < r.current
      ensures CanProceed(qs[j], CurrentAnswer(qs[j], r.answers))
    {
      assert qs[j].id != id;
      assert CurrentAnswer(qs[j], r.answers) == CurrentAnswer(qs[j], st.answers);
    }
  }

  /** Every click keeps the page valid, and a submission only happens from the last
      question once every question can proceed. */
  lemma {:induction false} PressKeepsValid(qs: seq<Question>, st: Quiz, e: Event)
    requires DistinctIds(qs) && (forall i :: 0 <= i < |qs| ==> WellShaped(qs[i]))
    requires Valid(qs, st)
    ensures Press(st, qs, e).Shown? ==> Valid(qs, Press(st, qs, e).st)
    ensures Press(st, qs, e).Submitted? ==>
              && QuizAnswers(qs, Press(st, qs, e).answers)
              && forall j :: 0 <= j < |qs| ==> CanProceed(qs[j], CurrentAnswer(qs[j], Press(st, qs, e).answers))
  {
    var q := qs[st.current];
    match e
    case Choose(j) =>
      if j < |q.options| {
        if q.kind == Multi {
          var xs := Selected(st.answers, q.id);
          var v := Str(ValueString(q.options[j].value));
          assert v == q.options[j].value;
          var t := Toggle(xs, v);
          forall x | x in t
            ensures exists k :: 0 <= k < |q.options| && q.options[k].value == x
          {
            if x != v {
              assert x in xs;
              assert q.id in st.answers && st.answers[q.id].Items?;
              assert QuizAnswer(q, st.answers[q.id]);
            }
          }
          AnswerKeepsValid(qs, st, Items(t));
        } else {
          AnswerKeepsValid(qs, st, Scalar(q.options[j].value));
        }
      }
    case Next =>
    case Back =>
  }

  /** Answers submitted from the quiz page always score: the profile exists, every
      category that has a question is listed, and every score lies in 20..100. */
  lemma {:induction false} SubmittedAnswersScore(qs: seq<Question>, answers: Answers)
    requires forall i :: 0 <= i < |qs| ==> WellShaped(qs[i])
    requires QuizAnswers(qs, answers)
    requires forall j :: 0 <= j < |qs| ==> CanProceed(qs[j], CurrentAnswer(qs[j], answers))
    ensures CalculateProfile(qs, answers).Success?
    ensures forall j :: 0 <= j < |qs| ==> Listed(CalculateProfile(qs, answers).value.scores, qs[j].category)
    ensures forall e :: e in CalculateProfile(qs, answers).value.scores ==> 20 <= e.score <= 100
  {
    QuizAnswersScore(qs, answers);
    ScoreSpec(qs, answers);
    forall j | 0 <= j < |qs|
      ensures FirstOpening(qs, answers, qs[j].category) < |qs|
    {
      assert Opens(qs[j], answers, qs[j].category);
    }
  }
}
