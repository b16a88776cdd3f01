/** The results page: the headline fields of its profile, the list of main factors,
    the first habit it suggests, and the text and style lookups it renders. */
module ResultsPage {
  import opened Wrappers
  import Tables
  import opened Questions
  import opened Ranking
  import opened Scoring

  // ---------------------------------------------------------------------------
  // Lookup tables keyed by category.

  /** `getDominantMechanism`'s table. */
  const Mechanisms: seq<(string, string)> := [
    (Deficit, "Inconsistencia energética"),
    (Satiety, "Señales de saciedad alteradas"),
    (Processed, "Sobreestimulación alimentaria"),
    (Neat, "Metabolismo reducido"),
    (Strength, "Pérdida muscular"),
    (Sleep, "Desregulación hormonal"),
    (Stress, "Alimentación emocional"),
    (Liquid, "Calorías invisibles"),
    (Adherence, "Patrón yo-yo"),
    (Medical, "Factores fisiológicos")
  ]

  const DefaultMechanism := "Múltiples factores"

  /** `getFactorDescription`'s table. */
  const Descriptions: seq<(string, string)> := [
    (Deficit,
     "Tu ingesta calórica no es consistente, lo que dificulta crear un déficit sostenible."),
    (Satiety,
     "No estás comiendo suficiente proteína o fibra para sentirte saciado/a."),
    (Processed,
     "El consumo de ultraprocesados y el picoteo afectan tu balance energético."),
    (Neat,
     "Tu nivel de movimiento diario es bajo, reduciendo tu gasto calórico total."),
    (Strength,
     "La falta de entrenamiento de fuerza puede estar afectando tu metabolismo."),
    (Sleep,
     "La calidad o cantidad de sueño está impactando tus hormonas del hambre."),
    (Stress,
     "El estrés está influyendo en tus decisiones alimentarias."),
    (Liquid,
     "Las bebidas calóricas aportan energía sin saciedad."),
    (Adherence,
     "Tienes dificultad para mantener los cambios a largo plazo."),
    (Medical,
     "Hay factores médicos que podrían estar influyendo.")
  ]

  const DefaultDescription := "Este factor necesita atención."

  /** A suggested first habit. */
  datatype Habit = Habit(title: string, description: string)

  /** `getFirstHabit`'s table. */
  const Habits: seq<(string, Habit)> := [
    (Deficit, Habit("Planifica tu comida principal del día",
      "Cada mañana, decide qué vas a comer en tu comida principal. Solo eso. No toda la semana, solo hoy.")),
    (Satiety, Habit("Añade proteína a tu desayuno",
      "Incluye al menos una fuente de proteína en tu primera comida del día: huevos, yogur griego, jamón, etc.")),
    (Processed, Habit("Identifica tu snack problemático",
      "Anota cuál es el ultraprocesado que más consumes y busca una alternativa más saciante.")),
    (Neat, Habit("Caminata de 10 minutos después de comer",
      "Añade un paseo corto después de tu comida principal. No es ejercicio, es movimiento.")),
    (Strength, Habit("5 sentadillas al levantarte",
      "Antes de desayunar, haz 5 sentadillas. Es mínimo, pero crea el hábito.")),
    (Sleep, Habit("Alarma para ir a dormir",
      "Pon una alarma 30 minutos antes de tu hora ideal de acostarte como recordatorio.")),
    (Stress, Habit("3 respiraciones profundas antes de comer",
      "Antes de cada comida, haz 3 respiraciones profundas para activar el sistema parasimpático.")),
    (Liquid, Habit("Un vaso de agua antes de cada bebida calórica",
      "Antes de tomar cualquier bebida con calorías, bebe un vaso de agua completo.")),
    (Adherence, Habit("Compromiso mínimo de 2 semanas",
      "Elige UN solo hábito y comprométete a hacerlo solo 14 días. Nada más.")),
    (Medical, Habit("Agenda una cita con tu médico",
      "Si no lo has hecho, agenda una revisión para descartar factores médicos."))
  ]

  /** A table that lists the ten categories in catalog order, once each, with pairwise
      different texts. */
  ghost predicate FollowsCategoryOrder<V>(table: seq<(string, V)>) {
    && |table| == |Categories|
    && (forall k :: 0 <= k < |Categories| ==> table[k].0 == Categories[k].key)
    && Tables.DistinctKeys(table)
    && Tables.DistinctValues(table)
  }

  lemma {:induction false} MechanismsTable()
    ensures FollowsCategoryOrder(Mechanisms)
    ensures forall k :: 0 <= k < |Mechanisms| ==> Mechanisms[k].1 != "" && Mechanisms[k].1 != DefaultMechanism
  {
    CategoryKeysDistinct();
    MechanismTexts();
  }

  /** The mechanisms are pairwise different, and none is empty or the generic one. */
  lemma {:induction false} MechanismTexts()
    ensures Tables.DistinctValues(Mechanisms)
    ensures forall k :: 0 <= k < |Mechanisms| ==> Mechanisms[k].1 != "" && Mechanisms[k].1 != DefaultMechanism
  {
  }

  lemma {:induction false} DescriptionsTable()
    ensures FollowsCategoryOrder(Descriptions)
    ensures forall k :: 0 <= k < |Descriptions| ==> Descriptions[k].1 != "" && Descriptions[k].1 != DefaultDescription
  {
    CategoryKeysDistinct();
    DescriptionTexts();
  }

  /** The descriptions are pairwise different, and none is empty or the generic one. */
  lemma {:induction false} DescriptionTexts()
    ensures Tables.DistinctValues(Descriptions)
    ensures forall k :: 0 <= k < |Descriptions| ==> Descriptions[k].1 != "" && Descriptions[k].1 != DefaultDescription
  {
  }

  lemma {:induction false} HabitsTable()
    ensures FollowsCategoryOrder(Habits)
  {
    CategoryKeysDistinct();
    HabitsDistinct();
  }

  lemma {:induction false} HabitsDistinct()
    ensures Tables.DistinctValues(Habits)
  {
    HabitTitlesDistinct();
  }

  /** No two habits share a title. */
  lemma {:induction false} HabitTitlesDistinct()
    ensures forall a, b :: 0 <= a < b < |Habits| ==> Habits[a].1.title != Habits[b].1.title
  {
  }

  /** A key has an entry in a table that follows the categories exactly when it is a
      category key. */
  lemma {:induction false} FollowsCategories<V>(table: seq<(string, V)>, key: string)
    requires |table| == |Categories|
    requires forall k :: 0 <= k < |Categories| ==> table[k].0 == Categories[k].key
    ensures Tables.Lookup(table, key).Some? <==> key in CategoryKeys()
  {
    if key in CategoryKeys() {
      var k :| 0 <= k < |Categories| && CategoryKeys()[k] == key;
      assert table[k].0 == key;
    }
    if Tables.Lookup(table, key).Some? {
      var k :| 0 <= k < |table| && table[k].0 == key;
      assert CategoryKeys()[k] == key;
    }
  }

  /** `getDominantMechanism(category)`: `mechanisms[category || ""]`, or "Múltiples
      factores" when that is missing or empty. */
  function DominantMechanism(category: Option<string>): (r: string)
    ensures r != ""
    ensures r == DefaultMechanism || (category.Some? && exists k :: 0 <= k < |Mechanisms| && Mechanisms[k] == (category.value, r))
  {
    match Tables.Lookup(Mechanisms, category.GetOr(""))
    case Some(m) => if m != "" then m else DefaultMechanism
    case None => DefaultMechanism
  }

  /** Every category has its own mechanism; anything else, including no category at all,
      gets the generic one. */
  lemma {:induction false} MechanismSpec(category: Option<string>)
    ensures DominantMechanism(category) == DefaultMechanism <==> !(category.Some? && category.value in CategoryKeys())
    ensures forall k :: 0 <= k < |Categories| ==> DominantMechanism(Some(Categories[k].key)) == Mechanisms[k].1
    ensures forall a, b :: 0 <= a < b < |Categories| ==>
              DominantMechanism(Some(Categories[a].key)) != DominantMechanism(Some(Categories[b].key))
  {
    MechanismsTable();
    FollowsCategories(Mechanisms, category.GetOr(""));
    forall k | 0 <= k < |Categories|
      ensures DominantMechanism(Some(Categories[k].key)) == Mechanisms[k].1
    {
      Tables.LookupAt(Mechanisms, k);
    }
    if category.Some? && category.value in CategoryKeys() {
      var m := Tables.Lookup(Mechanisms, category.value).value;
      var i :| 0 <= i < |Mechanisms| && Mechanisms[i] == (category.value, m);
    }
    assert "" !in CategoryKeys() by {
      CategoryKeysAreNotIndices();
    }
  }

  /** `getFactorDescription(category)`. */
  function FactorDescription(category: string): (r: string)
    ensures r != ""
    ensures r == DefaultDescription || exists k :: 0 <= k < |Descriptions| && Descriptions[k] == (category, r)
  {
    match Tables.Lookup(Descriptions, category)
    case Some(d) => if d != "" then d else DefaultDescription
    case None => DefaultDescription
  }

  /** Every category has its own description; any other key gets the generic one. */
  lemma {:induction false} FactorDescriptionSpec(category: string)
    ensures FactorDescription(category) == DefaultDescription <==> category !in CategoryKeys()
    ensures forall k :: 0 <= k < |Categories| ==> FactorDescription(Categories[k].key) == Descriptions[k].1
    ensures forall a, b :: 0 <= a < b < |Categories| ==>
              FactorDescription(Categories[a].key) != FactorDescription(Categories[b].key)
  {
    DescriptionsTable();
    FollowsCategories(Descriptions, category);
    forall k | 0 <= k < |Categories|
      ensures FactorDescription(Categories[k].key) == Descriptions[k].1
    {
      Tables.LookupAt(Descriptions, k);
    }
    if category in CategoryKeys() {
      var d := Tables.Lookup(Descriptions, category).value;
      var i :| 0 <= i < |Descriptions| && Descriptions[i] == (category, d);
    }
  }

  /** `getFirstHabit(category)`: `habits[category || "deficit_calorico"]`, falling back to
      the calorie-deficit habit. */
  function FirstHabit(category: Option<string>): (r: Habit)
    ensures exists k :: 0 <= k < |Habits| && Habits[k].1 == r
    ensures category.None? || category.value == "" ==> r == Habits[0].1
  {
    var key := if category.Some? && category.value != "" then category.value else Deficit;
    match Tables.Lookup(Habits, key)
    case Some(h) => h
    case None => Habits[0].1
  }

  /** Every category has its own first habit; no category, the empty one or an unknown one
      gets the calorie-deficit habit. */
  lemma {:induction false} FirstHabitSpec(category: Option<string>)
    ensures !(category.Some? && category.value in CategoryKeys()) ==> FirstHabit(category) == FirstHabit(Some(Deficit))
    ensures forall k :: 0 <= k < |Categories| ==> FirstHabit(Some(Categories[k].key)) == Habits[k].1
    ensures forall a, b :: 0 <= a < b < |Categories| ==>
              FirstHabit(Some(Categories[a].key)) != FirstHabit(Some(Categories[b].key))
  {
    HabitsTable();
    CategoryKeysAreNotIndices();
    forall k | 0 <= k < |Categories|
      ensures FirstHabit(Some(Categories[k].key)) == Habits[k].1
    {
      Tables.LookupAt(Habits, k);
    }
    if category.Some? && category.value != "" {
      FollowsCategories(Habits, category.value);
    }
  }

  // ---------------------------------------------------------------------------
  // Styles by level.

  /** The `switch (level)` every style helper makes: "alto", "medio", anything else. */
  function ByLevel<T>(level: string, alto: T, medio: T, otherwise: T): T {
    if level == "alto" then alto else if level == "medio" then medio else otherwise
  }

  /** The colour of a level: red for "alto", amber for "medio", green for anything else. */
  function RiskColor(level: string): (r: string)
    ensures r == "bg-destructive" <==> level == "alto"
    ensures r == "bg-warning" <==> level == "medio"
    ensures r == "bg-success" <==> level != "alto" && level != "medio"
  {
    ByLevel(level, "bg-destructive", "bg-warning", "bg-success")
  }

  function RiskBgColor(level: string): (r: string)
    ensures r == "bg-destructive/10" <==> level == "alto"
    ensures r == "bg-warning/10" <==> level == "medio"
    ensures r == "bg-success/10" <==> level != "alto" && level != "medio"
  {
    ByLevel(level, "bg-destructive/10", "bg-warning/10", "bg-success/10")
  }

  function RiskIconColor(level: string): (r: string)
    ensures r == "text-destructive" <==> level == "alto"
    ensures r == "text-warning" <==> level == "medio"
    ensures r == "text-success" <==> level != "alto" && level != "medio"
  {
    ByLevel(level, "text-destructive", "text-warning", "text-success")
  }

  const HighDescription: string :=
    "Hay varios factores significativos que están frenando tu progreso. Un plan estructurado puede ayudarte."
  const MediumDescription: string :=
    "Tienes algunos obstáculos identificables. Con los cambios correctos, puedes ver resultados."
  const LowDescription: string :=
    "Tus hábitos base son buenos. Pequeños ajustes pueden marcar la diferencia."

  function RiskDescription(level: string): (r: string)
    ensures r == HighDescription <==> level == "alto"
    ensures r == MediumDescription <==> level == "medio"
    ensures r == LowDescription <==> level != "alto" && level != "medio"
  {
    ByLevel(level, HighDescription, MediumDescription, LowDescription)
  }

  const HighBadge: string := "bg-destructive/10 text-destructive"
  const MediumBadge: string := "bg-warning/10 text-warning-foreground"
  const LowBadge: string := "bg-success/10 text-success"

  function LevelBadge(level: string): (r: string)
    ensures r == HighBadge <==> level == "alto"
    ensures r == MediumBadge <==> level == "medio"
    ensures r == LowBadge <==> level != "alto" && level != "medio"
  {
    ByLevel(level, HighBadge, MediumBadge, LowBadge)
  }

  /** A switch with three different branches tells the three levels apart, and styles
      any other string like "bajo". */
  lemma {:induction false} ByLevelSeparates<T>(alto: T, medio: T, otherwise: T, s: string)
    requires alto != medio && alto != otherwise && medio != otherwise
    ensures forall a: Level, b: Level :: a != b ==>
              ByLevel(LevelName(a), alto, medio, otherwise) != ByLevel(LevelName(b), alto, medio, otherwise)
    ensures s != "alto" && s != "medio" ==> ByLevel(s, alto, medio, otherwise) == ByLevel("bajo", alto, medio, otherwise)
  {
    assert "alto" != "medio" && "alto" != "bajo" && "medio" != "bajo";
  }

  /** The three levels are styled and described differently from one another, and any
      other string is styled like "bajo". */
  lemma {:induction false} StylesSeparateLevels(s: string)
    ensures forall a: Level, b: Level :: a != b ==>
              && RiskColor(LevelName(a)) != RiskColor(LevelName(b))
              && RiskBgColor(LevelName(a)) != RiskBgColor(LevelName(b))
              && RiskIconColor(LevelName(a)) != RiskIconColor(LevelName(b))
              && RiskDescription(LevelName(a)) != RiskDescription(LevelName(b))
              && LevelBadge(LevelName(a)) != LevelBadge(LevelName(b))
    ensures s != "alto" && s != "medio" ==>
              && RiskColor(s) == RiskColor("bajo") && RiskBgColor(s) == RiskBgColor("bajo")
              && RiskIconColor(s) == RiskIconColor("bajo") && RiskDescription(s) == RiskDescription("bajo")
              && LevelBadge(s) == LevelBadge("bajo")
  {
    ColorsSeparateLevels(s);
    TextsSeparateLevels(s);
  }

  lemma {:induction false} ColorsSeparateLevels(s: string)
    ensures forall a: Level, b: Level :: a != b ==>
              && RiskColor(LevelName(a)) != RiskColor(LevelName(b))
              && RiskBgColor(LevelName(a)) != RiskBgColor(LevelName(b))
              && RiskIconColor(LevelName(a)) != RiskIconColor(LevelName(b))
    ensures s != "alto" && s != "medio" ==>
              && RiskColor(s) == RiskColor("bajo") && RiskBgColor(s) == RiskBgColor("bajo")
              && RiskIconColor(s) == RiskIconColor("bajo")
  {
    ByLevelSeparates("bg-destructive", "bg-warning", "bg-success", s);
    ByLevelSeparates("bg-destructive/10", "bg-warning/10", "bg-success/10", s);
    ByLevelSeparates("text-destructive", "text-warning", "text-success", s);
  }

  lemma {:induction false} TextsSeparateLevels(s: string)
    ensures forall a: Level, b: Level :: a != b ==>
              && RiskDescription(LevelName(a)) != RiskDescription(LevelName(b))
              && LevelBadge(LevelName(a)) != LevelBadge(LevelName(b))
    ensures s != "alto" && s != "medio" ==>
              RiskDescription(s) == RiskDescription("bajo") && LevelBadge(s) == LevelBadge("bajo")
  {
    ByLevelSeparates(HighDescription, MediumDescription, LowDescription, s);
    ByLevelSeparates(HighBadge, MediumBadge, LowBadge, s);
  }

  // ---------------------------------------------------------------------------
  // The results page's profile.

  /** The results page's `Profile`. */
  datatype ResultsProfile = ResultsProfile(
    scores: seq<CategoryScore>, mainTrait: string, rootFactor: string, dominantMechanism: string, risk: Level)

  /** The shared engine followed by the headline fields, all taken from the best-scoring
      category (`sortedScores[0]`) with a fallback when there is none or it is empty. */
  function CalculateResults(qs: seq<Question>, answers: Answers): (r: Result<ResultsProfile, EngineError>)
    ensures r.Success? <==> Score(qs, answers).Success?
    ensures r.Failure? ==> r.error == Score(qs, answers).error
    ensures r.Success? ==>
      && r.value.scores == Score(qs, answers).value.scores
      && SortedDesc(r.value.scores)
      && r.value.risk == RiskOf(r.value.scores)
      && r.value.mainTrait != "" && r.value.rootFactor != "" && r.value.dominantMechanism != ""
  {
    var p :- Score(qs, answers);
    var top := if |p.scores| > 0 then Some(p.scores[0]) else None;
    Success(ResultsProfile(
      p.scores,
      if top.Some? && top.value.name != "" then top.value.name else "No identificado",
      if top.Some? && top.value.category != "" then top.value.category else "unknown",
      DominantMechanism(if top.Some? then Some(top.value.category) else None),
      p.risk))
  }

  /** The headline names the best-scoring category, the earliest answered one among those
      tied for best. */
  lemma {:induction false} HeadlineIsTop(qs: seq<Question>, answers: Answers)
    requires CalculateResults(qs, answers).Success?
    requires |CalculateResults(qs, answers).value.scores| > 0
    ensures var p := CalculateResults(qs, answers).value;
      var top := p.scores[0];
      && p.scores == Score(qs, answers).value.scores
      && (forall e :: e in p.scores ==> e.score <= top.score)
      && (forall e :: e in p.scores && e != top && e.score == top.score ==>
            FirstOpening(qs, answers, top.category) < FirstOpening(qs, answers, e.category))
      && p.rootFactor == (if top.category != "" then top.category else "unknown")
      && p.mainTrait == (if top.name != "" then top.name else "No identificado")
      && p.dominantMechanism == DominantMechanism(Some(top.category))
  {
    ScoreSpec(qs, answers);
    var scores := Score(qs, answers).value.scores;
    forall e | e in scores && e != scores[0] && e.score == scores[0].score
      ensures FirstOpening(qs, answers, scores[0].category) < FirstOpening(qs, answers, e.category)
    {
      var k :| 0 <= k < |scores| && scores[k] == e;
      assert FirstSeen(qs, answers)(scores[0]) < FirstSeen(qs, answers)(scores[k]);
    }
  }

  /** On the catalog the headline is the best category's own key, name and mechanism. */
  lemma {:induction false} CatalogHeadline(answers: Answers)
    requires CalculateResults(Catalog, answers).Success?
    requires |CalculateResults(Catalog, answers).value.scores| > 0
    ensures var p := CalculateResults(Catalog, answers).value;
      exists k :: 0 <= k < |Categories|
        && p.rootFactor == Categories[k].key
        && p.mainTrait == Categories[k].name
        && p.dominantMechanism == Mechanisms[k].1
  {
    HeadlineIsTop(Catalog, answers);
    var top := Score(Catalog, answers).value.scores[0];
    CategoriesCovered();
    var k := TopIsCategory(Catalog, answers);
    CategoryNamesFilled();
    assert Categories[k].key != "" by {
      CategoryKeysAreNotIndices();
    }
    MechanismSpec(Some(top.category));
  }

  /** When every question belongs to a category, the best entry is a category's own, under
      its own name. */
  lemma {:induction false} TopIsCategory(qs: seq<Question>, answers: Answers) returns (k: nat)
    requires Score(qs, answers).Success? && |Score(qs, answers).value.scores| > 0
    requires forall i :: 0 <= i < |qs| ==> qs[i].category in CategoryKeys()
    ensures var top := Score(qs, answers).value.scores[0];
      k < |Categories| && top.category == Categories[k].key && top.name == Categories[k].name
  {
    var scores := Score(qs, answers).value.scores;
    var top := scores[0];
    assert top.category in CategoryKeys() by {
      ScoreListed(qs, answers, top.category);
      assert Listed(scores, top.category);
      var f := FirstOpening(qs, answers, top.category);
      assert qs[f].category == top.category;
    }
    assert top.name == DisplayName(top.category) by {
      ScoreEntries(qs, answers);
      assert EntryFor(qs, answers, top);
    }
    k :| 0 <= k < |Categories| && CategoryKeys()[k] == top.category;
    DisplayNames(top.category);
  }

  /** With no answers the page shows its fallbacks. */
  lemma {:induction false} NoAnswersHeadline(qs: seq<Question>)
    ensures CalculateResults(qs, map[]) == Success(ResultsProfile([], "No identificado", "unknown", DefaultMechanism, Bajo))
  {
    NoAnswers(qs);
    MechanismSpec(None);
  }

  // ---------------------------------------------------------------------------
  // The main factors the page lists.

  /** `topFactors`: the entries not at level "bajo", sorted by score, first three. */
  function TopFactors(scores: seq<CategoryScore>): (r: seq<CategoryScore>)
    ensures |r| <= 3 && |r| <= |scores|
    ensures SortedDesc(r)
    ensures forall i :: 0 <= i < |r| ==> r[i].level != Bajo
  {
    SortedNotLow(NotLow(scores));
    Take(SortDesc(NotLow(scores)), 3)
  }

  /** Sorting a list of entries above "bajo" keeps them above "bajo". */
  lemma {:induction false} SortedNotLow(nl: seq<CategoryScore>)
    requires forall i :: 0 <= i < |nl| ==> nl[i].level != Bajo
    ensures forall i :: 0 <= i < |SortDesc(nl)| ==> SortDesc(nl)[i].level != Bajo
  {
    var s := SortDesc(nl);
    forall i | 0 <= i < |s|
      ensures s[i].level != Bajo
    {
      assert s[i] in multiset(nl);
      var j :| 0 <= j < |nl| && nl[j] == s[i];
    }
  }

  lemma {:induction false} TopFactorsMembers(scores: seq<CategoryScore>)
    ensures forall x :: x in TopFactors(scores) ==> x in scores && x.level != Bajo
  {
    var nl := NotLow(scores);
    var s := SortDesc(nl);
    NotLowIsSubsequence(scores);
    forall x | x in TopFactors(scores)
      ensures x in scores && x.level != Bajo
    {
      assert x in s;
      assert x in multiset(nl);
      Text.SubsequenceMembers(nl, scores, x);
    }
  }

  lemma {:induction false} TopFactorsBest(scores: seq<CategoryScore>)
    ensures forall e :: e in scores && e.level != Bajo && e !in TopFactors(scores) ==>
              |TopFactors(scores)| == 3 && forall x :: x in TopFactors(scores) ==> x.score >= e.score
  {
    var s := SortDesc(NotLow(scores));
    var r := TopFactors(scores);
    TakeTop(s, 3);
    assert forall i :: 0 <= i < |r| ==> s[i] in r;
    forall e | e in scores && e.level != Bajo && e !in r
      ensures |r| == 3 && forall x :: x in r ==> x.score >= e.score
    {
      assert e in multiset(s);
      var k :| 0 <= k < |s| && s[k] == e;
      assert e in s;
    }
  }

  /** At most three entries of the profile, none at level "bajo", best first, and no
      entry above "bajo" left out scores more than one kept. */
  lemma {:induction false} TopFactorsSpec(scores: seq<CategoryScore>)
    ensures |TopFactors(scores)| <= 3
    ensures forall x :: x in TopFactors(scores) ==> x in scores && x.level != Bajo
    ensures SortedDesc(TopFactors(scores))
    ensures forall e :: e in scores && e.level != Bajo && e !in TopFactors(scores) ==>
              |TopFactors(scores)| == 3 && forall x :: x in TopFactors(scores) ==> x.score >= e.score
  {
    TakeTop(SortDesc(NotLow(scores)), 3);
    TopFactorsMembers(scores);
    TopFactorsBest(scores);
  }

  /** In a descending profile whose levels follow the scores, the entries above "bajo"
      come first. */
  lemma {:induction false} NotLowPrefix(es: seq<CategoryScore>)
    requires SortedDesc(es)
    requires forall i :: 0 <= i < |es| ==> es[i].level == LevelOf(es[i].score)
    ensures NotLow(es) == es[..|NotLow(es)|]
    ensures forall i :: |NotLow(es)| <= i < |es| ==> es[i].level == Bajo
    decreases |es|
  {
    if |es| > 0 {
      if es[0].level == Bajo {
        AllLow(es);
      } else {
        var tail := es[1..];
        assert SortedDesc(tail) && forall i :: 0 <= i < |tail| ==> tail[i].level == LevelOf(tail[i].score) by {
          SortedTail(es);
          assert forall i :: 0 <= i < |tail| ==> tail[i] == es[i + 1];
        }
        NotLowPrefix(tail);
        NotLowPrefixStep(es, NotLow(tail));
      }
    }
  }

  lemma {:induction false} NotLowPrefixStep(es: seq<CategoryScore>, rest: seq<CategoryScore>)
    requires |es| > 0 && es[0].level != Bajo
    requires rest == NotLow(es[1..]) && rest == es[1..][..|rest|]
    requires forall i :: |rest| <= i < |es[1..]| ==> es[1..][i].level == Bajo
    ensures NotLow(es) == es[..|NotLow(es)|]
    ensures forall i :: |NotLow(es)| <= i < |es| ==> es[i].level == Bajo
  {
    assert NotLow(es) == [es[0]] + rest;
    assert es[..1 + |rest|] == [es[0]] + es[1..][..|rest|];
    forall i | 1 + |rest| <= i < |es|
      ensures es[i].level == Bajo
    {
      assert es[i] == es[1..][i - 1];
    }
  }

  lemma {:induction false} AllLow(es: seq<CategoryScore>)
    requires SortedDesc(es) && |es| > 0 && es[0].level == Bajo
    requires forall i :: 0 <= i < |es| ==> es[i].level == LevelOf(es[i].score)
    ensures NotLow(es) == []
    ensures forall i :: 0 <= i < |es| ==> es[i].level == Bajo
    decreases |es|
  {
    if |es| > 1 {
      SortedTail(es);
      assert es[1..][0] == es[1];
      AllLow(es[1..]);
    }
  }

  /** On a descending profile whose levels follow the scores, the re-sort changes nothing
      and the page's main factors are the first three entries with the "bajo" ones, all at
      the end, dropped. */
  lemma {:induction false} TopFactorsOfSorted(scores: seq<CategoryScore>)
    requires SortedDesc(scores)
    requires forall i :: 0 <= i < |scores| ==> scores[i].level == LevelOf(scores[i].score)
    ensures TopFactors(scores) == Take(scores, |TopFactors(scores)|)
    ensures forall i :: |TopFactors(scores)| <= i < |Take(scores, 3)| ==> scores[i].level == Bajo
  {
    NotLowIsSubsequence(scores);
    SubsequenceKeepsSorted(NotLow(scores), scores);
    SortSortedIsIdentity(NotLow(scores));
    NotLowPrefix(scores);
  }

  /** On the engine's profile the page's main factors are the quiz page's `mainFactors`
      with the "bajo" entries, all at the end, dropped. */
  lemma {:induction false} TopFactorsOfProfile(qs: seq<Question>, answers: Answers)
    requires Score(qs, answers).Success?
    ensures var scores := Score(qs, answers).value.scores;
      var top := TopFactors(scores);
      && top == Take(scores, |top|)
      && forall i :: |top| <= i < |Take(scores, 3)| ==> scores[i].level == Bajo
  {
    ScoreStages(qs, answers);
    ScoreEntries(qs, answers);
    var scores := Score(qs, answers).value.scores;
    forall i | 0 <= i < |scores|
      ensures scores[i].level == LevelOf(scores[i].score)
    {
      assert EntryFor(qs, answers, scores[i]);
    }
    TopFactorsOfSorted(scores);
  }
}
