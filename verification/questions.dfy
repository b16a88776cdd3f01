/** The static questionnaire of the diagnostic quiz: 30 questions in 10 categories,
    each answered on a 1..5 scale, except question 29 (a multiple choice). */
module Questions {
  import opened Wrappers

  /** An option value or a scalar answer: JavaScript `string | number`. */
  datatype Value = Num(n: int) | Str(s: string)

  /** One answer option; `score` is absent on the options of the multiple-choice question. */
  datatype QOption = QOption(value: Value, score: Option<int>)

  datatype QuestionType = Likert | Single | Multi | Numeric

  datatype Question = Question(id: int, category: string, kind: QuestionType, options: seq<QOption>)

  datatype CategoryInfo = CategoryInfo(key: string, name: string, description: string)

  /** The option whose value and score are both `k`. */
  function Scored(k: int): QOption {
    QOption(Num(k), Some(k))
  }

  /** Options listed 1, 2, 3, 4, 5. */
  const Ascending: seq<QOption> := [Scored(1), Scored(2), Scored(3), Scored(4), Scored(5)]

  /** Options listed 5, 4, 3, 2, 1 (the favourable answer scores 1). */
  const Descending: seq<QOption> := [Scored(5), Scored(4), Scored(3), Scored(2), Scored(1)]

  /** `likertOptions`: "Muy en desacuerdo" .. "Muy de acuerdo". */
  const LikertOptions: seq<QOption> := Ascending

  /** `frequencyOptions`: "Nunca" .. "Siempre". */
  const FrequencyOptions: seq<QOption> := Ascending

  /** The sentinel option of the multiple-choice question. */
  const None_: string := "ninguna"

  const MedicalOptions: seq<QOption> := [
    QOption(Str(None_), None),
    QOption(Str("tiroides"), None),
    QOption(Str("diabetes"), None),
    QOption(Str("sop"), None),
    QOption(Str("menopausia"), None),
    QOption(Str("medicacion"), None),
    QOption(Str("otra"), None)
  ]

  const Deficit := "deficit_calorico"
  const Satiety := "saciedad_proteina"
  const Processed := "ultraprocesados"
  const Neat := "neat_sedentarismo"
  const Strength := "entrenamiento_fuerza"
  const Sleep := "sueno"
  const Stress := "estres"
  const Liquid := "alcohol_liquidas"
  const Adherence := "adherencia"
  const Medical := "factores_medicos"

  /** `questions`, in catalog order. */
  const Catalog: seq<Question> := [
    Question(1, Deficit, Likert, FrequencyOptions),
    Question(2, Deficit, Likert, FrequencyOptions),
    Question(3, Deficit, Single, Ascending),
    Question(4, Deficit, Single, Descending),
    Question(5, Satiety, Likert, Descending),
    Question(6, Satiety, Likert, FrequencyOptions),
    Question(7, Satiety, Single, Descending),
    Question(8, Processed, Likert, FrequencyOptions),
    Question(9, Processed, Likert, FrequencyOptions),
    Question(10, Processed, Likert, LikertOptions),
    Question(11, Processed, Likert, FrequencyOptions),
    Question(12, Neat, Single, Ascending),
    Question(13, Neat, Single, Descending),
    Question(14, Neat, Likert, Descending),
    Question(15, Neat, Likert, Descending),
    Question(16, Strength, Single, Descending),
    Question(17, Strength, Likert, LikertOptions),
    Question(18, Strength, Likert, LikertOptions),
    Question(19, Sleep, Single, Descending),
    Question(20, Sleep, Likert, FrequencyOptions),
    Question(21, Sleep, Likert, FrequencyOptions),
    Question(22, Stress, Single, Ascending),
    Question(23, Stress, Likert, FrequencyOptions),
    Question(24, Stress, Single, Descending),
    Question(25, Liquid, Single, Ascending),
    Question(26, Liquid, Likert, FrequencyOptions),
    Question(27, Adherence, Single, Ascending),
    Question(28, Adherence, Likert, LikertOptions),
    Question(29, Medical, Multi, MedicalOptions),
    Question(30, Medical, Single, Ascending)
  ]

  /** `categories`, in declaration order. */
  const Categories: seq<CategoryInfo> := [
    CategoryInfo(Deficit, "Déficit Calórico Inconsistente", "Control de porciones y consistencia alimentaria"),
    CategoryInfo(Satiety, "Saciedad y Proteína", "Sensación de saciedad y consumo proteico"),
    CategoryInfo(Processed, "Ultraprocesados y Picoteo", "Consumo de alimentos procesados y hábitos de picoteo"),
    CategoryInfo(Neat, "NEAT y Sedentarismo", "Movimiento diario y actividad no planificada"),
    CategoryInfo(Strength, "Entrenamiento de Fuerza", "Ejercicio de resistencia y masa muscular"),
    CategoryInfo(Sleep, "Sueño y Ritmo Circadiano", "Calidad y cantidad de sueño"),
    CategoryInfo(Stress, "Estrés Percibido", "Niveles de estrés y gestión emocional"),
    CategoryInfo(Liquid, "Alcohol y Calorías Líquidas", "Consumo de bebidas calóricas"),
    CategoryInfo(Adherence, "Adherencia Conductual", "Historial de dietas y mantenimiento de hábitos"),
    CategoryInfo(Medical, "Factores Médicos", "Condiciones de salud relevantes")
  ]

  function CategoryKeys(): (r: seq<string>)
    ensures |r| == |Categories|
  {
    seq(|Categories|, i requires 0 <= i < |Categories| => Categories[i].key)
  }

  /** `categories[key]?.name`: the display name of a known category key. */
  function CategoryName(key: string): (r: Option<string>)
    ensures r.Some? <==> key in CategoryKeys()
    ensures r.Some? ==> exists i :: 0 <= i < |Categories| && Categories[i].key == key && Categories[i].name == r.value
  {
    assert key in CategoryKeys() <==> exists i :: 0 <= i < |Categories| && Categories[i].key == key by {
      if key in CategoryKeys() {
        var i :| 0 <= i < |Categories| && CategoryKeys()[i] == key;
      }
      forall i | 0 <= i < |Categories| && Categories[i].key == key
        ensures key in CategoryKeys()
      {
        assert CategoryKeys()[i] == key;
      }
    }
    NameIn(Categories, key)
  }

  function NameIn(infos: seq<CategoryInfo>, key: string): (r: Option<string>)
    ensures r.Some? <==> exists i :: 0 <= i < |infos| && infos[i].key == key
    ensures r.Some? ==> exists i :: 0 <= i < |infos| && infos[i].key == key && infos[i].name == r.value
    decreases |infos|
  {
    if |infos| == 0 then None
    else if infos[0].key == key then Some(infos[0].name)
    else
      var r := NameIn(infos[1..], key);
      assert forall i :: 1 <= i < |infos| ==> infos[1..][i - 1] == infos[i];
      r
  }

  // ---------------------------------------------------------------------------
  // Well-formedness of the catalog.

  /** There are exactly 30 questions, numbered 1..30 in order, so ids are unique. */
  lemma {:induction false} CatalogIds()
    ensures |Catalog| == 30
    ensures forall i :: 0 <= i < |Catalog| ==> Catalog[i].id == i + 1
    ensures forall i, j :: 0 <= i < j < |Catalog| ==> Catalog[i].id != Catalog[j].id
  {
  }

  /** Every option carries a score in [1,5] equal to its numeric value. */
  predicate OnScale(opts: seq<QOption>) {
    forall j :: 0 <= j < |opts| ==> opts[j].score.Some? && 1 <= opts[j].score.value <= 5 && opts[j].value == Num(opts[j].score.value)
  }

  /** Option values are pairwise distinct, so a lookup by value matches at most one option. */
  predicate DistinctValues(opts: seq<QOption>) {
    forall j, k :: 0 <= j < k < |opts| ==> opts[j].value != opts[k].value
  }

  /** `likertOptions` and `frequencyOptions` have values 1..5 ascending, each scoring its value. */
  lemma {:induction false} ScaleOptions()
    ensures |LikertOptions| == 5 && |FrequencyOptions| == 5
    ensures forall j :: 0 <= j < 5 ==> LikertOptions[j] == QOption(Num(j + 1), Some(j + 1))
    ensures forall j :: 0 <= j < 5 ==> FrequencyOptions[j] == QOption(Num(j + 1), Some(j + 1))
  {
  }

  /** The shape every question of the catalog has: either the multiple-choice question
      with unscored string options including the sentinel, or a 1..5 scale. */
  predicate WellShaped(q: Question) {
    if q.kind == Multi then
      && DistinctValues(q.options)
      && (forall j :: 0 <= j < |q.options| ==> q.options[j].score.None? && q.options[j].value.Str?)
      && QOption(Str(None_), None) in q.options
    else
      OnScale(q.options) && DistinctValues(q.options) && |q.options| == 5
  }

  lemma {:induction false} CatalogWellShaped()
    ensures forall i :: 0 <= i < |Catalog| ==> WellShaped(Catalog[i])
  {
    CatalogOptionLists();
    forall i | 0 <= i < |Catalog|
      ensures WellShaped(Catalog[i])
    {
      ShapedByList(Catalog[i]);
    }
  }

  /** A question using the option list its kind calls for is well shaped. */
  lemma {:induction false} ShapedByList(q: Question)
    requires if q.kind == Multi then q.options == MedicalOptions
             else q.options == Ascending || q.options == Descending
    ensures WellShaped(q)
  {
    assert OnScale(Ascending) && OnScale(Descending);
    assert DistinctValues(Ascending) && DistinctValues(Descending) && DistinctValues(MedicalOptions);
    assert QOption(Str(None_), None) == MedicalOptions[0];
  }

  /** Each question uses one of the three option lists: the medical list on the
      multiple-choice question, an ascending or descending scale elsewhere. */
  lemma {:induction false} CatalogOptionLists()
    ensures forall i :: 0 <= i < |Catalog| ==>
      if Catalog[i].kind == Multi then Catalog[i].options == MedicalOptions
      else Catalog[i].options == Ascending || Catalog[i].options == Descending
  {
  }

  /** Question 29 (index 28) is the only multiple-choice question. */
  lemma {:induction false} OnlyMultiIs29()
    ensures Catalog[28].id == 29 && Catalog[28].kind == Multi
    ensures forall i :: 0 <= i < |Catalog| && i != 28 ==> Catalog[i].kind != Multi
  {
  }

  /** Some question of the catalog belongs to category `key`. */
  predicate UsedByCatalog(key: string) {
    exists i :: 0 <= i < |Catalog| && Catalog[i].category == key
  }

  /** Every category tag used by a question is a key of `categories`, and every key is used. */
  lemma {:induction false} CategoriesCovered()
    ensures |Categories| == 10
    ensures forall i :: 0 <= i < |Catalog| ==> Catalog[i].category in CategoryKeys()
    ensures forall k :: 0 <= k < |Categories| ==> UsedByCatalog(Categories[k].key)
  {
    var keys := CategoryKeys();
    assert keys == [Deficit, Satiety, Processed, Neat, Strength, Sleep, Stress, Liquid, Adherence, Medical];
    var firsts := [0, 4, 7, 11, 15, 18, 21, 24, 26, 28];
    forall k | 0 <= k < |Categories|
      ensures UsedByCatalog(Categories[k].key)
    {
      var i := firsts[k];
      assert 0 <= i < |Catalog| && Catalog[i].category == Categories[k].key;
    }
  }

  /** The position of a category key in `categories` (10 for an unknown key). */
  function Rank(c: string): (r: nat)
    ensures r <= |Categories|
    ensures r < |Categories| ==> Categories[r].key == c
    ensures forall j :: 0 <= j < r && j < |Categories| ==> Categories[j].key != c
    ensures r == |Categories| <==> forall i :: 0 <= i < |Categories| ==> Categories[i].key != c
  {
    CategoryKeysDistinct();
    if c == Deficit then 0 else if c == Satiety then 1 else if c == Processed then 2
    else if c == Neat then 3 else if c == Strength then 4 else if c == Sleep then 5
    else if c == Stress then 6 else if c == Liquid then 7 else if c == Adherence then 8
    else if c == Medical then 9 else 10
  }

  /** The block (0..9) that catalog position `i` falls in, following the source's
      section comments "(1-4)", "(5-7)", ..., "(29-30)". */
  function BlockOf(i: int): int {
    if i < 4 then 0 else if i < 7 then 1 else if i < 11 then 2 else if i < 15 then 3
    else if i < 18 then 4 else if i < 21 then 5 else if i < 24 then 6 else if i < 26 then 7
    else if i < 28 then 8 else 9
  }

  lemma {:induction false} CatalogBlocks()
    ensures forall i :: 0 <= i < |Catalog| ==> Rank(Catalog[i].category) == BlockOf(i)
  {
    BlocksBetween(0, 15);
    BlocksBetween(15, 30);
  }

  lemma {:induction false} BlocksBetween(lo: nat, hi: nat)
    requires (lo, hi) == (0, 15) || (lo, hi) == (15, 30)
    ensures forall i :: lo <= i < hi ==> Rank(Catalog[i].category) == BlockOf(i)
  {
  }

  /** Each category's questions form one contiguous block of the catalog. */
  lemma {:induction false} CategoriesContiguous()
    ensures forall i, j, k :: 0 <= i < j < k < |Catalog| && Catalog[i].category == Catalog[k].category
              ==> Catalog[j].category == Catalog[i].category
  {
    CatalogBlocks();
    forall i, j, k | 0 <= i < j < k < |Catalog| && Catalog[i].category == Catalog[k].category
      ensures Catalog[j].category == Catalog[i].category
    {
      var ci, cj := Catalog[i].category, Catalog[j].category;
      assert Rank(ci) == BlockOf(i) == BlockOf(j) == Rank(cj) < |Categories|;
      assert ci == Categories[Rank(ci)].key && cj == Categories[Rank(cj)].key;
    }
  }

  /** No category key looks like an array index, so `Object.entries` lists the
      category buckets in insertion order. */
  lemma {:induction false} CategoryKeysAreNotIndices()
    ensures forall k :: 0 <= k < |Categories| ==> |Categories[k].key| > 0 && 'a' <= Categories[k].key[0] <= 'z'
  {
  }

  /** Every category has a display name. */
  lemma {:induction false} CategoryNamesFilled()
    ensures forall k :: 0 <= k < |Categories| ==> Categories[k].name != ""
  {
  }

  /** The ten category keys are pairwise distinct. */
  lemma {:induction false} CategoryKeysDistinct()
    ensures forall a, b :: 0 <= a < b < |Categories| ==> Categories[a].key != Categories[b].key
  {
  }
}
