/** The client dashboard: the weekly habit tracker and the subscription's progress. Dates
    are day numbers and the current week and day are inputs; a NaN result is `None`. */
module Dashboard {
  import opened Wrappers

  /** A row of the habit tracker. */
  datatype Habit = Habit(id: string, name: string, completed: bool, week: int)

  /** The habits created for a user with no rows for the current week. */
  const DefaultHabits: seq<string> := [
    "Entrenar 3 veces",
    "Beber 2L de agua diarios",
    "Dormir 7+ horas",
    "Seguir plan nutricional",
    "Meditar 10 min"
  ]

  /** A row as inserted, before the database gives it an id. */
  datatype NewHabit = NewHabit(name: string, completed: bool, week: int)

  /** The rows `loadHabits` inserts for a new week: the five default habits, none done. */
  function DefaultRows(week: int): (r: seq<NewHabit>)
    ensures |r| == |DefaultHabits| == 5
    ensures forall i :: 0 <= i < |r| ==> r[i] == NewHabit(DefaultHabits[i], false, week)
  {
    seq(|DefaultHabits|, i requires 0 <= i < |DefaultHabits| => NewHabit(DefaultHabits[i], false, week))
  }

  /** Milliseconds in a week. */
  const WeekMillis: nat := 604800000

  /** `currentWeek`: `Math.ceil(elapsed / 604800000)` for the milliseconds elapsed since
      January 1st. */
  function CurrentWeek(elapsed: nat): (r: nat)
    ensures elapsed > 0 ==> (r - 1) * WeekMillis < elapsed <= r * WeekMillis
    ensures elapsed == 0 ==> r == 0
  {
    (elapsed + WeekMillis - 1) / WeekMillis
  }

  // ---------------------------------------------------------------------------
  // The weekly progress.

  function CompletedCount(hs: seq<Habit>): (r: nat)
    ensures r <= |hs|
    decreases |hs|
  {
    if |hs| == 0 then 0 else (if hs[0].completed then 1 else 0) + CompletedCount(hs[1..])
  }

  /** All habits are done exactly when all are counted, none exactly when none is. */
  lemma {:induction false} CountExtremes(hs: seq<Habit>)
    ensures CompletedCount(hs) == |hs| <==> forall i :: 0 <= i < |hs| ==> hs[i].completed
    ensures CompletedCount(hs) == 0 <==> forall i :: 0 <= i < |hs| ==> !hs[i].completed
    decreases |hs|
  {
    if |hs| > 0 {
      CountExtremes(hs[1..]);
      assert forall i :: 1 <= i < |hs| ==> hs[1..][i - 1] == hs[i];
    }
  }

  /** `weekProgress`: the percentage of habits done; `None` for an empty list, a case the
      page never evaluates: it computes the ratio only when the week has rows. */
  function WeekProgress(hs: seq<Habit>): (r: Option<real>)
    ensures r.None? <==> |hs| == 0
    ensures r.Some? ==> 0.0 <= r.value <= 100.0
    ensures r.Some? ==> (r.value == 100.0 <==> forall i :: 0 <= i < |hs| ==> hs[i].completed)
    ensures r.Some? ==> (r.value == 0.0 <==> forall i :: 0 <= i < |hs| ==> !hs[i].completed)
  {
    if |hs| == 0 then None
    else
      CountExtremes(hs);
      RatioBounds(CompletedCount(hs), |hs|);
      Some(CompletedCount(hs) as real / |hs| as real * 100.0)
  }

  lemma {:induction false} RatioBounds(c: nat, n: nat)
    requires 0 < n && c <= n
    ensures 0.0 <= c as real / n as real * 100.0 <= 100.0
    ensures c as real / n as real * 100.0 == 100.0 <==> c == n
    ensures c as real / n as real * 100.0 == 0.0 <==> c == 0
  {
    var q := c as real / n as real;
    assert q * n as real == c as real;
    if q == 1.0 {
      assert c as real == n as real;
    }
  }

  /** `toggleHabit`: when the database update succeeds, every row with that id becomes
      `!currentState`; on an error nothing changes. */
  function ToggleHabit(hs: seq<Habit>, id: string, currentState: bool, updated: bool): (r: seq<Habit>)
    ensures |r| == |hs|
    ensures forall i :: 0 <= i < |hs| ==> r[i].(completed := hs[i].completed) == hs[i]
    ensures forall i :: 0 <= i < |hs| ==>
              r[i].completed == if updated && hs[i].id == id then !currentState else hs[i].completed
  {
    if !updated then hs
    else seq(|hs|, i requires 0 <= i < |hs| => if hs[i].id == id then hs[i].(completed := !currentState) else hs[i])
  }

  predicate DistinctIds(hs: seq<Habit>) {
    forall i, j :: 0 <= i < j < |hs| ==> hs[i].id != hs[j].id
  }

  /** Ticking a habit that is not done adds one to the done count; unticking one that is
      done takes one away; a failed update changes nothing. */
  lemma {:induction false} ToggleCounts(hs: seq<Habit>, k: nat, updated: bool)
    requires k < |hs| && DistinctIds(hs)
    ensures var r := ToggleHabit(hs, hs[k].id, hs[k].completed, updated);
      CompletedCount(r) == CompletedCount(hs) + (if !updated then 0 else if hs[k].completed then -1 else 1)
  {
    var r := ToggleHabit(hs, hs[k].id, hs[k].completed, updated);
    if updated {
      forall i | 0 <= i < |hs| && i != k
        ensures r[i] == hs[i]
      {
        if i < k { assert hs[i].id != hs[k].id; } else { assert hs[k].id != hs[i].id; }
      }
      CountOneChange(hs, r, k);
    }
  }

  /** Two lists that differ only at position k differ in their done count by that
      position's difference. */
  lemma {:induction false} CountOneChange(a: seq<Habit>, b: seq<Habit>, k: nat)
    requires |a| == |b| && k < |a|
    requires forall i :: 0 <= i < |a| && i != k ==> a[i] == b[i]
    ensures CompletedCount(b) == CompletedCount(a) + (if b[k].completed then 1 else 0) - (if a[k].completed then 1 else 0)
    decreases |a|
  {
    if k == 0 {
      assert a[1..] == b[1..];
    } else {
      CountOneChange(a[1..], b[1..], k - 1);
    }
  }

  /** Ticking a habit and unticking it again restores the tracker. */
  lemma {:induction false} ToggleTwice(hs: seq<Habit>, k: nat)
    requires k < |hs| && DistinctIds(hs)
    ensures var once := ToggleHabit(hs, hs[k].id, hs[k].completed, true);
      ToggleHabit(once, hs[k].id, once[k].completed, true) == hs
  {
    var once := ToggleHabit(hs, hs[k].id, hs[k].completed, true);
    var twice := ToggleHabit(once, hs[k].id, once[k].completed, true);
    forall i | 0 <= i < |hs|
      ensures twice[i] == hs[i]
    {
      if hs[i].id == hs[k].id {
        assert i == k;
      }
    }
  }

  /** `Math.round` of a percentage in [0, 100], as the dashboard shows it. */
  function DisplayPercent(x: real): (r: int)
    ensures r as real <= x + 0.5 < r as real + 1.0
  {
    (x + 0.5).Floor
  }

  lemma {:induction false} DisplayPercentRange(x: real)
    requires 0.0 <= x <= 100.0
    ensures 0 <= DisplayPercent(x) <= 100
  {
  }

  // ---------------------------------------------------------------------------
  // The subscription's progress.

  /** `getDaysRemaining`: null without an end date, otherwise the days from today to it. */
  function DaysRemaining(end: Option<int>, today: int): (r: Option<int>)
    ensures r.None? <==> end.None?
    ensures r.Some? ==> today + r.value == end.value
  {
    if end.None? then None else Some(end.value - today)
  }

  /** `getPlanProgress`: 0 without both dates; otherwise the elapsed share of the plan in
      percent, clamped to [0, 100]. When the plan lasts zero days the quotient is an
      infinity (clamped to 0 or 100) or, on its first day, NaN (`None`). */
  function PlanProgress(start: Option<int>, end: Option<int>, today: int): (r: Option<real>)
    ensures start.None? || end.None? ==> r == Some(0.0)
    ensures r.Some? ==> 0.0 <= r.value <= 100.0
    ensures r.None? <==> start.Some? && end.Some? && end.value == start.value && today == start.value
  {
    if start.None? || end.None? then Some(0.0)
    else
      var total := end.value - start.value;
      var elapsed := today - start.value;
      if total == 0 then
        if elapsed > 0 then Some(100.0) else if elapsed < 0 then Some(0.0) else None
      else
        Some(Clamp(elapsed as real / total as real * 100.0))
  }

  /** `Math.min(Math.max(x, 0), 100)`. */
  function Clamp(x: real): (r: real)
    ensures 0.0 <= r <= 100.0
    ensures 0.0 <= x <= 100.0 ==> r == x
    ensures x < 0.0 ==> r == 0.0
    ensures x > 100.0 ==> r == 100.0
  {
    if x < 0.0 then 0.0 else if x > 100.0 then 100.0 else x
  }

  /** For a plan of positive length: nothing before it starts, everything from its end
      date on (when no days remain), and strictly in between during it. */
  lemma {:induction false} PlanProgressSpec(start: int, end: int, today: int)
    requires start < end
    ensures today <= start ==> PlanProgress(Some(start), Some(end), today) == Some(0.0)
    ensures DaysRemaining(Some(end), today).value <= 0 ==> PlanProgress(Some(start), Some(end), today) == Some(100.0)
    ensures start < today < end ==> 0.0 < PlanProgress(Some(start), Some(end), today).value < 100.0
  {
    var total := (end - start) as real;
    var elapsed := (today - start) as real;
    var q := elapsed / total;
    assert q * total == elapsed;
  }

  /** Later days never show less progress. */
  lemma {:induction false} PlanProgressMonotone(start: int, end: int, d1: int, d2: int)
    requires start < end && d1 <= d2
    ensures PlanProgress(Some(start), Some(end), d1).value <= PlanProgress(Some(start), Some(end), d2).value
  {
    var total := (end - start) as real;
    var q1 := (d1 - start) as real / total;
    var q2 := (d2 - start) as real / total;
    assert q1 * total == (d1 - start) as real;
    assert q2 * total == (d2 - start) as real;
    if q1 > q2 {
      assert q1 * total > q2 * total;
    }
  }
}
