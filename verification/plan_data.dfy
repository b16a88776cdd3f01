/** The personalised plan as the generation function stores it and the client exports it. */
module PlanData {

  datatype PlanContent = PlanContent(title: string, summary: string, estimatedDuration: string, difficulty: string)

  datatype Phase = Phase(
    phase: int, title: string, duration: string, description: string,
    goals: seq<string>, keyActions: seq<string>)

  /** A habit of the plan; `priority` is "high", "medium" or "low" by its declared type,
      though nothing checks it. */
  datatype PlanHabit = PlanHabit(
    id: int, title: string, description: string, frequency: string, category: string, priority: string)

  datatype NutritionTip = NutritionTip(id: int, title: string, description: string, examples: seq<string>)

  datatype PsychologyTip = PsychologyTip(id: int, title: string, description: string, technique: string)

  /** A stored plan. A list the export reads with `?.length` and finds missing counts as empty. */
  datatype UserPlan = UserPlan(
    content: PlanContent, phases: seq<Phase>, habits: seq<PlanHabit>,
    nutritionTips: seq<NutritionTip>, psychologyTips: seq<PsychologyTip>)
}
