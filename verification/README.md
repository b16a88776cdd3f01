# Weight-loss diagnostic: a Dafny model of its core

The application is a Spanish-language weight-loss diagnostic. A 30-question quiz
(`src/lib/questions.ts`) is scored by `calculateProfile`, a copy of which sits in both the
quiz page (`src/pages/Test.tsx:20-71`) and the results page (`src/pages/Results.tsx:283-336`).
The two copies agree line for line up to the risk band, so one `Scoring` module models
both. Scoring works in six steps:

1. Answers are grouped into per-category buckets, in catalog order.
2. Each bucket's mean is normalised to 0..100.
3. Each normalised score is banded as "bajo", "medio" or "alto".
4. Each entry is named.
5. The entries are sorted by score.
6. The entries are summarised in an overall risk band.

The quiz page keeps the three best entries as `mainFactors`. The results page instead derives a headline (main trait, root factor, dominant mechanism) and its own list of main factors.

Around this engine the project models:

- **Quiz page:** answer recording, the multi-select toggle, and next/back navigation with its `canProceed` guard.
- **Progress bar:** the quiz's progress bar.
- **Results page:** the lookup tables and level styles.
- **Pricing:** the pricing page, with plan prices, the add-on and the checkout steps.
- **Checkout and webhook:** the checkout function's line items and metadata, and how the payment webhook reads that metadata back.
- **Dashboard:** the habit tracker and plan progress.
- **Admin:** the admin page's search filter and status badges.
- **Plan generation:** the pure parts of the plan-generation function: the factor list in the prompt, stripping code fences from the reply, the stored-data defaults, and the initial tracker rows.
- **HTML export:** the plan's HTML export.

| module | file | models |
|---|---|---|
| `Wrappers` | wrappers.dfy | `Option` / `Result` |
| `Text` | text.dfy | the JavaScript string operations the source uses: `includes`, `split`, `join`, `trim`, `toLowerCase` (Latin-1), and number printing |
| `Tables` | tables.dfy | `Record<string, V>` literals as ordered key/value lists |
| `Questions` | questions.dfy | the catalog, its option scales and the ten categories |
| `Ranking` | ranking.dfy | levels, the risk band, the stable descending sort, `slice` and the "bajo" filter |
| `Scoring` | scoring.dfy | `calculateProfile` up to the point both pages share |
| `TestPage` | test_page.dfy | the quiz page: `mainFactors` and the page's state machine |
| `ResultsPage` | results_page.dfy | the results page: headline, tables, styles, `topFactors` |
| `ProgressBar` | progress_bar.dfy | `ProgressBar` |
| `Pricing` | pricing.dfy | the pricing page |
| `CreateCheckout` | create_checkout.dfy | the checkout function and the webhook's reading of the session |
| `Dashboard` | dashboard.dfy | the dashboard's tracker and progress figures |
| `Admin` | admin.dfy | the admin page's filter and badges |
| `PlanData` | plan_data.dfy | the stored plan |
| `GeneratePlan` | generate_plan.dfy | the plan-generation function's pure parts |
| `PlanHtml` | plan_html.dfy | `generatePlanHtml` |

All arithmetic is exact. `Math.round(x)` is modelled as the integer `r` with `r <= x + 1/2 < r + 1`. Normalised scores are computed on integers as `(40·sum + n) div 2n`, and a lemma proves this equals the rounded real mean.

A computation that yields NaN in JavaScript is modelled as `None` or as a failure:

- an empty bucket;
- a zero `max` on the progress bar;
- a plan whose start and end are the same day.

Points where the code's behaviour is easy to misread, all modelled as the code behaves:

- **Main factors keep "bajo" entries.** The quiz page's `mainFactors` (`src/pages/Test.tsx:69`) is the first three sorted entries whatever their level, and that is what it stores. Only the results page filters out "bajo" (`src/pages/Results.tsx:65-68`). `TestPage.MainFactorsKeepLowLevels` exhibits a "bajo" main factor, and `ResultsPage.TopFactorsOfProfile` relates the two lists.
- **Some malformed answers throw.** An answer to question 29 that is neither a list nor a string has no `includes` method, so `answer.includes("ninguna")` (`src/pages/Test.tsx:33`) throws a `TypeError`. The model reports this as `Failure(TypeErrorAt(id))`.
- **An answered category can end with no score.** An answered category whose answers all fail to match an option keeps an empty bucket, and its mean is NaN. The model reports this as `Failure(UnscoredCategory(c))`; the code would instead produce a NaN entry (see `Scoring.ScoreAll` under "Left out").

## Model

| member | source | states |
|---|---|---|
| Questions.CatalogIds | src/lib/questions.ts:39-367 | the catalog has 30 questions with ids 1..30 in order, so ids are unique |
| Questions.ScaleOptions | src/lib/questions.ts:23-37 | both five-point scales offer the values 1..5, each scoring its own value |
| Questions.CatalogWellShaped | src/lib/questions.ts:39-367 | every question is either the multiple-choice question with unscored options including "ninguna", or a 1..5 scale with distinct values |
| Questions.CatalogOptionLists | src/lib/questions.ts:39-367 | every question uses the medical list, the ascending scale or the descending scale, and uses the medical list exactly when it is multiple-choice |
| Questions.OnlyMultiIs29 | src/lib/questions.ts:339-353 | question 29 is the only multiple-choice question |
| Questions.CategoriesCovered | src/lib/questions.ts:39-410 | there are ten categories; every question's category is one of them, and every category has a question |
| Questions.CatalogBlocks | src/lib/questions.ts:39-367 | each question falls in the block of its category, as the section comments group them |
| Questions.CategoriesContiguous | src/lib/questions.ts:39-367 | each category's questions form one contiguous run of the catalog |
| Questions.CategoryKeysAreNotIndices | src/lib/questions.ts:369-410 | no category key looks like an array index, so object key order is insertion order |
| Questions.CategoryNamesFilled | src/lib/questions.ts:369-410 | every category has a non-empty display name |
| Questions.CategoryKeysDistinct | src/lib/questions.ts:369-410 | the ten category keys are pairwise distinct |
| Questions.CategoryName | src/lib/questions.ts:369-410 | a key has a name exactly when it is a category key, and the name is that category's own |
| Questions.NameIn | src/lib/questions.ts:369-410 | the lookup succeeds exactly when some entry has the key, and returns that entry's name |
| Questions.Rank | src/lib/questions.ts:369-410 | the position of a key among the categories: a category key gets the position of its entry, and the end is returned exactly for a key that is not a category |
| Tables.Lookup | src/pages/Results.tsx:351 | `table[key]` is present exactly when some entry has the key, and is that entry's value |
| Tables.LookupAt | src/pages/Results.tsx:351 | with distinct keys, looking up an entry's key finds that entry's value |
| Tables.LookupInjective | src/pages/Results.tsx:351 | a table with distinct keys and distinct values maps different keys to different values |
| Scoring.MultiScore | src/pages/Test.tsx:31-34 | a list containing "ninguna" scores 1, and any other list scores its length plus one, capped at 5. A string answer is searched and measured as a string. Anything else throws |
| Scoring.FindOption | src/pages/Test.tsx:36 | the first option whose value equals the answer, or none |
| Scoring.OptionScore | src/pages/Test.tsx:35-39 | a score is pushed exactly when the first option equal to the answer has a present, non-zero score, and it is that score; otherwise the bucket is only opened |
| Scoring.ContributionOf | src/pages/Test.tsx:24-25 | a question contributes nothing exactly when its id has no answer |
| Scoring.IndexOf | src/pages/Test.tsx:27 | the first bucket of a category, or none |
| Scoring.Open | src/pages/Test.tsx:27-29 | afterwards the category has a bucket; existing buckets are untouched, and an empty bucket is added last exactly when the category had none |
| Scoring.Push | src/pages/Test.tsx:34 | pushing appends the score to that category's bucket and leaves every other bucket alone |
| Scoring.FirstOpening | src/pages/Test.tsx:23-29 | the first answered question of a category, or none |
| Scoring.FirstThrow | src/pages/Test.tsx:31-33 | the first answered question whose answer throws, or none |
| Scoring.Group | src/pages/Test.tsx:21-41 | the scan succeeds exactly when no answered question throws; a failure names a question whose answer throws; there are never more buckets than questions |
| Scoring.Extend | src/pages/Test.tsx:27-39 | extending a bucket opens it at the end when it is absent; other categories' buckets are untouched |
| Scoring.GroupSpec | src/pages/Test.tsx:23-41 | the scan fails exactly at the first throwing answered question. Otherwise the buckets are exactly the answered categories, ordered by first answer, each holding all its scores in catalog order |
| Scoring.RoundedPercent | src/pages/Test.tsx:44-45 | the integer result is `Math.round` of the bucket mean scaled from 0..5 to 0..100 |
| Scoring.RoundedPercentRange | src/pages/Test.tsx:44-45 | means of 1..5 scores land in 20..100 |
| Scoring.FloorDivReal | src/pages/Test.tsx:45 | integer floor division agrees with real division rounded down |
| Scoring.DisplayNames | src/pages/Test.tsx:55 | every category key is shown under its catalog name, and any other key is shown as itself |
| Scoring.DisplayName | src/pages/Test.tsx:55 | the shown name is the key itself or the name of the category with that key, and is empty only for the empty key |
| Scoring.Entry | src/pages/Test.tsx:43-57 | the entry keeps the bucket's category and display name; its score is `Math.round` of the bucket mean scaled to 0..100, in 20..100 when every score is in 1..5, and its level is the band of that score |
| Scoring.ScoreAll | src/pages/Test.tsx:43-57 | the entries succeed exactly when every bucket is non-empty. Each entry is built from its own bucket, in bucket order; otherwise the failure names an empty bucket |
| Scoring.Score | src/pages/Test.tsx:20-64 | fails with a TypeError exactly when some answered question throws, and names such a question; otherwise the entries are sorted by score, each banded by its score, with the risk band of their mean |
| Scoring.ScoreStages | src/pages/Test.tsx:20-71 | a successful run is grouping, then entries, then the stable sort, then the risk band |
| Scoring.ScoreEntries | src/pages/Test.tsx:43-57 | every entry's score, level and name come from all scores of its category |
| Scoring.ScoreListed | src/pages/Test.tsx:20-71 | a category is listed exactly when some question of it was answered |
| Scoring.EntriesInOrder | src/pages/Test.tsx:43 | before the sort, entries have distinct categories, ordered by each category's first answer |
| Scoring.ScoreSpec | src/pages/Test.tsx:20-64 | the profile lists the answered categories once each, scored from their answers, sorted by score. Ties keep first-answered order, and the risk band is that of the scores |
| Scoring.BucketsFilled | src/pages/Test.tsx:27-39 | all buckets are non-empty exactly when every answered category received a score |
| Scoring.ScoreSucceeds | src/pages/Test.tsx:20-71 | the engine succeeds exactly when no answered question throws and every answered category received a score. A throw is reported at the first throwing question |
| Scoring.GroupNoAnswers | src/pages/Test.tsx:23-41 | with no answers the scan opens no bucket |
| Scoring.NoAnswers | src/pages/Test.tsx:20-71 | with no answers the profile is empty and the risk band is "bajo" |
| Scoring.QuizContribution | src/pages/Test.tsx:31-39 | an answer the quiz can record for a well-shaped question pushes one score in 1..5 |
| Scoring.QuizContributions | src/pages/Test.tsx:23-41 | with quiz answers, every pushed score is in 1..5, and every answered category receives at least one |
| Scoring.SumBounds | src/pages/Test.tsx:44 | the sum of n scores in 1..5 lies in n..5n |
| Scoring.QuizAnswersScore | src/pages/Test.tsx:20-71 | answers the quiz page can record always yield a profile, with every score in 20..100 |
| Scoring.CatalogQuizScores | src/pages/Test.tsx:20-71 | on the real catalog, quiz answers always yield a profile with scores in 20..100 |
| Scoring.PermutationDistinct | src/pages/Test.tsx:59 | reordering the entries keeps categories distinct |
| Scoring.ListedPermutation | src/pages/Test.tsx:59 | reordering the entries does not change which categories are listed |
| Ranking.LevelOf | src/pages/Test.tsx:47-49 | "alto" exactly from 70, "medio" exactly on 40..69, "bajo" exactly below 40 |
| Ranking.LevelMonotone | src/pages/Test.tsx:47-49 | a higher score never gets a lower level |
| Ranking.RiskOf | src/pages/Test.tsx:60-64 | the band of the mean score: "alto" from 65, "medio" from 40, "bajo" below and for an empty profile |
| Ranking.MeanAtLeast | src/pages/Test.tsx:60-64 | comparing the mean with a bound is comparing the total with n times the bound |
| Ranking.Insert | src/pages/Test.tsx:59 | insertion adds exactly the new element: the result is the list plus that element, as a multiset |
| Ranking.InsertSorted | src/pages/Test.tsx:59 | inserting into a descending list keeps it descending |
| Ranking.SortDesc | src/pages/Test.tsx:59 | the sort returns a descending permutation of its input |
| Ranking.InsertKeepsTies | src/pages/Test.tsx:59 | an element inserted ahead of all its ties keeps the order among ties |
| Ranking.SortDescStable | src/pages/Test.tsx:59 | the sort is stable: tied entries keep their input order |
| Ranking.SortSortedIsIdentity | src/pages/Results.tsx:67 | re-sorting a descending list changes nothing |
| Ranking.Take | src/pages/Test.tsx:69 | `slice(0, n)` is the prefix of length min(n, length) |
| Ranking.TakeTop | src/pages/Test.tsx:69 | the first n entries of a descending list stay descending, and no entry left out scores more than one kept |
| Ranking.NotLow | src/pages/Results.tsx:66 | keeps exactly the entries above "bajo" |
| Ranking.NotLowIsSubsequence | src/pages/Results.tsx:66 | the filter keeps the original order |
| Ranking.SubsequenceKeepsSorted | src/pages/Results.tsx:66 | a subsequence of a descending list is descending |
| TestPage.MainFactorsAreTop | src/pages/Test.tsx:66-70 | `mainFactors` is a prefix of the sorted scores: at most three, best first, and none left out scores more |
| TestPage.CalculateProfile | src/pages/Test.tsx:20-71 | succeeds exactly when the engine does; stores the engine's sorted scores and risk band, and the first three scores (fewer when there are fewer) as `mainFactors` |
| TestPage.ContributionsOfOne | src/pages/Test.tsx:23-41 | when only one question is answered, every category's scores are that question's own |
| TestPage.UnansweredContribute | src/pages/Test.tsx:24-25 | unanswered questions contribute no score |
| TestPage.OneLowAnswerFacts | src/lib/questions.ts:39-80 | answering question 3 with its lowest option is a valid quiz answer to a single-choice ascending question |
| TestPage.OneLowAnswerDeficit | src/pages/Test.tsx:23-41 | that answer opens only the calorie-deficit category, with the single score 1 |
| TestPage.SingleCategoryFirst | src/pages/Test.tsx:43-59 | when answers open a single category, the profile's first entry is that category's |
| TestPage.MainFactorsKeepLowLevels | src/pages/Test.tsx:69 | one favourable answer yields a main factor at level "bajo" with score 20, so `mainFactors` is not filtered |
| TestPage.CurrentAnswer | src/pages/Test.tsx:79-80 | the shown question's answer is present exactly when its id was answered |
| TestPage.HandleAnswer | src/pages/Test.tsx:83-88 | records the answer for the shown question, and keeps the position and every other answer |
| TestPage.Selected | src/pages/Test.tsx:91 | the current selection is the stored list, or empty when there is none |
| TestPage.Without | src/pages/Test.tsx:93 | removes every copy of the value and keeps everything else |
| TestPage.Toggle | src/pages/Test.tsx:92-94 | a selected value is removed, and an unselected one is appended |
| TestPage.WithoutShrinks | src/pages/Test.tsx:93 | removing a selected value shortens the selection |
| TestPage.WithoutAbsent | src/pages/Test.tsx:93 | removing an unselected value changes nothing |
| TestPage.ToggleTwice | src/pages/Test.tsx:92-94 | clicking an unselected option twice restores the selection |
| TestPage.WithoutAppend | src/pages/Test.tsx:93-94 | removing a value just appended is removing it from the original |
| TestPage.WithoutKeepsNoDuplicates | src/pages/Test.tsx:93 | filtering keeps a duplicate-free selection duplicate-free |
| TestPage.ToggleKeepsNoDuplicates | src/pages/Test.tsx:92-94 | clicking options never selects the same value twice |
| TestPage.HandleMultiSelect | src/pages/Test.tsx:90-96 | a click adds the value to the shown question's selection when absent and removes it otherwise. Every other value, every other answer and the position stay |
| TestPage.HandleNext | src/pages/Test.tsx:105-111 | submits exactly on the last question, with the answers unchanged; otherwise shows the next question |
| TestPage.HandleBack | src/pages/Test.tsx:113-117 | goes back one question, except on the first, and keeps the answers |
| TestPage.CanProceed | src/pages/Test.tsx:98-103 | a question other than 29 can proceed exactly when it has an answer; question 29 needs a non-empty selection, and an answer that lets it proceed never makes the engine throw |
| TestPage.NextThenBack | src/pages/Test.tsx:105-117 | going forward then back restores the page |
| TestPage.Press | src/pages/Test.tsx:98-117 | a click only submits from the last question through "next", with the answers as they are |
| TestPage.StartValid | src/pages/Test.tsx:75-76 | the quiz starts in a valid state |
| TestPage.AnswerKeepsValid | src/pages/Test.tsx:83-88 | recording a quiz answer keeps the page valid |
| TestPage.PressKeepsValid | src/pages/Test.tsx:98-117 | every click keeps the page valid; a submission carries quiz answers and every question can proceed |
| TestPage.SubmittedAnswersScore | src/pages/Test.tsx:119-127 | submitted answers always score, every category with a question is listed, and every score is in 20..100 |
| ProgressBar.Percentage | src/components/ui/ProgressBar.tsx:18 | `Math.round(value / max * 100)` as an exact integer; NaN or infinity for a zero `max` |
| ProgressBar.RoundedQuotient | src/components/ui/ProgressBar.tsx:18 | the integer quotient of `200v + m` by `2m` is `100v/m` rounded half up |
| ProgressBar.PercentageRange | src/components/ui/ProgressBar.tsx:18 | a value between 0 and `max` shows 0..100 |
| ProgressBar.PercentageFull | src/components/ui/ProgressBar.tsx:18 | the value equal to `max` shows 100 |
| ProgressBar.PercentageMonotone | src/components/ui/ProgressBar.tsx:18 | a larger value never shows a smaller percentage |
| ProgressBar.QuizProgress | src/pages/Test.tsx:159 | across the quiz the bar goes strictly up from 3% and reaches 100% only on the last question |
| ProgressBar.QuizStep | src/pages/Test.tsx:159 | the percentage on each question of the 30 |
| ResultsPage.MechanismsTable | src/pages/Results.tsx:338-352 | the mechanisms table follows the categories, and its texts are non-empty, distinct and not the default |
| ResultsPage.DescriptionsTable | src/pages/Results.tsx:397-411 | the descriptions table follows the categories, and its texts are non-empty, distinct and not the default |
| ResultsPage.HabitsTable | src/pages/Results.tsx:413-457 | the first-habit table follows the categories, and its habits are distinct |
| ResultsPage.FollowsCategories | src/pages/Results.tsx:351 | a table that follows the categories has an entry exactly for the category keys |
| ResultsPage.MechanismSpec | src/pages/Results.tsx:338-352 | every category has its own mechanism; no category, or an unknown one, gets "Múltiples factores" |
| ResultsPage.DominantMechanism | src/pages/Results.tsx:338-352 | never empty: the mechanism listed for the given category, or "Múltiples factores" |
| ResultsPage.FactorDescriptionSpec | src/pages/Results.tsx:397-411 | every category has its own description; an unknown key gets the generic one |
| ResultsPage.FactorDescription | src/pages/Results.tsx:397-411 | never empty: the description listed for the category, or the generic one |
| ResultsPage.FirstHabitSpec | src/pages/Results.tsx:413-457 | every category has its own first habit; a missing or unknown category gets the calorie-deficit habit |
| ResultsPage.FirstHabit | src/pages/Results.tsx:413-457 | always one of the listed habits, the calorie-deficit habit when no category is given |
| ResultsPage.ByLevelSeparates | src/pages/Results.tsx:354-395 | a three-way switch with different branches tells the levels apart and treats any other string as "bajo" |
| ResultsPage.StylesSeparateLevels | src/pages/Results.tsx:354-395 | the three levels get pairwise different colours, badges and descriptions; any other string is styled as "bajo" |
| ResultsPage.RiskColor | src/pages/Results.tsx:354-360 | red exactly for "alto", amber exactly for "medio", green exactly for any other string |
| ResultsPage.RiskBgColor | src/pages/Results.tsx:362-368 | the light red, amber and green backgrounds, each exactly for "alto", "medio" and any other string |
| ResultsPage.RiskIconColor | src/pages/Results.tsx:370-376 | the red, amber and green icon colours, each exactly for "alto", "medio" and any other string |
| ResultsPage.RiskDescription | src/pages/Results.tsx:378-387 | the high, medium and low descriptions, each exactly for "alto", "medio" and any other string |
| ResultsPage.LevelBadge | src/pages/Results.tsx:389-395 | the high, medium and low badges, each exactly for "alto", "medio" and any other string |
| ResultsPage.HeadlineIsTop | src/pages/Results.tsx:329-335 | the headline names the top category, which is the earliest answered among ties, with the fallbacks for empty fields |
| ResultsPage.CalculateResults | src/pages/Results.tsx:283-336 | succeeds exactly when the engine does; keeps its sorted scores and risk band, and the headline's trait, root factor and mechanism are never empty |
| ResultsPage.CatalogHeadline | src/pages/Results.tsx:329-335 | on the catalog, the headline is some category's own key, name and mechanism |
| ResultsPage.TopIsCategory | src/pages/Results.tsx:283-336 | when every question belongs to a category, the best entry is a category's own, under that category's name |
| ResultsPage.NoAnswersHeadline | src/pages/Results.tsx:329-335 | with no answers the page shows "No identificado", "unknown", the generic mechanism and "bajo" |
| ResultsPage.TopFactorsMembers | src/pages/Results.tsx:65-68 | every main factor is a profile entry above "bajo" |
| ResultsPage.TopFactors | src/pages/Results.tsx:65-68 | at most three entries, none more than the profile holds, best first, all above "bajo" |
| ResultsPage.TopFactorsBest | src/pages/Results.tsx:65-68 | no entry above "bajo" left out scores more than one kept |
| ResultsPage.TopFactorsSpec | src/pages/Results.tsx:65-68 | at most three entries, all above "bajo", best first, and the best of those above "bajo" |
| ResultsPage.NotLowPrefix | src/pages/Results.tsx:66 | in a descending profile, the entries above "bajo" come first |
| ResultsPage.AllLow | src/pages/Results.tsx:66 | a descending profile whose best entry is "bajo" is all "bajo" |
| ResultsPage.TopFactorsOfSorted | src/pages/Results.tsx:65-68 | on a descending profile, the page's list is the quiz page's `mainFactors` minus trailing "bajo" entries |
| ResultsPage.TopFactorsOfProfile | src/pages/Results.tsx:65-68 | on the engine's profile, the page's list is the first three entries with the "bajo" ones (all at the end) dropped |
| Pricing.FindPlan | src/pages/Pricing.tsx:75-78 | a plan is found exactly for the id of one of the three plans |
| Pricing.PriceSpec | src/pages/Pricing.tsx:81-87 | the add-on costs 25 € per plan month (at least one), and the total adds it exactly when it is selected |
| Pricing.AddOnPrice | src/pages/Pricing.tsx:81-85 | nothing without a plan; otherwise 25 € for each month of the plan, counting the 7-day plan as one month |
| Pricing.TotalPrice | src/pages/Pricing.tsx:87 | nothing without a plan; otherwise at least the plan's price, above it exactly when the add-on is selected, and then by the add-on's price |
| Pricing.PlanTotals | src/pages/Pricing.tsx:12-87 | the totals are 9/34, 19/44 and 39/114 €, without and with the add-on, and plan ids are distinct |
| Pricing.AddOnNote | src/pages/Pricing.tsx:316-320 | the note appears exactly for plans longer than a month |
| Pricing.AddOnNoteOnlyQuarterly | src/pages/Pricing.tsx:316-320 | only the quarterly plan shows a note, and it reads 75 € for 3 months |
| Pricing.InitConsistent | src/pages/Pricing.tsx:66-71 | the initial state is consistent |
| Pricing.ApplyKeepsConsistent | src/pages/Pricing.tsx:89-121 | every user action keeps the form consistent: a known plan, and the fields of earlier steps filled |
| Pricing.Apply | src/pages/Pricing.tsx:89-121 | a consistent form stays consistent; only choosing a plan changes the plan, only toggling with a plan changes the add-on, and only a successful sign-up reaches the payment step |
| Pricing.SelectPlanRestarts | src/pages/Pricing.tsx:89-95 | choosing a plan returns to the first step and keeps the add-on and the fields |
| Pricing.CheckoutSendsTotal | src/pages/Pricing.tsx:123-137 | on the last step a request is always sent, for the plan and total shown, with the add-on priced exactly when chosen |
| Pricing.HandleCheckout | src/pages/Pricing.tsx:123-137 | a request is sent exactly with a known plan, an email and a name; it asks for the selected plan at the total shown, with an add-on price exactly when the add-on is selected |
| CreateCheckout.Cents | supabase/functions/create-checkout/index.ts:48 | `Math.round(price * 100)` rounds to the nearest cent, halves up |
| CreateCheckout.CentsOfWholeEuros | supabase/functions/create-checkout/index.ts:48 | whole euros convert to cents exactly |
| CreateCheckout.LineItems | supabase/functions/create-checkout/index.ts:40-66 | the plan item first, and a second add-on item exactly when the add-on price is positive |
| CreateCheckout.AmountDue | supabase/functions/create-checkout/index.ts:40-66 | no items cost nothing, and items with non-negative unit amounts never cost less than nothing |
| CreateCheckout.SessionMetadata | supabase/functions/create-checkout/index.ts:75-82 | the metadata copies the request, and flags the add-on "true" exactly when it has a line item |
| CreateCheckout.WebhookEmail | supabase/functions/stripe-webhook/index.ts:149-157 | an email is sent exactly when email, name, plan and duration are non-empty; it announces the add-on exactly on "true" |
| CreateCheckout.CheckoutRoundTrip | supabase/functions/create-checkout/index.ts:40-82 | a request from the pricing page is charged the total the page showed, and its email announces the add-on exactly when it was chosen |
| CreateCheckout.PlanNamesFilled | src/pages/Pricing.tsx:12-61 | every plan has a non-empty name and duration |
| Dashboard.DefaultRows | src/pages/Dashboard.tsx:198-213 | a new week gets the five default habits, none done |
| Dashboard.CurrentWeek | src/pages/Dashboard.tsx:184 | the week number is elapsed milliseconds over a week, rounded up |
| Dashboard.CompletedCount | src/pages/Dashboard.tsx:194 | the done count is at most the number of habits |
| Dashboard.CountExtremes | src/pages/Dashboard.tsx:194 | the count is full exactly when all habits are done, and zero exactly when none is |
| Dashboard.WeekProgress | src/pages/Dashboard.tsx:192-195 | the percentage is in 0..100: 100 exactly when all are done, 0 exactly when none is; `None` for an empty list, a case the page never evaluates (Dashboard.tsx:192) |
| Dashboard.RatioBounds | src/pages/Dashboard.tsx:195 | c of n as a percentage is in 0..100, and reaches each end exactly at c = n and c = 0 |
| Dashboard.ToggleHabit | src/pages/Dashboard.tsx:227-247 | a successful update flips the habits with that id and nothing else; a failed one changes nothing |
| Dashboard.ToggleCounts | src/pages/Dashboard.tsx:236-245 | ticking adds one to the done count and unticking removes one |
| Dashboard.CountOneChange | src/pages/Dashboard.tsx:244 | lists that differ at one position differ in count by that position's change |
| Dashboard.ToggleTwice | src/pages/Dashboard.tsx:227-247 | ticking and then unticking restores the tracker |
| Dashboard.DisplayPercent | src/pages/Dashboard.tsx:471 | `Math.round` of the shown percentage |
| Dashboard.DisplayPercentRange | src/pages/Dashboard.tsx:405 | a percentage in 0..100 displays as 0..100 |
| Dashboard.DaysRemaining | src/pages/Dashboard.tsx:254-257 | none without an end date; otherwise today plus the result is the end |
| Dashboard.PlanProgress | src/pages/Dashboard.tsx:259-264 | 0 without both dates, otherwise within 0..100; NaN only on day one of a zero-length plan |
| Dashboard.Clamp | src/pages/Dashboard.tsx:263 | the value, clamped into 0..100 |
| Dashboard.PlanProgressSpec | src/pages/Dashboard.tsx:259-264 | 0 until the start, 100 once no days remain, strictly between during the plan |
| Dashboard.PlanProgressMonotone | src/pages/Dashboard.tsx:259-264 | progress never goes down as days pass |
| Admin.FilteredProfiles | src/pages/Admin.tsx:137-141 | the profiles the search matches, in the original order, and every matching position of the list is kept |
| Admin.FilterCounts | src/pages/Admin.tsx:137-141 | a matching profile is listed exactly as many times as it occurs in the list, and any other profile not at all |
| Admin.Matches | src/pages/Admin.tsx:139-140 | an empty search matches every profile, and a profile without email and name matches only the empty search |
| Admin.FilteredMembers | src/pages/Admin.tsx:137-141 | a profile is listed exactly when it is in the list and the search matches it |
| Admin.FilterKeepsMatching | src/pages/Admin.tsx:137-141 | a list whose every profile matches is kept whole |
| Admin.EmptySearchKeepsAll | src/pages/Admin.tsx:137-141 | an empty search lists every profile |
| Admin.AnonymousProfile | src/pages/Admin.tsx:139-140 | a profile without email and name matches only the empty search |
| Admin.FilterIdempotent | src/pages/Admin.tsx:137-141 | filtering the result again changes nothing |
| Admin.SearchIgnoresCase | src/pages/Admin.tsx:139-140 | a lower-cased search lists the same profiles |
| Admin.FilterNarrows | src/pages/Admin.tsx:137-141 | a search containing another lists a subsequence of the other's result |
| Admin.TypingNarrows | src/pages/Admin.tsx:137-141 | typing one more character never brings a profile back |
| Admin.StatusBadgeSpec | src/pages/Admin.tsx:143-150 | "active" and "cancelled" have their own styles, and every other status gets the expired style |
| Admin.StatusBadge | src/pages/Admin.tsx:143-150 | "active" and "cancelled" get their own styles, and the expired style is returned exactly for every other status |
| GeneratePlan.FactorLines | supabase/functions/generate-plan/index.ts:81-82 | one line per factor, in order |
| GeneratePlan.MainFactorsText | supabase/functions/generate-plan/index.ts:81-83 | no factors give the empty text; factor names without line breaks give a text that splits back into one line per factor |
| GeneratePlan.MainFactorsLines | supabase/functions/generate-plan/index.ts:81-83 | with names free of line breaks, the text splits back into one line per factor, numbered from 1 |
| GeneratePlan.FactorLineHasNoBreak | supabase/functions/generate-plan/index.ts:82 | a line for a name without line breaks has none |
| GeneratePlan.FactorLineStart | supabase/functions/generate-plan/index.ts:82 | each line starts with its number, ". " and the factor's name |
| GeneratePlan.NoFactorsNoText | supabase/functions/generate-plan/index.ts:81-83 | no factors give the empty text |
| GeneratePlan.Strip | supabase/functions/generate-plan/index.ts:213-215 | deleting every occurrence of the fence, and a line break after it, leaves a subsequence of the reply |
| GeneratePlan.StripAbsent | supabase/functions/generate-plan/index.ts:213-215 | text without the pattern is unchanged |
| GeneratePlan.StripLeavesNoFence | supabase/functions/generate-plan/index.ts:213-215 | after deletion no fence remains, even where deletions bring backticks together |
| GeneratePlan.NoDoubleTick | supabase/functions/generate-plan/index.ts:213-215 | deletion cannot create a leading double backtick |
| GeneratePlan.Unfenced | supabase/functions/generate-plan/index.ts:211-216 | the unfenced reply is a subsequence of the reply with no fence; a reply without fences is unchanged |
| GeneratePlan.JsonText | supabase/functions/generate-plan/index.ts:211-218 | the text given to `JSON.parse` holds no fence; a fence-free reply is only trimmed |
| GeneratePlan.TrimAddsNothing | supabase/functions/generate-plan/index.ts:218 | trimming cannot create an occurrence |
| GeneratePlan.JsonBlockRoundTrip | supabase/functions/generate-plan/index.ts:210-218 | a backtick-free body wrapped in a "```json" block comes out as the body, trimmed |
| GeneratePlan.OpenerStripped | supabase/functions/generate-plan/index.ts:213 | the first pass removes the opener and its line break, and leaves the closing fence |
| GeneratePlan.StripKeeps | supabase/functions/generate-plan/index.ts:213-215 | backtick-free text passes through the deletion untouched |
| GeneratePlan.FromStored | supabase/functions/generate-plan/index.ts:273-278 | missing lists become empty, and a missing or empty risk level becomes "medio"; everything else is copied |
| GeneratePlan.StoredRoundTrip | supabase/functions/generate-plan/index.ts:273-278 | the row the quiz page stores comes back unchanged |
| GeneratePlan.Stored | src/pages/Test.tsx:136-142 | the row the quiz page inserts reads back, through the defaults, as exactly the profile it stored |
| GeneratePlan.LoadTestData | supabase/functions/generate-plan/index.ts:236-279 | no user id is an error; otherwise the provided data wins, then the stored row; with neither, "no test answers" |
| GeneratePlan.UserName | supabase/functions/generate-plan/index.ts:251 | the profile's name when it is non-empty, otherwise a non-empty default |
| GeneratePlan.TrackerRows | supabase/functions/generate-plan/index.ts:316-321 | the first five habits, as undone rows of the current week |
| GeneratePlan.FreshTrackerProgress | supabase/functions/generate-plan/index.ts:316-321 | the dashboard shows the new rows at 0% |
| PlanHtml.PriorityLabelSpec | src/lib/generatePlanHtml.ts:47-53 | "high" and "medium" get their own labels; any other value is labelled low |
| PlanHtml.PriorityLabel | src/lib/generatePlanHtml.ts:47-53 | the high label exactly for "high", the medium label exactly for "medium", and the low label for anything else |
| PlanHtml.ConcatAt | src/lib/generatePlanHtml.ts:122-131 | each card sits between the cards before and after it |
| PlanHtml.ConcatContains | src/lib/generatePlanHtml.ts:122-131 | every element's card is in the joined text |
| PlanHtml.CatBlank | src/lib/generatePlanHtml.ts:150-174 | emptying a piece leaves the page unchanged exactly when the piece was empty |
| PlanHtml.TitleAndName | src/lib/generatePlanHtml.ts:65-116 | the title is in the window title and in the header, and the user's name is in the header and the footer |
| PlanHtml.ListsShown | src/lib/generatePlanHtml.ts:122-174 | every rendered list is pasted into the page whole |
| PlanHtml.PhaseCards | src/lib/generatePlanHtml.ts:122-131 | every phase has its card on the page |
| PlanHtml.PhaseCardLists | src/lib/generatePlanHtml.ts:123-131 | a phase card lists every goal and key action |
| PlanHtml.HabitCards | src/lib/generatePlanHtml.ts:137-146 | every habit has its card on the page |
| PlanHtml.HabitTags | src/lib/generatePlanHtml.ts:141-145 | a habit card shows its frequency, category and priority label as tags |
| PlanHtml.ExamplesShownIffAny | src/lib/generatePlanHtml.ts:157-161 | a tip's examples change its card exactly when there are some, and each is listed |
| PlanHtml.NutritionSectionShows | src/lib/generatePlanHtml.ts:150-163 | the section is empty exactly without tips; otherwise it has the heading and every tip |
| PlanHtml.NutritionShownIffAny | src/lib/generatePlanHtml.ts:150-163 | the nutrition tips change the page exactly when there are some, and then every tip is on it |
| PlanHtml.PsychologySectionShows | src/lib/generatePlanHtml.ts:165-174 | the section is empty exactly without techniques; otherwise it has the heading and every technique |
| PlanHtml.PsychologyShownIffAny | src/lib/generatePlanHtml.ts:165-174 | the techniques change the page exactly when there are some, and then every technique is on it |
| PlanHtml.RenderShowsTitleAndName | src/lib/generatePlanHtml.ts:60-181 | a rendered page shows the title and the user's name |
| PlanHtml.GeneratePlanHtml | src/lib/generatePlanHtml.ts:55-182 | the exported page shows the plan's title in the window title and the header, and the user's name in the header and the footer |
| PlanHtml.RenderBlank | src/lib/generatePlanHtml.ts:150-174 | an empty nutrition or psychology block leaves no trace on the page |

## Left out

- I/O: the database, authentication, Stripe, the AI gateway, email, `localStorage`, navigation, toasts and loading flags are left out. Their outcomes enter as parameters: sign-up success, update success, the stored row, the AI reply text.
- The clock and the locale are parameters. Elapsed milliseconds, day numbers and the formatted creation date are passed in; `differenceInDays` and `toLocaleDateString` are not modelled.
- The prompt text is not modelled beyond the factor list. This covers `toUpperCase` of the risk level and the `profileScores` lines. The AI call and `JSON.parse` are not modelled either; the model stops at the text handed to the parser.
- Saving the plan and its `habits` insert are left out, as is `downloadPlanAsHtml` (DOM); only the rows built are modelled.
- The style sheet of the HTML export is a parameter. It is a fixed text the model does not reason about. Nothing is HTML-escaped, as in the source.
- Question texts, option labels and helper texts are left out, as are the categories' descriptions and the page layout; they carry no logic.
- Scoring.ScoreAll: an answered category with no score (an empty bucket) is a failure here, not an entry. The code builds an entry with score NaN and level "bajo", since `NaN >= 70` and `NaN >= 40` are both false. The mean of the scores is then NaN, so the risk band is "bajo" too. The sort comparator returns NaN for that entry, which the sort treats as 0. The resulting order is determined when every other entry has the same score, and depends on the JavaScript engine's sort algorithm when the other scores differ. The model does not represent NaN scores, so it reports the category instead. For example, answering only question 3 with the number 7 gives the code a one-entry profile with score NaN, and the model `Failure(UnscoredCategory("deficit_calorico"))`.
- Text.Lower: lower-casing covers Basic Latin and Latin-1 only, not the rest of Unicode. Strings are sequences of code points, not UTF-16 units.
- An answer that is a JSON object, boolean or null is a single `Other` case. Object-prototype keys (such as "constructor") are not modelled, neither in the lookup tables nor in the plain object `categoryScores` (Test.tsx:21), where such a category would make `!categoryScores[c]` false and the `.push` at Test.tsx:27-34 throw; no catalog category is such a key.
- CreateCheckout.CentsOfWholeEuros: exact only for whole euros; all prices on the page are whole euros.
- TestPage.Selected: a stored non-list answer to the multiple-choice question is read as an empty selection (in the source a string would be searched and spread, a number would throw); the page itself only stores lists there.
- Scoring.Score: buckets are kept in insertion order for any catalog. JavaScript lists object keys in insertion order only for keys that are not array indices, such as "7"; `Questions.CategoryKeysAreNotIndices` shows the catalog's keys are not, so the order is exact for the real catalog only.
- TestPage.Press: double clicks, concurrent submissions and the `isSubmitting` flag are not modelled.
- Dashboard.ToggleHabit: one toggle at a time. The page updates the list from `prev` (Dashboard.tsx:237) but computes `weekProgress` from the `habits` of the render that started the request (Dashboard.tsx:241), so two toggles inside one round trip can leave a percentage that disagrees with the list; the model has no such interleaving.
- ProgressBar.Percentage: the result is the exact rounding of 100·value/max, not of the double `value / max * 100`. At some half points the double falls just below .5: for value 57 and max 200 the page computes 28.499999999999996 and shows 28 where the model gives 29 (likewise 23/40 and 29/200). No pair with max 30 differs, so the quiz's bar (Test.tsx:159) is unaffected.
- The phase number is printed with `Text.IntToString`. JavaScript's formatting of non-integer numbers is not modelled.
