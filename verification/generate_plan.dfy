/** The plan-generation function's pure parts: the factor list put in the prompt, the
    cleaning of the model's reply before it is parsed, the defaults for a stored test, and
    the habit-tracker rows created with the plan. */
module GeneratePlan {
  import opened Wrappers
  import Text
  import opened Ranking
  import Scoring
  import TestPage
  import PlanData
  import Dashboard

  // ---------------------------------------------------------------------------
  // The factor list of the prompt.

  /** Line `i` (from 0) of `mainFactorsText`. */
  function FactorLine(i: nat, f: CategoryScore): string {
    Text.IntToString(i + 1) + ". " + f.name + " (puntuación: " + Text.IntToString(f.score) + "/100)"
  }

  function FactorLines(fs: seq<CategoryScore>): (r: seq<string>)
    ensures |r| == |fs|
    ensures forall i :: 0 <= i < |fs| ==> r[i] == FactorLine(i, fs[i])
  {
    seq(|fs|, i requires 0 <= i < |fs| => FactorLine(i, fs[i]))
  }

  /** `mainFactorsText`: the numbered lines joined by newlines. With factor names free of
      line breaks the text splits back into exactly those lines. */
  function MainFactorsText(fs: seq<CategoryScore>): (r: string)
    ensures |fs| == 0 ==> r == ""
    ensures |fs| > 0 && (forall k :: 0 <= k < |fs| ==> NoBreak(fs[k].name)) ==> Text.Split(r, '\n') == FactorLines(fs)
  {
    JoinSplits(fs);
    Text.Join(FactorLines(fs), "\n")
  }

  lemma {:induction false} JoinSplits(fs: seq<CategoryScore>)
    ensures |fs| > 0 && (forall k :: 0 <= k < |fs| ==> NoBreak(fs[k].name)) ==>
      Text.Split(Text.Join(FactorLines(fs), "\n"), '\n') == FactorLines(fs)
  {
    if |fs| > 0 && (forall k :: 0 <= k < |fs| ==> NoBreak(fs[k].name)) {
      var lines := FactorLines(fs);
      forall k | 0 <= k < |lines|
        ensures NoBreak(lines[k])
      {
        FactorLineHasNoBreak(k, fs[k]);
      }
      Text.SplitJoin(lines, '\n');
    }
  }

  /** Factor names without line breaks give one line per factor, numbered from 1 in order:
      splitting the text at its newlines gives the lines back. */
  lemma {:induction false} MainFactorsLines(fs: seq<CategoryScore>)
    requires |fs| > 0
    requires forall k :: 0 <= k < |fs| ==> NoBreak(fs[k].name)
    ensures Text.Split(MainFactorsText(fs), '\n') == FactorLines(fs)
    ensures forall i :: 0 <= i < |fs| ==>
      Text.StartsWith(FactorLines(fs)[i], Text.IntToString(i + 1) + ". " + fs[i].name + " ")
  {
    var lines := FactorLines(fs);
    forall i | 0 <= i < |fs|
      ensures Text.StartsWith(lines[i], Text.IntToString(i + 1) + ". " + fs[i].name + " ")
    {
      FactorLineStart(i, fs[i]);
    }
  }

  predicate NoBreak(s: string) {
    forall j :: 0 <= j < |s| ==> s[j] != '\n'
  }

  lemma {:induction false} NoBreakConcat(a: string, b: string)
    requires NoBreak(a) && NoBreak(b)
    ensures NoBreak(a + b)
  {
    assert forall j :: |a| <= j < |a + b| ==> (a + b)[j] == b[j - |a|];
  }

  lemma {:induction false} FactorLineHasNoBreak(i: nat, f: CategoryScore)
    requires NoBreak(f.name)
    ensures NoBreak(FactorLine(i, f))
  {
    var a := Text.IntToString(i + 1);
    var b := Text.IntToString(f.score);
    NoBreakConcat(a, ". ");
    NoBreakConcat(a + ". ", f.name);
    NoBreakConcat(a + ". " + f.name, " (puntuación: ");
    NoBreakConcat(a + ". " + f.name + " (puntuación: ", b);
    NoBreakConcat(a + ". " + f.name + " (puntuación: " + b, "/100)");
  }

  lemma {:induction false} FactorLineStart(i: nat, f: CategoryScore)
    ensures Text.StartsWith(FactorLine(i, f), Text.IntToString(i + 1) + ". " + f.name + " ")
  {
    var p := Text.IntToString(i + 1) + ". " + f.name + " ";
    assert FactorLine(i, f) == p + "(puntuación: " + Text.IntToString(f.score) + "/100)";
  }

  /** No factors, no text. */
  lemma {:induction false} NoFactorsNoText()
    ensures MainFactorsText([]) == ""
  {
  }

  // ---------------------------------------------------------------------------
  // Cleaning the model's reply.

  const Fence: string := "```"
  const JsonFence: string := "```json"

  /** `s.replace(/<pat>\n?/g, "")` for a literal pattern: every occurrence found scanning
      left to right is deleted, with the line break right after it if there is one. */
  function Strip(s: string, pat: string): (r: string)
    requires |pat| > 0
    ensures Text.IsSubsequence(r, s)
    decreases |s|
  {
    if |s| == 0 then ""
    else if Text.StartsWith(s, pat) then
      var k := if |pat| < |s| && s[|pat|] == '\n' then |pat| + 1 else |pat|;
      var r := Strip(s[k..], pat);
      Text.SubsequenceDrop(r, s, k);
      r
    else
      var rest := Strip(s[1..], pat);
      assert ([s[0]] + rest)[1..] == rest;
      [s[0]] + rest
  }

  /** Text without the pattern is left alone. */
  lemma {:induction false} StripAbsent(s: string, pat: string)
    requires |pat| > 0 && !Text.Contains(s, pat)
    ensures Strip(s, pat) == s
    decreases |s|
  {
    if |s| > 0 {
      StripAbsent(s[1..], pat);
      assert [s[0]] + s[1..] == s;
    }
  }

  /** Deleting the fences leaves no fence behind, even where deletions bring backticks
      together. */
  lemma {:induction false} StripLeavesNoFence(s: string)
    ensures !Text.Contains(Strip(s, Fence), Fence)
    decreases |s|
  {
    if |s| == 0 {
      Text.ContainsInEmpty(Fence);
    } else if Text.StartsWith(s, Fence) {
      var k := if |Fence| < |s| && s[|Fence|] == '\n' then |Fence| + 1 else |Fence|;
      StripLeavesNoFence(s[k..]);
    } else {
      var rest := Strip(s[1..], Fence);
      StripLeavesNoFence(s[1..]);
      if s[0] == '`' {
        assert !Text.StartsWith(s[1..], "``");
        NoDoubleTick(s[1..]);
      }
      assert !Text.StartsWith([s[0]] + rest, Fence);
      assert ([s[0]] + rest)[1..] == rest;
    }
  }

  /** Text that does not start with two backticks does not start with two after stripping. */
  lemma {:induction false} NoDoubleTick(t: string)
    requires !Text.StartsWith(t, "``")
    ensures !Text.StartsWith(Strip(t, Fence), "``")
  {
    if |t| > 0 && t[0] != '`' {
      assert !Text.StartsWith(t, Fence);
    } else if |t| > 0 {
      assert !Text.StartsWith(t, Fence);
      if |t| > 1 {
        assert !Text.StartsWith(t[1..], Fence);
      }
    }
  }

  /** The reply with its code fences deleted: the "```json" branch first deletes the
      "```json" openers, then both branches delete the bare fences. */
  function Unfenced(content: string): (r: string)
    ensures Text.IsSubsequence(r, content)
    ensures !Text.Contains(r, Fence)
    ensures !Text.Contains(content, Fence) ==> r == content
  {
    if Text.Contains(content, JsonFence) then
      var once := Strip(content, JsonFence);
      Text.ContainsAt(JsonFence, Fence, 0);
      Text.ContainsTrans(content, JsonFence, Fence);
      StripLeavesNoFence(once);
      Text.SubsequenceTrans(Strip(once, Fence), once, content);
      Strip(once, Fence)
    else if Text.Contains(content, Fence) then
      StripLeavesNoFence(content);
      Strip(content, Fence)
    else
      Text.SubsequenceRefl(content);
      content
  }

  /** The text handed to `JSON.parse`: the unfenced reply, trimmed. It holds no fence, and
      a reply without fences is only trimmed. */
  function JsonText(content: string): (r: string)
    ensures !Text.Contains(r, Fence)
    ensures !Text.Contains(content, Fence) ==> r == Text.Trim(content)
  {
    var u := Unfenced(content);
    TrimAddsNothing(u, Fence);
    Text.Trim(u)
  }

  /** Trimming cannot create an occurrence. */
  lemma {:induction false} TrimAddsNothing(u: string, needle: string)
    ensures Text.Contains(Text.Trim(u), needle) ==> Text.Contains(u, needle)
  {
    var r := Text.Trim(u);
    if Text.Contains(r, needle) {
      var t := Text.TrimStart(u);
      var i := |u| - |t|;
      assert t == u[i..] && r == t[..|r|];
      assert r == u[i..i + |r|];
      Text.ContainsAt(u, r, i);
      Text.ContainsTrans(u, r, needle);
    }
  }

  /** A fence-free reply wrapped in a "```json" block comes out as the reply, trimmed. */
  lemma {:induction false} JsonBlockRoundTrip(body: string)
    requires forall i :: 0 <= i < |body| ==> body[i] != '`'
    ensures JsonText(JsonFence + "\n" + body + "\n" + Fence) == Text.Trim(body + "\n")
  {
    var text := body + "\n";
    var content := JsonFence + "\n" + body + "\n" + Fence;
    assert content == JsonFence + "\n" + text + Fence;
    OpenerFound(content, "\n" + text + Fence);
    assert Unfenced(content) == Strip(Strip(content, JsonFence), Fence);
    OpenerStripped(text);
    StripKeeps(text, Fence, Fence);
    FenceStripped();
    assert Strip(text + Fence, Fence) == text;
  }

  lemma {:induction false} OpenerFound(content: string, rest: string)
    requires content == JsonFence + rest
    ensures Text.Contains(content, JsonFence)
  {
    Text.ContainsInside("", JsonFence, rest);
    assert "" + JsonFence + rest == content;
  }

  /** The opener and its line break go; the closing fence is left for the second pass. */
  lemma {:induction false} OpenerStripped(text: string)
    requires forall i :: 0 <= i < |text| ==> text[i] != '`'
    ensures Strip(JsonFence + "\n" + text + Fence, JsonFence) == text + Fence
  {
    var content := JsonFence + "\n" + text + Fence;
    assert Text.StartsWith(content, JsonFence);
    assert content[|JsonFence|] == '\n';
    assert content[|JsonFence| + 1..] == text + Fence;
    StripKeeps(text, Fence, JsonFence);
    FenceKeptByOpenerPass();
  }

  lemma {:induction false} FenceKeptByOpenerPass()
    ensures Strip(Fence, JsonFence) == Fence
  {
    assert !Text.StartsWith(Fence, JsonFence);
    assert !Text.StartsWith(Fence[1..], JsonFence);
    assert !Text.StartsWith(Fence[2..], JsonFence);
    assert Fence[1..][1..] == Fence[2..] && Fence[2..][1..] == "";
    assert Strip(Fence[2..], JsonFence) == Fence[2..];
  }

  lemma {:induction false} FenceStripped()
    ensures Strip(Fence, Fence) == ""
  {
    assert Text.StartsWith(Fence, Fence) && Fence[3..] == "";
  }

  /** Text without backticks passes through the scan untouched, whatever follows it. */
  lemma {:induction false} StripKeeps(s: string, tail: string, pat: string)
    requires |pat| > 0 && pat[0] == '`'
    requires forall i :: 0 <= i < |s| ==> s[i] != '`'
    ensures Strip(s + tail, pat) == s + Strip(tail, pat)
    decreases |s|
  {
    if |s| > 0 {
      var rest := s[1..] + tail;
      assert s + tail == [s[0]] + rest;
      StripCons(s[0], rest, pat);
      assert forall i :: 0 <= i < |s[1..]| ==> s[1..][i] == s[i + 1];
      StripKeeps(s[1..], tail, pat);
      HeadThenRest(s, Strip(tail, pat));
    } else {
      assert s + tail == tail;
    }
  }

  lemma {:induction false} HeadThenRest(s: string, t: string)
    requires |s| > 0
    ensures [s[0]] + (s[1..] + t) == s + t
  {
    assert s == [s[0]] + s[1..];
  }

  /** A first character other than the pattern's is kept. */
  lemma {:induction false} StripCons(c: char, rest: string, pat: string)
    requires |pat| > 0 && c != pat[0]
    ensures Strip([c] + rest, pat) == [c] + Strip(rest, pat)
  {
    var u := [c] + rest;
    assert !Text.StartsWith(u, pat);
    assert u[0] == c && u[1..] == rest;
  }

  // ---------------------------------------------------------------------------
  // Loading the test.

  /** The quiz data the prompt is built from. */
  datatype TestData = TestData(answers: Scoring.Answers, profileScores: seq<CategoryScore>, riskLevel: string, mainFactors: seq<CategoryScore>)

  /** The newest `test_answers` row; its columns may be null. */
  datatype StoredAnswers = StoredAnswers(
    answers: Scoring.Answers, profileScores: Option<seq<CategoryScore>>,
    riskLevel: Option<string>, mainFactors: Option<seq<CategoryScore>>)

  /** `x || default` on the row: missing lists become empty and a missing or empty risk
      level becomes "medio". */
  function FromStored(s: StoredAnswers): (r: TestData)
    ensures r.answers == s.answers
    ensures s.profileScores.Some? ==> r.profileScores == s.profileScores.value
    ensures s.profileScores.None? ==> r.profileScores == []
    ensures r.riskLevel != ""
    ensures s.riskLevel.Some? && s.riskLevel.value != "" ==> r.riskLevel == s.riskLevel.value
    ensures s.mainFactors.Some? ==> r.mainFactors == s.mainFactors.value
    ensures s.mainFactors.None? ==> r.mainFactors == []
  {
    TestData(s.answers, s.profileScores.GetOr([]),
      if s.riskLevel.None? || s.riskLevel.value == "" then "medio" else s.riskLevel.value,
      s.mainFactors.GetOr([]))
  }

  /** The row the quiz page inserts on submission. */
  function Stored(answers: Scoring.Answers, p: TestPage.StoredProfile): (r: StoredAnswers)
    ensures FromStored(r) == TestData(answers, p.scores, LevelName(p.risk), p.mainFactors)
  {
    StoredAnswers(answers, Some(p.scores), Some(LevelName(p.risk)), Some(p.mainFactors))
  }

  /** What the quiz page stores comes back unchanged: no default applies. */
  lemma {:induction false} StoredRoundTrip(answers: Scoring.Answers, p: TestPage.StoredProfile)
    ensures FromStored(Stored(answers, p)) == TestData(answers, p.scores, LevelName(p.risk), p.mainFactors)
  {
  }

  /** The error the function reports. */
  datatype LoadError = UserIdRequired | NoTestAnswers

  /** The request's `userId`, its optional test data and the stored row decide what the
      plan is built from. A missing or empty `userId` fails before anything else. */
  function LoadTestData(userId: Option<string>, provided: Option<TestData>, stored: Option<StoredAnswers>): (r: Result<TestData, LoadError>)
    ensures userId.None? || userId.value == "" ==> r == Failure(UserIdRequired)
    ensures r == Failure(NoTestAnswers) <==> userId.Some? && userId.value != "" && provided.None? && stored.None?
    ensures r.Success? && provided.Some? ==> r.value == provided.value
    ensures r.Success? && provided.None? ==> stored.Some? && r.value == FromStored(stored.value)
  {
    if userId.None? || userId.value == "" then Failure(UserIdRequired)
    else if provided.Some? then Success(provided.value)
    else if stored.None? then Failure(NoTestAnswers)
    else Success(FromStored(stored.value))
  }

  /** `profile?.full_name || "Usuario"`. */
  function UserName(fullName: Option<string>): (r: string)
    ensures r != ""
    ensures fullName.Some? && fullName.value != "" ==> r == fullName.value
  {
    if fullName.None? || fullName.value == "" then "Usuario" else fullName.value
  }

  // ---------------------------------------------------------------------------
  // The habit-tracker rows.

  /** `habits.slice(0, 5)` as tracker rows of the current week, none done. */
  function TrackerRows(habits: seq<PlanData.PlanHabit>, week: int): (r: seq<Dashboard.NewHabit>)
    ensures |r| == if |habits| < 5 then |habits| else 5
    ensures forall i :: 0 <= i < |r| ==> r[i] == Dashboard.NewHabit(habits[i].title, false, week)
  {
    var n := if |habits| < 5 then |habits| else 5;
    seq(n, i requires 0 <= i < n => Dashboard.NewHabit(habits[i].title, false, week))
  }

  /** Once the database has given the rows ids, the dashboard shows the new week at 0%. */
  lemma {:induction false} FreshTrackerProgress(habits: seq<PlanData.PlanHabit>, week: int, ids: seq<string>)
    requires |ids| == |TrackerRows(habits, week)| > 0
    ensures var rows := TrackerRows(habits, week);
      Dashboard.WeekProgress(seq(|ids|, i requires 0 <= i < |ids| => Dashboard.Habit(ids[i], rows[i].name, rows[i].completed, rows[i].week)))
        == Some(0.0)
  {
  }
}
