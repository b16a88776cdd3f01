/** The plan export: the stand-alone HTML page the client area downloads. The formatted
    creation date is an input. Every field is pasted into the page as it is, without
    escaping. */
module PlanHtml {
  import Text
  import opened PlanData

  const HighLabel := "🔴 Alta"
  const MediumLabel := "🟡 Media"
  const LowLabel := "🟢 Baja"

  /** `priorityLabel`: each known priority has its own label, anything else reads as low. */
  function PriorityLabel(p: string): (r: string)
    ensures r == HighLabel <==> p == "high"
    ensures r == MediumLabel <==> p == "medium"
    ensures r == LowLabel <==> p != "high" && p != "medium"
  {
    assert HighLabel[0] != LowLabel[0] && MediumLabel[0] != LowLabel[0] && HighLabel[0] != MediumLabel[0];
    if p == "high" then HighLabel else if p == "medium" then MediumLabel else LowLabel
  }

  /** The two known priorities have labels of their own; any other value, "low" or not,
      reads as low. */
  lemma {:induction false} PriorityLabelSpec(p: string)
    ensures PriorityLabel(p) == PriorityLabel("low") <==> p != "high" && p != "medium"
    ensures PriorityLabel("high") != PriorityLabel("medium")
    ensures PriorityLabel("low") == "🟢 Baja"
  {
    assert PriorityLabel("high")[0] != PriorityLabel("low")[0];
    assert PriorityLabel("medium")[0] != PriorityLabel("low")[0];
    assert PriorityLabel("high")[0] != PriorityLabel("medium")[0];
  }

  // ---------------------------------------------------------------------------
  // Lists.

  /** `xs.map(f).join("")`. */
  function Concat<T>(xs: seq<T>, f: T -> string): (r: string)
    ensures |xs| == 0 ==> r == ""
    decreases |xs|
  {
    if |xs| == 0 then "" else f(xs[0]) + Concat(xs[1..], f)
  }

  /** Element i's text sits between the texts of the elements before and after it. */
  lemma {:induction false} ConcatAt<T>(xs: seq<T>, f: T -> string, i: nat)
    requires i < |xs|
    ensures Concat(xs, f) == Concat(xs[..i], f) + f(xs[i]) + Concat(xs[i + 1..], f)
    decreases i
  {
    if i == 0 {
      assert xs[..0] == [];
    } else {
      ConcatAt(xs[1..], f, i - 1);
      assert xs[1..][..i - 1] == xs[1..i];
      assert xs[1..][i - 1] == xs[i];
      assert xs[1..][i..] == xs[i + 1..];
      assert xs[..i][0] == xs[0] && xs[..i][1..] == xs[1..i];
    }
  }

  /** Every element's text appears in the joined text. */
  lemma {:induction false} ConcatContains<T>(xs: seq<T>, f: T -> string, i: nat)
    requires i < |xs|
    ensures Text.Contains(Concat(xs, f), f(xs[i]))
  {
    ConcatAt(xs, f, i);
    Text.ContainsInside(Concat(xs[..i], f), f(xs[i]), Concat(xs[i + 1..], f));
  }

  /** A template: its literal pieces and interpolated values, in order, joined. */
  function Cat(parts: seq<string>): string
    decreases |parts|
  {
    if |parts| == 0 then "" else parts[0] + Cat(parts[1..])
  }

  lemma {:induction false} CatAppend(a: seq<string>, b: seq<string>)
    ensures Cat(a + b) == Cat(a) + Cat(b)
    decreases |a|
  {
    if |a| == 0 {
      assert a + b == b;
    } else {
      assert (a + b)[0] == a[0] && (a + b)[1..] == a[1..] + b;
      CatAppend(a[1..], b);
    }
  }

  /** Any run of consecutive pieces appears in the template's text. */
  lemma {:induction false} CatContains(parts: seq<string>, i: nat, j: nat)
    requires i <= j <= |parts|
    ensures Text.Contains(Cat(parts), Cat(parts[i..j]))
  {
    assert parts == parts[..i] + parts[i..j] + parts[j..];
    CatAppend(parts[..i] + parts[i..j], parts[j..]);
    CatAppend(parts[..i], parts[i..j]);
    Text.ContainsInside(Cat(parts[..i]), Cat(parts[i..j]), Cat(parts[j..]));
  }

  lemma {:induction false} CatOne(a: string)
    ensures Cat([a]) == a
  {
    assert [a][1..] == [];
  }

  lemma {:induction false} CatThree(a: string, b: string, c: string)
    ensures Cat([a, b, c]) == a + b + c
  {
    CatOne(c);
    assert [b, c][1..] == [c];
    assert [a, b, c][1..] == [b, c];
  }

  /** The middle of three pieces appears. */
  lemma {:induction false} Middle(a: string, b: string, c: string)
    ensures Text.Contains(Cat([a, b, c]), b)
  {
    CatThree(a, b, c);
    Text.ContainsInside(a, b, c);
  }

  /** Emptying one piece leaves the text unchanged exactly when the piece was empty. */
  lemma {:induction false} CatBlank(parts: seq<string>, i: nat)
    requires i < |parts|
    ensures Cat(parts[i := ""]) == Cat(parts) <==> parts[i] == ""
  {
    var blank := parts[i := ""];
    assert parts == parts[..i] + [parts[i]] + parts[i + 1..];
    assert blank == parts[..i] + [""] + parts[i + 1..];
    CatAppend(parts[..i] + [parts[i]], parts[i + 1..]);
    CatAppend(parts[..i], [parts[i]]);
    CatAppend(parts[..i] + [""], parts[i + 1..]);
    CatAppend(parts[..i], [""]);
    CatOne(parts[i]);
    CatOne("");
    assert |Cat(blank)| + |parts[i]| == |Cat(parts)|;
  }

  function Item(x: string): string {
    "<li>" + x + "</li>"
  }

  // ---------------------------------------------------------------------------
  // Cards.

  const PhaseOpen: string := "\n    <div class=\"phase-card\">\n      <h3>Fase "
  const PhaseDuration: string := "</h3>\n      <div class=\"duration\">"
  const PhaseText: string := "</div>\n      <p>"
  const PhaseGoals: string := "</p>\n      <div class=\"goals-label\">🎯 Objetivos</div>\n      <ul>"
  const PhaseActions: string :=
    "</ul>\n      <div class=\"actions-label\" style=\"margin-top:14px\">⚡ Acciones Clave</div>\n      <ul>"
  const PhaseClose: string := "</ul>\n    </div>"

  function PhaseCard(ph: Phase): string {
    Cat([PhaseOpen, Text.IntToString(ph.phase), ": ", ph.title, PhaseDuration, ph.duration, PhaseText, ph.description,
         PhaseGoals, Concat(ph.goals, Item), PhaseActions, Concat(ph.keyActions, Item), PhaseClose])
  }

  function HabitCard(h: PlanHabit): string {
    Cat(["\n      <div class=\"habit-card\">\n        <h4>", h.title, "</h4>\n        <p>", h.description,
         "</p>\n        <div class=\"habit-tags\">\n          ",
         "<span class=\"tag\">", h.frequency, "</span>", "\n          ",
         "<span class=\"tag\">", h.category, "</span>", "\n          ",
         "<span class=\"tag priority\">", PriorityLabel(h.priority), "</span>",
         "\n        </div>\n      </div>"])
  }

  /** `tip.examples?.length ? … : ""`. */
  function ExamplesBlock(examples: seq<string>): string {
    if |examples| > 0 then
      Cat(["\n      <div class=\"examples\">\n        <strong>Ejemplos:</strong>\n        <ul>", Concat(examples, Item),
           "</ul>\n      </div>"])
    else ""
  }

  function TipCard(t: NutritionTip): string {
    Cat(["\n    <div class=\"tip-card\">\n      <h4>", t.title, "</h4>\n      <p>", t.description, "</p>\n      ",
         ExamplesBlock(t.examples), "\n    </div>"])
  }

  function PsychCard(t: PsychologyTip): string {
    Cat(["\n    <div class=\"psych-card\">\n      <span class=\"technique\">", t.technique, "</span>\n      <h4>",
         t.title, "</h4>\n      <p>", t.description, "</p>\n    </div>"])
  }

  // ---------------------------------------------------------------------------
  // The page.

  /** The document head up to the title. */
  const Doctype: string := @"<!DOCTYPE html>
<html lang=""es"">
<head>
<meta charset=""UTF-8"">
<meta name=""viewport"" content=""width=device-width, initial-scale=1.0"">
"

  /** The rest of the head, the style sheet, and the opening of the header. */
  const Style: string := @"
<style>
  @import url('https://fonts.googleapis.com/css2?family=Inter:wght@400;500;600;700&display=swap');
  * { margin: 0; padding: 0; box-sizing: border-box; }
  body { font-family: 'Inter', sans-serif; color: #1a1a2e; background: #f8f9fc; line-height: 1.6; }
  .container { max-width: 800px; margin: 0 auto; padding: 40px 24px; }
  .header { text-align: center; margin-bottom: 48px; padding: 48px 32px; background: linear-gradient(135deg, #6366f1, #8b5cf6); border-radius: 20px; color: white; }
  .header h1 { font-size: 28px; font-weight: 700; margin-bottom: 12px; }
  .header p { opacity: 0.9; font-size: 15px; max-width: 500px; margin: 0 auto 16px; }
  .meta { display: flex; gap: 16px; justify-content: center; flex-wrap: wrap; }
  .meta span { background: rgba(255,255,255,0.2); padding: 4px 14px; border-radius: 20px; font-size: 13px; font-weight: 500; }
  .section { margin-bottom: 40px; }
  .section-title { font-size: 22px; font-weight: 700; margin-bottom: 20px; padding-bottom: 10px; border-bottom: 3px solid #6366f1; display: inline-block; }
  .phase-card { background: white; border-radius: 16px; padding: 28px; margin-bottom: 20px; box-shadow: 0 2px 12px rgba(0,0,0,0.06); border-left: 4px solid #6366f1; }
  .phase-card h3 { font-size: 18px; color: #6366f1; margin-bottom: 4px; }
  .phase-card .duration { font-size: 13px; color: #8b5cf6; font-weight: 600; margin-bottom: 12px; }
  .phase-card p { color: #555; margin-bottom: 16px; }
  .phase-card ul { list-style: none; padding: 0; }
  .phase-card li { padding: 6px 0; padding-left: 24px; position: relative; color: #444; font-size: 14px; }
  .phase-card li::before { content: '✓'; position: absolute; left: 0; color: #22c55e; font-weight: 700; }
  .goals-label, .actions-label { font-size: 14px; font-weight: 600; color: #1a1a2e; margin-bottom: 8px; margin-top: 4px; }
  .habit-grid { display: grid; grid-template-columns: 1fr 1fr; gap: 16px; }
  @media (max-width: 600px) { .habit-grid { grid-template-columns: 1fr; } }
  .habit-card { background: white; border-radius: 14px; padding: 20px; box-shadow: 0 2px 10px rgba(0,0,0,0.05); }
  .habit-card h4 { font-size: 15px; font-weight: 600; margin-bottom: 6px; }
  .habit-card p { font-size: 13px; color: #666; margin-bottom: 10px; }
  .habit-tags { display: flex; gap: 8px; flex-wrap: wrap; }
  .tag { font-size: 11px; padding: 3px 10px; border-radius: 12px; background: #f0f0ff; color: #6366f1; font-weight: 500; }
  .tag.priority { background: #fef3c7; color: #92400e; }
  .tip-card { background: white; border-radius: 14px; padding: 24px; margin-bottom: 16px; box-shadow: 0 2px 10px rgba(0,0,0,0.05); }
  .tip-card h4 { font-size: 16px; font-weight: 600; margin-bottom: 8px; }
  .tip-card p { font-size: 14px; color: #555; margin-bottom: 12px; }
  .examples { background: #f8f9fc; border-radius: 10px; padding: 14px 18px; }
  .examples strong { font-size: 13px; display: block; margin-bottom: 6px; }
  .examples li { font-size: 13px; color: #666; padding: 2px 0; list-style: disc inside; }
  .psych-card { background: white; border-radius: 14px; padding: 24px; margin-bottom: 16px; box-shadow: 0 2px 10px rgba(0,0,0,0.05); }
  .psych-card .technique { display: inline-block; background: #ede9fe; color: #7c3aed; padding: 3px 12px; border-radius: 10px; font-size: 12px; font-weight: 600; margin-bottom: 10px; }
  .psych-card h4 { font-size: 16px; font-weight: 600; margin-bottom: 8px; }
  .psych-card p { font-size: 14px; color: #555; }
  .footer { text-align: center; margin-top: 48px; padding: 24px; color: #999; font-size: 13px; }
</style>
</head>
<body>
<div class=""container"">
  <div class=""header"">
    "

  const NutritionHeading: string := "<h2 class=\"section-title\">🥗 Consejos Nutricionales</h2>"

  /** `plan.nutrition_tips?.length ? … : ""`. */
  function NutritionSection(tips: seq<NutritionTip>): string {
    if |tips| > 0 then Cat(["\n  <div class=\"section\">\n    ", NutritionHeading, "\n    ", Concat(tips, TipCard), "\n  </div>"])
    else ""
  }

  const PsychologyHeading: string := "<h2 class=\"section-title\">🧠 Técnicas Psicológicas</h2>"

  /** `plan.psychology_tips?.length ? … : ""`. */
  function PsychologySection(tips: seq<PsychologyTip>): string {
    if |tips| > 0 then Cat(["\n  <div class=\"section\">\n    ", PsychologyHeading, "\n    ", Concat(tips, PsychCard), "\n  </div>"])
    else ""
  }

  /** The head of the document, with its title, then the style sheet. */
  function HeadPart(doctype: string, style: string, title: string): string {
    Cat([doctype, "<title>", title, "</title>", style])
  }

  function HeaderPart(c: PlanContent, date: string, userName: string): string {
    Cat(["<h1>", c.title, "</h1>", "\n    <p>", c.summary, "</p>\n    <div class=\"meta\">\n      <span>📅 ", date,
         "</span>\n      <span>⏱ ", c.estimatedDuration, "</span>\n      <span>📊 Dificultad: ", c.difficulty,
         "</span>\n      ", "<span>👤 ", userName, "</span>", "\n    </div>\n  </div>\n\n  "])
  }

  /** The phases section around the phase cards. */
  function PhasesBlock(cards: string): string {
    Cat(["<div class=\"section\">\n    <h2 class=\"section-title\">📋 Fases del Plan</h2>\n    ", cards, "\n  </div>\n\n  "])
  }

  /** The habits section around the habit cards. */
  function HabitsBlock(cards: string): string {
    Cat(["<div class=\"section\">\n    <h2 class=\"section-title\">✅ Hábitos Personalizados</h2>\n    <div class=\"habit-grid\">\n      ",
         cards, "\n    </div>\n  </div>\n\n  "])
  }

  function FooterPart(date: string, userName: string): string {
    Cat(["\n\n  <div class=\"footer\">\n    <p>Plan generado el ", date, " · Personalizado para ", userName, "</p>",
         "\n  </div>\n</div>\n</body>\n</html>"])
  }

  /** The page's blocks, in order. */
  function Page(head: string, header: string, phases: string, habits: string, nutrition: string,
                psychology: string, footer: string): (r: seq<string>)
    ensures |r| == 8
  {
    [head, header, phases, habits, nutrition, "\n\n  ", psychology, footer]
  }

  /** The page around already rendered lists (the phase cards, the habit cards, and the
      nutrition and psychology sections), for a given head and style sheet. */
  function Render(doctype: string, style: string, c: PlanContent, userName: string, date: string,
                  phases: string, habits: string, nutrition: string, psychology: string): string
  {
    Cat(Page(HeadPart(doctype, style, c.title), HeaderPart(c, date, userName), PhasesBlock(phases),
             HabitsBlock(habits), nutrition, psychology, FooterPart(date, userName)))
  }

  /** `generatePlanHtml`, with `date` the creation date as the Spanish locale formats it. */
  function GeneratePlanHtml(plan: UserPlan, userName: string, date: string): (r: string)
    ensures Text.Contains(r, "<title>" + plan.content.title + "</title>")
    ensures Text.Contains(r, "<h1>" + plan.content.title + "</h1>")
    ensures Text.Contains(r, "<span>👤 " + userName + "</span>")
    ensures Text.Contains(r, " · Personalizado para " + userName + "</p>")
  {
    RenderShowsTitleAndName(Doctype, Style, plan.content, userName, date,
           Concat(plan.phases, PhaseCard), Concat(plan.habits, HabitCard),
           NutritionSection(plan.nutritionTips), PsychologySection(plan.psychologyTips));
    Render(Doctype, Style, plan.content, userName, date,
           Concat(plan.phases, PhaseCard), Concat(plan.habits, HabitCard),
           NutritionSection(plan.nutritionTips), PsychologySection(plan.psychologyTips))
  }

  // ---------------------------------------------------------------------------
  // What the page shows. The layout is reasoned about for any head, style sheet and
  // rendered lists; the properties of the page itself follow by instantiation.

  /** Three consecutive pieces appear together. */
  lemma {:induction false} PieceRun(parts: seq<string>, i: nat)
    requires i + 3 <= |parts|
    ensures Text.Contains(Cat(parts), parts[i] + parts[i + 1] + parts[i + 2])
  {
    CatContains(parts, i, i + 3);
    assert parts[i..i + 3] == [parts[i], parts[i + 1], parts[i + 2]];
    CatThree(parts[i], parts[i + 1], parts[i + 2]);
  }

  /** One piece appears. */
  lemma {:induction false} Piece(parts: seq<string>, i: nat)
    requires i < |parts|
    ensures Text.Contains(Cat(parts), parts[i])
  {
    CatContains(parts, i, i + 1);
    assert parts[i..i + 1] == [parts[i]];
    CatOne(parts[i]);
  }

  /** A text inside one block of a page is inside the page. */
  lemma {:induction false} InPage(head: string, header: string, phases: string, habits: string, nutrition: string,
                                  psychology: string, footer: string, i: nat, t: string)
    requires i < 8 && Text.Contains(Page(head, header, phases, habits, nutrition, psychology, footer)[i], t)
    ensures Text.Contains(Cat(Page(head, header, phases, habits, nutrition, psychology, footer)), t)
  {
    var p := Page(head, header, phases, habits, nutrition, psychology, footer);
    Piece(p, i);
    Text.ContainsTrans(Cat(p), p[i], t);
  }

  /** Blanking the nutrition block, or the psychology block, leaves a page unchanged exactly
      when that block was already empty. */
  lemma {:induction false} PageBlank(head: string, header: string, phases: string, habits: string, nutrition: string,
                                     psychology: string, footer: string)
    ensures (Cat(Page(head, header, phases, habits, "", psychology, footer)) ==
             Cat(Page(head, header, phases, habits, nutrition, psychology, footer))) <==> nutrition == ""
    ensures (Cat(Page(head, header, phases, habits, nutrition, "", footer)) ==
             Cat(Page(head, header, phases, habits, nutrition, psychology, footer))) <==> psychology == ""
  {
    var p := Page(head, header, phases, habits, nutrition, psychology, footer);
    assert p[4 := ""] == Page(head, header, phases, habits, "", psychology, footer);
    assert p[6 := ""] == Page(head, header, phases, habits, nutrition, "", footer);
    CatBlank(p, 4);
    CatBlank(p, 6);
  }

  lemma {:induction false} HeadShowsTitle(doctype: string, style: string, title: string)
    ensures Text.Contains(HeadPart(doctype, style, title), "<title>" + title + "</title>")
  {
    PieceRun([doctype, "<title>", title, "</title>", style], 1);
  }

  lemma {:induction false} HeaderShowsTitleAndName(c: PlanContent, date: string, userName: string)
    ensures Text.Contains(HeaderPart(c, date, userName), "<h1>" + c.title + "</h1>")
    ensures Text.Contains(HeaderPart(c, date, userName), "<span>👤 " + userName + "</span>")
  {
    var p := ["<h1>", c.title, "</h1>", "\n    <p>", c.summary, "</p>\n    <div class=\"meta\">\n      <span>📅 ", date,
         "</span>\n      <span>⏱ ", c.estimatedDuration, "</span>\n      <span>📊 Dificultad: ", c.difficulty,
         "</span>\n      ", "<span>👤 ", userName, "</span>", "\n    </div>\n  </div>\n\n  "];
    assert HeaderPart(c, date, userName) == Cat(p);
    PieceRun(p, 0);
    PieceRun(p, 12);
  }

  lemma {:induction false} FooterShowsName(date: string, userName: string)
    ensures Text.Contains(FooterPart(date, userName), " · Personalizado para " + userName + "</p>")
  {
    PieceRun(["\n\n  <div class=\"footer\">\n    <p>Plan generado el ", date, " · Personalizado para ", userName, "</p>",
              "\n  </div>\n</div>\n</body>\n</html>"], 2);
  }

  lemma {:induction false} RenderShowsTitleAndName(doctype: string, style: string, c: PlanContent, userName: string, date: string,
                                                   phases: string, habits: string, nutrition: string, psychology: string)
    ensures var html := Render(doctype, style, c, userName, date, phases, habits, nutrition, psychology);
      && Text.Contains(html, "<title>" + c.title + "</title>")
      && Text.Contains(html, "<h1>" + c.title + "</h1>")
      && Text.Contains(html, "<span>👤 " + userName + "</span>")
      && Text.Contains(html, " · Personalizado para " + userName + "</p>")
  {
    var h, hd, ph, hb, f := HeadPart(doctype, style, c.title), HeaderPart(c, date, userName), PhasesBlock(phases),
                            HabitsBlock(habits), FooterPart(date, userName);
    HeadShowsTitle(doctype, style, c.title);
    HeaderShowsTitleAndName(c, date, userName);
    FooterShowsName(date, userName);
    InPage(h, hd, ph, hb, nutrition, psychology, f, 0, "<title>" + c.title + "</title>");
    InPage(h, hd, ph, hb, nutrition, psychology, f, 1, "<h1>" + c.title + "</h1>");
    InPage(h, hd, ph, hb, nutrition, psychology, f, 1, "<span>👤 " + userName + "</span>");
    InPage(h, hd, ph, hb, nutrition, psychology, f, 7, " · Personalizado para " + userName + "</p>");
  }

  lemma {:induction false} ContainsSelf(s: string)
    ensures Text.Contains(s, s)
  {
    assert "" + s + "" == s;
    Text.ContainsInside("", s, "");
  }

  /** Each rendered list is pasted into the page whole. */
  lemma {:induction false} RenderShowsLists(doctype: string, style: string, c: PlanContent, userName: string, date: string,
                                            phases: string, habits: string, nutrition: string, psychology: string)
    ensures var html := Render(doctype, style, c, userName, date, phases, habits, nutrition, psychology);
      Text.Contains(html, phases) && Text.Contains(html, habits) && Text.Contains(html, nutrition) && Text.Contains(html, psychology)
  {
    var h, hd, ph, hb, f := HeadPart(doctype, style, c.title), HeaderPart(c, date, userName), PhasesBlock(phases),
                            HabitsBlock(habits), FooterPart(date, userName);
    Middle("<div class=\"section\">\n    <h2 class=\"section-title\">📋 Fases del Plan</h2>\n    ", phases, "\n  </div>\n\n  ");
    Middle("<div class=\"section\">\n    <h2 class=\"section-title\">✅ Hábitos Personalizados</h2>\n    <div class=\"habit-grid\">\n      ",
           habits, "\n    </div>\n  </div>\n\n  ");
    ContainsSelf(nutrition);
    ContainsSelf(psychology);
    InPage(h, hd, ph, hb, nutrition, psychology, f, 2, phases);
    InPage(h, hd, ph, hb, nutrition, psychology, f, 3, habits);
    InPage(h, hd, ph, hb, nutrition, psychology, f, 4, nutrition);
    InPage(h, hd, ph, hb, nutrition, psychology, f, 6, psychology);
  }

  /** The page drops the nutrition section, or the psychology section, without a trace:
      blanking it leaves the page unchanged exactly when it was already empty. */
  lemma {:induction false} RenderBlank(doctype: string, style: string, c: PlanContent, userName: string, date: string,
                                       phases: string, habits: string, nutrition: string, psychology: string)
    ensures (Render(doctype, style, c, userName, date, phases, habits, "", psychology) ==
             Render(doctype, style, c, userName, date, phases, habits, nutrition, psychology)) <==> nutrition == ""
    ensures (Render(doctype, style, c, userName, date, phases, habits, nutrition, "") ==
             Render(doctype, style, c, userName, date, phases, habits, nutrition, psychology)) <==> psychology == ""
  {
    PageBlank(HeadPart(doctype, style, c.title), HeaderPart(c, date, userName), PhasesBlock(phases),
              HabitsBlock(habits), nutrition, psychology, FooterPart(date, userName));
  }

  /** The title is both the window's and the header's; the user's name is in the header
      and in the footer. All three are pasted verbatim. */
  lemma {:induction false} TitleAndName(plan: UserPlan, userName: string, date: string)
    ensures var html := GeneratePlanHtml(plan, userName, date);
      && Text.Contains(html, "<title>" + plan.content.title + "</title>")
      && Text.Contains(html, "<h1>" + plan.content.title + "</h1>")
      && Text.Contains(html, "<span>👤 " + userName + "</span>")
      && Text.Contains(html, " · Personalizado para " + userName + "</p>")
  {
    RenderShowsTitleAndName(Doctype, Style, plan.content, userName, date,
      Concat(plan.phases, PhaseCard), Concat(plan.habits, HabitCard),
      NutritionSection(plan.nutritionTips), PsychologySection(plan.psychologyTips));
  }

  /** Every rendered list of the plan is in its page. */
  lemma {:induction false} ListsShown(plan: UserPlan, userName: string, date: string)
    ensures var html := GeneratePlanHtml(plan, userName, date);
      && Text.Contains(html, Concat(plan.phases, PhaseCard))
      && Text.Contains(html, Concat(plan.habits, HabitCard))
      && Text.Contains(html, NutritionSection(plan.nutritionTips))
      && Text.Contains(html, PsychologySection(plan.psychologyTips))
  {
    RenderShowsLists(Doctype, Style, plan.content, userName, date,
      Concat(plan.phases, PhaseCard), Concat(plan.habits, HabitCard),
      NutritionSection(plan.nutritionTips), PsychologySection(plan.psychologyTips));
  }

  lemma {:induction false} RenderShowsPhase(doctype: string, style: string, c: PlanContent, userName: string, date: string,
                                            phases: seq<Phase>, habits: string, nutrition: string, psychology: string, i: nat)
    requires i < |phases|
    ensures Text.Contains(Render(doctype, style, c, userName, date, Concat(phases, PhaseCard), habits, nutrition, psychology),
                          PhaseCard(phases[i]))
  {
    RenderShowsLists(doctype, style, c, userName, date, Concat(phases, PhaseCard), habits, nutrition, psychology);
    ConcatContains(phases, PhaseCard, i);
    Text.ContainsTrans(Render(doctype, style, c, userName, date, Concat(phases, PhaseCard), habits, nutrition, psychology),
                       Concat(phases, PhaseCard), PhaseCard(phases[i]));
  }

  /** Every phase has its card on the page; `ConcatAt` places the cards in the plan's
      order and `PhaseCardLists` puts every goal and key action in its phase's card. */
  lemma {:induction false} PhaseCards(plan: UserPlan, userName: string, date: string, i: nat)
    requires i < |plan.phases|
    ensures Text.Contains(GeneratePlanHtml(plan, userName, date), PhaseCard(plan.phases[i]))
  {
    RenderShowsPhase(Doctype, Style, plan.content, userName, date, plan.phases, Concat(plan.habits, HabitCard),
      NutritionSection(plan.nutritionTips), PsychologySection(plan.psychologyTips), i);
  }

  /** A phase's card lists every goal and every key action. */
  lemma {:induction false} PhaseCardLists(ph: Phase)
    ensures forall g :: 0 <= g < |ph.goals| ==> Text.Contains(PhaseCard(ph), Item(ph.goals[g]))
    ensures forall a :: 0 <= a < |ph.keyActions| ==> Text.Contains(PhaseCard(ph), Item(ph.keyActions[a]))
  {
    var p := [PhaseOpen, Text.IntToString(ph.phase), ": ", ph.title, PhaseDuration, ph.duration, PhaseText, ph.description,
              PhaseGoals, Concat(ph.goals, Item), PhaseActions, Concat(ph.keyActions, Item), PhaseClose];
    assert PhaseCard(ph) == Cat(p);
    Piece(p, 9);
    Piece(p, 11);
    forall g | 0 <= g < |ph.goals|
      ensures Text.Contains(Cat(p), Item(ph.goals[g]))
    {
      ConcatContains(ph.goals, Item, g);
      Text.ContainsTrans(Cat(p), p[9], Item(ph.goals[g]));
    }
    forall a | 0 <= a < |ph.keyActions|
      ensures Text.Contains(Cat(p), Item(ph.keyActions[a]))
    {
      ConcatContains(ph.keyActions, Item, a);
      Text.ContainsTrans(Cat(p), p[11], Item(ph.keyActions[a]));
    }
  }

  lemma {:induction false} RenderShowsHabit(doctype: string, style: string, c: PlanContent, userName: string, date: string,
                                            phases: string, habits: seq<PlanHabit>, nutrition: string, psychology: string, i: nat)
    requires i < |habits|
    ensures Text.Contains(Render(doctype, style, c, userName, date, phases, Concat(habits, HabitCard), nutrition, psychology),
                          HabitCard(habits[i]))
  {
    RenderShowsLists(doctype, style, c, userName, date, phases, Concat(habits, HabitCard), nutrition, psychology);
    ConcatContains(habits, HabitCard, i);
    Text.ContainsTrans(Render(doctype, style, c, userName, date, phases, Concat(habits, HabitCard), nutrition, psychology),
                       Concat(habits, HabitCard), HabitCard(habits[i]));
  }

  /** Every habit has its card on the page; `HabitTags` gives each card its frequency,
      category and priority tags. */
  lemma {:induction false} HabitCards(plan: UserPlan, userName: string, date: string, i: nat)
    requires i < |plan.habits|
    ensures Text.Contains(GeneratePlanHtml(plan, userName, date), HabitCard(plan.habits[i]))
  {
    RenderShowsHabit(Doctype, Style, plan.content, userName, date, Concat(plan.phases, PhaseCard), plan.habits,
      NutritionSection(plan.nutritionTips), PsychologySection(plan.psychologyTips), i);
  }

  /** A habit's card shows its frequency, its category and its priority's label as tags. */
  lemma {:induction false} HabitTags(h: PlanHabit)
    ensures Text.Contains(HabitCard(h), "<span class=\"tag\">" + h.frequency + "</span>")
    ensures Text.Contains(HabitCard(h), "<span class=\"tag\">" + h.category + "</span>")
    ensures Text.Contains(HabitCard(h), "<span class=\"tag priority\">" + PriorityLabel(h.priority) + "</span>")
  {
    var p := ["\n      <div class=\"habit-card\">\n        <h4>", h.title, "</h4>\n        <p>", h.description,
         "</p>\n        <div class=\"habit-tags\">\n          ",
         "<span class=\"tag\">", h.frequency, "</span>", "\n          ",
         "<span class=\"tag\">", h.category, "</span>", "\n          ",
         "<span class=\"tag priority\">", PriorityLabel(h.priority), "</span>",
         "\n        </div>\n      </div>"];
    assert HabitCard(h) == Cat(p);
    PieceRun(p, 5);
    PieceRun(p, 9);
    PieceRun(p, 13);
  }

  /** The nutrition section is empty exactly when there are no tips; otherwise it has the
      heading and every tip's card. */
  lemma {:induction false} NutritionSectionShows(tips: seq<NutritionTip>)
    ensures NutritionSection(tips) == "" <==> |tips| == 0
    ensures |tips| > 0 ==> Text.Contains(NutritionSection(tips), NutritionHeading)
    ensures forall i :: 0 <= i < |tips| ==> Text.Contains(NutritionSection(tips), TipCard(tips[i]))
  {
    if |tips| > 0 {
      var cards := Concat(tips, TipCard);
      var s := ["\n  <div class=\"section\">\n    ", NutritionHeading, "\n    ", cards, "\n  </div>"];
      assert NutritionSection(tips) == Cat(s);
      Piece(s, 1);
      Piece(s, 3);
      var w := Text.ContainsWitness(Cat(s), NutritionHeading);
      forall i | 0 <= i < |tips|
        ensures Text.Contains(Cat(s), TipCard(tips[i]))
      {
        ConcatContains(tips, TipCard, i);
        Text.ContainsTrans(Cat(s), cards, TipCard(tips[i]));
      }
    }
  }

  lemma {:induction false} RenderNutrition(doctype: string, style: string, c: PlanContent, userName: string, date: string,
                                        phases: string, habits: string, psychology: string, tips: seq<NutritionTip>)
    ensures var section := NutritionSection(tips);
      var html := Render(doctype, style, c, userName, date, phases, habits, section, psychology);
      && (html == Render(doctype, style, c, userName, date, phases, habits, NutritionSection([]), psychology) <==> |tips| == 0)
      && (|tips| > 0 ==> Text.Contains(html, NutritionHeading))
      && (forall i :: 0 <= i < |tips| ==> Text.Contains(html, TipCard(tips[i])))
  {
    var section := NutritionSection(tips);
    var html := Render(doctype, style, c, userName, date, phases, habits, section, psychology);
    RenderBlank(doctype, style, c, userName, date, phases, habits, section, psychology);
    NutritionSectionShows(tips);
    NutritionSectionShows([]);
    RenderShowsLists(doctype, style, c, userName, date, phases, habits, section, psychology);
    if |tips| > 0 {
      Text.ContainsTrans(html, section, NutritionHeading);
    }
    forall i | 0 <= i < |tips|
      ensures Text.Contains(html, TipCard(tips[i]))
    {
      Text.ContainsTrans(html, section, TipCard(tips[i]));
    }
  }

  /** The nutrition tips change the page exactly when there are some, and then the page
      has the nutrition heading and every tip's card. */
  lemma {:induction false} NutritionShownIffAny(plan: UserPlan, userName: string, date: string)
    ensures GeneratePlanHtml(plan, userName, date) == GeneratePlanHtml(plan.(nutritionTips := []), userName, date)
      <==> |plan.nutritionTips| == 0
    ensures |plan.nutritionTips| > 0 ==> Text.Contains(GeneratePlanHtml(plan, userName, date), NutritionHeading)
    ensures forall i :: 0 <= i < |plan.nutritionTips| ==>
      Text.Contains(GeneratePlanHtml(plan, userName, date), TipCard(plan.nutritionTips[i]))
  {
    RenderNutrition(Doctype, Style, plan.content, userName, date, Concat(plan.phases, PhaseCard), Concat(plan.habits, HabitCard),
      PsychologySection(plan.psychologyTips), plan.nutritionTips);
  }

  /** The psychology section is empty exactly when there are no techniques; otherwise it
      has the heading and every technique's card. */
  lemma {:induction false} PsychologySectionShows(tips: seq<PsychologyTip>)
    ensures PsychologySection(tips) == "" <==> |tips| == 0
    ensures |tips| > 0 ==> Text.Contains(PsychologySection(tips), PsychologyHeading)
    ensures forall i :: 0 <= i < |tips| ==> Text.Contains(PsychologySection(tips), PsychCard(tips[i]))
  {
    if |tips| > 0 {
      var cards := Concat(tips, PsychCard);
      var s := ["\n  <div class=\"section\">\n    ", PsychologyHeading, "\n    ", cards, "\n  </div>"];
      assert PsychologySection(tips) == Cat(s);
      Piece(s, 1);
      Piece(s, 3);
      var w := Text.ContainsWitness(Cat(s), PsychologyHeading);
      forall i | 0 <= i < |tips|
        ensures Text.Contains(Cat(s), PsychCard(tips[i]))
      {
        ConcatContains(tips, PsychCard, i);
        Text.ContainsTrans(Cat(s), cards, PsychCard(tips[i]));
      }
    }
  }

  lemma {:induction false} RenderPsychology(doctype: string, style: string, c: PlanContent, userName: string, date: string,
                                        phases: string, habits: string, nutrition: string, tips: seq<PsychologyTip>)
    ensures var section := PsychologySection(tips);
      var html := Render(doctype, style, c, userName, date, phases, habits, nutrition, section);
      && (html == Render(doctype, style, c, userName, date, phases, habits, nutrition, PsychologySection([])) <==> |tips| == 0)
      && (|tips| > 0 ==> Text.Contains(html, PsychologyHeading))
      && (forall i :: 0 <= i < |tips| ==> Text.Contains(html, PsychCard(tips[i])))
  {
    var section := PsychologySection(tips);
    var html := Render(doctype, style, c, userName, date, phases, habits, nutrition, section);
    RenderBlank(doctype, style, c, userName, date, phases, habits, nutrition, section);
    PsychologySectionShows(tips);
    PsychologySectionShows([]);
    RenderShowsLists(doctype, style, c, userName, date, phases, habits, nutrition, section);
    if |tips| > 0 {
      Text.ContainsTrans(html, section, PsychologyHeading);
    }
    forall i | 0 <= i < |tips|
      ensures Text.Contains(html, PsychCard(tips[i]))
    {
      Text.ContainsTrans(html, section, PsychCard(tips[i]));
    }
  }

  /** The psychology techniques change the page exactly when there are some, and then the
      page has their heading and every technique's card. */
  lemma {:induction false} PsychologyShownIffAny(plan: UserPlan, userName: string, date: string)
    ensures GeneratePlanHtml(plan, userName, date) == GeneratePlanHtml(plan.(psychologyTips := []), userName, date)
      <==> |plan.psychologyTips| == 0
    ensures |plan.psychologyTips| > 0 ==> Text.Contains(GeneratePlanHtml(plan, userName, date), PsychologyHeading)
    ensures forall i :: 0 <= i < |plan.psychologyTips| ==>
      Text.Contains(GeneratePlanHtml(plan, userName, date), PsychCard(plan.psychologyTips[i]))
  {
    RenderPsychology(Doctype, Style, plan.content, userName, date, Concat(plan.phases, PhaseCard), Concat(plan.habits, HabitCard),
      NutritionSection(plan.nutritionTips), plan.psychologyTips);
  }

  /** A tip's examples change its card exactly when there are some, and each one is listed. */
  lemma {:induction false} ExamplesShownIffAny(t: NutritionTip)
    ensures TipCard(t) == TipCard(t.(examples := [])) <==> |t.examples| == 0
    ensures forall e :: 0 <= e < |t.examples| ==> Text.Contains(TipCard(t), Item(t.examples[e]))
  {
    var p := ["\n    <div class=\"tip-card\">\n      <h4>", t.title, "</h4>\n      <p>", t.description, "</p>\n      ",
         ExamplesBlock(t.examples), "\n    </div>"];
    assert TipCard(t) == Cat(p);
    assert TipCard(t.(examples := [])) == Cat(["\n    <div class=\"tip-card\">\n      <h4>", t.title, "</h4>\n      <p>", t.description, "</p>\n      ",
         "", "\n    </div>"]);
    assert p[5 := ""] == ["\n    <div class=\"tip-card\">\n      <h4>", t.title, "</h4>\n      <p>", t.description, "</p>\n      ",
         "", "\n    </div>"];
    CatBlank(p, 5);
    if |t.examples| > 0 {
      var items := Concat(t.examples, Item);
      var b := ["\n      <div class=\"examples\">\n        <strong>Ejemplos:</strong>\n        <ul>", items, "</ul>\n      </div>"];
      assert p[5] == Cat(b);
      Piece(p, 5);
      Piece(b, 1);
      forall e | 0 <= e < |t.examples|
        ensures Text.Contains(Cat(p), Item(t.examples[e]))
      {
        ConcatContains(t.examples, Item, e);
        Text.ContainsTrans(Cat(b), items, Item(t.examples[e]));
        Text.ContainsTrans(Cat(p), p[5], Item(t.examples[e]));
      }
    }
  }
}
