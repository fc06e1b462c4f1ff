/**
 * The prompts sent to the grading oracle: a fixed system prompt, and a user
 * prompt that lays out the rubric, the mode, the student's answer and the
 * JSON shape the reply must take. Decimal amounts are rendered by `fmt`,
 * which stands for `str(Decimal)`. A multi-line text of the source is
 * written as its list of lines joined by newlines.
 */
module Prompts {
  import opened Text
  import opened Models

  /** Whether a criterion that is partly met earns partial credit or none. */
  datatype StrictnessMode = Proportional | HardFail

  // ------------------------------------------------------------ the system prompt

  /** The first line of the system prompt, split where the phrases the properties mention begin and end. */
  const RoleLine: string :=
    "You are a " + "STRICT" + " academic grader. You are an AI with " + "NO emotions" + ", "
    + "NO favorites" + ", and " + "NO leniency" + "."

  /** The output rule that asks for JSON, split the same way. */
  const JsonRule: string := "- Your output MUST be valid " + "JSON" + " matching the exact format specified."

  const SystemPromptLines: seq<string> := [
    RoleLine,
    "",
    "ABSOLUTE RULES - VIOLATION IS FORBIDDEN:",
    "1. Grade EXACTLY according to the rubric. Do not interpret. Do not assume. Do not infer.",
    "2. If a criterion requirement is not explicitly met in the answer, deduct points. No benefit of the doubt.",
    "3. Two identical answers MUST receive IDENTICAL scores. Your grading must be perfectly reproducible.",
    "4. You have NO knowledge of who wrote this answer. You cannot favor or disfavor anyone.",
    "5. Writing style, politeness, formatting, or presentation do NOT affect scores unless the rubric explicitly mentions them.",
    "6. Spelling and grammar do NOT affect scores unless the rubric explicitly scores them.",
    "",
    "OUTPUT RULES:",
    "- For each criterion, you MUST provide a specific quote from the student's answer as evidence.",
    "- If deducting points, you MUST cite the exact rubric requirement that was not met.",
    JsonRule,
    "- Do not add any text before or after the JSON."
  ]

  /** `SYSTEM_PROMPT`. */
  const SystemPrompt: string := Join("\n", SystemPromptLines)

  /**
   * `get_system_prompt`: the same text on every call; it casts the model as a
   * strict examiner, without emotions, favorites or leniency, and asks for JSON.
   */
  function GetSystemPrompt(): (r: string)
    ensures StartsWith(r, RoleLine)
    ensures Contains(r, "STRICT") && Contains(r, "NO emotions") && Contains(r, "NO favorites")
    ensures Contains(r, "NO leniency") && Contains(r, "JSON")
  {
    JoinPrefix("\n", SystemPromptLines, 1);
    assert SystemPromptLines[..1] == [RoleLine];
    JoinHas("\n", SystemPromptLines, 0);
    RoleLineRules();
    ContainsTrans(SystemPrompt, RoleLine, "STRICT");
    ContainsTrans(SystemPrompt, RoleLine, "NO emotions");
    ContainsTrans(SystemPrompt, RoleLine, "NO favorites");
    ContainsTrans(SystemPrompt, RoleLine, "NO leniency");
    JoinHas("\n", SystemPromptLines, 13);
    ContainsMiddle("- Your output MUST be valid ", "JSON", " matching the exact format specified.");
    ContainsTrans(SystemPrompt, JsonRule, "JSON");
    SystemPrompt
  }

  /** The first line calls the model's role strict and without emotions, favorites or leniency. */
  lemma RoleLineRules()
    ensures Contains(RoleLine, "STRICT") && Contains(RoleLine, "NO emotions")
    ensures Contains(RoleLine, "NO favorites") && Contains(RoleLine, "NO leniency")
  {
    var p1 := "You are a ";
    var p3 := " academic grader. You are an AI with ";
    ContainsMiddle(p1, "STRICT", p3);
    var s2 := p1 + "STRICT" + p3;
    ContainsMiddle(s2, "NO emotions", ", ");
    var s4 := s2 + "NO emotions" + ", ";
    ContainsMiddle(s4, "NO favorites", ", and ");
    var s6 := s4 + "NO favorites" + ", and ";
    ContainsMiddle(s6, "NO leniency", ".");
    ContainsInLeft(s2, "NO emotions", "STRICT");
    ContainsInLeft(s2 + "NO emotions", ", ", "STRICT");
    ContainsInLeft(s4, "NO favorites", "STRICT");
    ContainsInLeft(s4, "NO favorites", "NO emotions");
    ContainsInLeft(s4 + "NO favorites", ", and ", "STRICT");
    ContainsInLeft(s4 + "NO favorites", ", and ", "NO emotions");
    ContainsInLeft(s6, "NO leniency", "STRICT");
    ContainsInLeft(s6, "NO leniency", "NO emotions");
    ContainsInLeft(s6, "NO leniency", "NO favorites");
    ContainsInLeft(s6 + "NO leniency", ".", "STRICT");
    ContainsInLeft(s6 + "NO leniency", ".", "NO emotions");
    ContainsInLeft(s6 + "NO leniency", ".", "NO favorites");
  }

  // ------------------------------------------------------------ the rubric part

  const ModePrefix: string := "MODE:"
  const HardFailLine: string :=
    ModePrefix + " " + "HARD FAIL" + " - If any part of a criterion is not fully met, award "
    + "ZERO points" + " for that criterion. No partial credit."
  const ProportionalLine: string :=
    ModePrefix + " " + "PROPORTIONAL" + " - Award " + "partial credit"
    + " based on how well the criterion is met. Be precise but fair."
  const NoPartialNote: string := " [NO PARTIAL CREDIT - either full points or zero]"

  /** The one line that states the mode: hard fail for `HardFail`, proportional for any other mode. */
  function ModeLine(mode: StrictnessMode): (r: string)
    ensures StartsWith(r, ModePrefix)
    ensures mode == HardFail ==> Contains(r, "HARD FAIL") && Contains(r, "ZERO points")
    ensures mode != HardFail ==> Contains(r, "PROPORTIONAL") && Contains(r, "partial credit")
  {
    if mode == HardFail then
      HardFailLineSays();
      HardFailLine
    else
      ProportionalLineSays();
      ProportionalLine
  }

  lemma HardFailLineSays()
    ensures StartsWith(HardFailLine, ModePrefix)
    ensures Contains(HardFailLine, "HARD FAIL") && Contains(HardFailLine, "ZERO points")
  {
    var p2 := ModePrefix + " ";
    var p4 := " - If any part of a criterion is not fully met, award ";
    var p6 := " for that criterion. No partial credit.";
    StartsWithAppend(ModePrefix, " ");
    StartsWithExtend(p2, ModePrefix, "HARD FAIL");
    StartsWithExtend(p2 + "HARD FAIL", ModePrefix, p4);
    StartsWithExtend(p2 + "HARD FAIL" + p4, ModePrefix, "ZERO points");
    StartsWithExtend(p2 + "HARD FAIL" + p4 + "ZERO points", ModePrefix, p6);
    ContainsMiddle(p2, "HARD FAIL", p4);
    ContainsInLeft(p2 + "HARD FAIL" + p4, "ZERO points", "HARD FAIL");
    ContainsInLeft(p2 + "HARD FAIL" + p4 + "ZERO points", p6, "HARD FAIL");
    ContainsMiddle(p2 + "HARD FAIL" + p4, "ZERO points", p6);
  }

  lemma ProportionalLineSays()
    ensures StartsWith(ProportionalLine, ModePrefix)
    ensures Contains(ProportionalLine, "PROPORTIONAL") && Contains(ProportionalLine, "partial credit")
  {
    var p2 := ModePrefix + " ";
    var p4 := " - Award ";
    var p6 := " based on how well the criterion is met. Be precise but fair.";
    StartsWithAppend(ModePrefix, " ");
    StartsWithExtend(p2, ModePrefix, "PROPORTIONAL");
    StartsWithExtend(p2 + "PROPORTIONAL", ModePrefix, p4);
    StartsWithExtend(p2 + "PROPORTIONAL" + p4, ModePrefix, "partial credit");
    StartsWithExtend(p2 + "PROPORTIONAL" + p4 + "partial credit", ModePrefix, p6);
    ContainsMiddle(p2, "PROPORTIONAL", p4);
    ContainsInLeft(p2 + "PROPORTIONAL" + p4, "partial credit", "PROPORTIONAL");
    ContainsInLeft(p2 + "PROPORTIONAL" + p4 + "partial credit", p6, "PROPORTIONAL");
    ContainsMiddle(p2 + "PROPORTIONAL" + p4, "partial credit", p6);
  }

  /** `"{i}. {name} ({max_points} points)"`, with the no-partial-credit note when the criterion allows none. */
  function EntryLine(i: nat, c: Criterion, fmt: real -> string): (r: string)
    ensures StartsWith(r, NatText(i) + ". " + c.name + " (" + fmt(c.maxPoints) + " points)")
    ensures EndsWith(r, NoPartialNote) <==> !c.allowsPartialCredit
  {
    var head := NatText(i) + ". " + c.name + " (" + fmt(c.maxPoints) + " points)";
    var r := head + (if c.allowsPartialCredit then "" else NoPartialNote);
    assert r[..|head|] == head;
    assert r[|r| - 1] == (if c.allowsPartialCredit then ')' else ']');
    r
  }

  /** `"   Description: {description}"`. */
  function DescriptionLine(c: Criterion): string {
    "   Description: " + c.description
  }

  /** The three lines of one criterion: its entry, its description, a blank. */
  function CriterionBlock(i: nat, c: Criterion, fmt: real -> string): seq<string> {
    [EntryLine(i, c, fmt), DescriptionLine(c), ""]
  }

  /** The blocks of the criteria, numbered from 1 in rubric order. */
  function CriteriaBlocks(cs: seq<Criterion>, fmt: real -> string): (r: seq<string>)
    ensures |r| == 3 * |cs|
  {
    if cs == [] then [] else CriteriaBlocks(cs[..|cs| - 1], fmt) + CriterionBlock(|cs|, cs[|cs| - 1], fmt)
  }

  /** Numbering one more criterion appends its block. */
  lemma BlocksSnoc(cs: seq<Criterion>, i: nat, fmt: real -> string)
    requires i < |cs|
    ensures CriteriaBlocks(cs[..i + 1], fmt) == CriteriaBlocks(cs[..i], fmt) + CriterionBlock(i + 1, cs[i], fmt)
  {
    assert cs[..i + 1][..i] == cs[..i];
  }

  /** Appending three lines one at a time appends them as a block. */
  lemma AppendThree(header: seq<string>, pre: seq<string>, post: seq<string>, x: string, y: string, z: string)
    requires post == pre + [x, y, z]
    ensures header + pre + [x] + [y] + [z] == header + post
  {
  }

  /** The lines before the criteria: title, total, blank, mode, blank, heading. */
  function HeaderLines(rubric: Rubric, mode: StrictnessMode, fmt: real -> string): seq<string> {
    ["RUBRIC: " + rubric.title, "Total Possible Points: " + fmt(TotalMaxPoints(rubric)), "", ModeLine(mode), "", "CRITERIA:"]
  }

  /** Every line `_format_rubric` collects, in order. */
  function RubricLines(rubric: Rubric, mode: StrictnessMode, fmt: real -> string): seq<string> {
    HeaderLines(rubric, mode, fmt) + CriteriaBlocks(rubric.criteria, fmt)
  }

  /** What `_format_rubric` returns. */
  function RubricText(rubric: Rubric, mode: StrictnessMode, fmt: real -> string): string {
    Join("\n", RubricLines(rubric, mode, fmt))
  }

  /** `_format_rubric`: the header lines, then three lines per criterion appended in a loop, joined by newlines. */
  method FormatRubric(rubric: Rubric, mode: StrictnessMode, fmt: real -> string) returns (text: string)
    ensures text == RubricText(rubric, mode, fmt)
  {
    var lines := ["RUBRIC: " + rubric.title, "Total Possible Points: " + fmt(TotalMaxPoints(rubric)), ""];
    if mode == HardFail {
      lines := lines + [HardFailLine];
    } else {
      lines := lines + [ProportionalLine];
    }
    lines := lines + [""];
    lines := lines + ["CRITERIA:"];
    var cs := rubric.criteria;
    assert lines == HeaderLines(rubric, mode, fmt) + CriteriaBlocks(cs[..0], fmt);
    for i := 0 to |cs|
      invariant lines == HeaderLines(rubric, mode, fmt) + CriteriaBlocks(cs[..i], fmt)
    {
      var criterion := cs[i];
      ghost var before := lines;
      var partialNote := if criterion.allowsPartialCredit then "" else NoPartialNote;
      var entry := NatText(i + 1) + ". " + criterion.name + " (" + fmt(criterion.maxPoints) + " points)" + partialNote;
      var description := "   Description: " + criterion.description;
      lines := lines + [entry];
      lines := lines + [description];
      lines := lines + [""];
      assert [entry, description, ""] == CriterionBlock(i + 1, criterion, fmt);
      BlocksSnoc(cs, i, fmt);
      AppendThree(HeaderLines(rubric, mode, fmt), CriteriaBlocks(cs[..i], fmt), CriteriaBlocks(cs[..i + 1], fmt), entry, description, "");
    }
    assert cs[..|cs|] == cs;
    text := Join("\n", lines);
  }

  // ------------------------------------------------------------ the user prompt

  const BeginMarker: string := "---BEGIN ANSWER---"
  const EndMarker: string := "---END ANSWER---"
  const MaxPossibleKey: string := "  \"max_possible\": "

  /** The template lines from the instructions down to the line that announces the total. */
  const InstructionLines: seq<string> := [
    "INSTRUCTIONS:",
    "1. Evaluate the answer against EACH criterion independently.",
    "2. For each criterion, determine points awarded (0 to max_points).",
    "3. Provide specific evidence from the answer for your scoring decision.",
    "4. If any points are deducted, explain exactly which rubric requirement was not met.",
    "5. Calculate the total score by summing all criterion scores.",
    "6. Provide brief, constructive overall feedback.",
    "",
    "OUTPUT FORMAT (respond with ONLY this JSON, no other text):",
    "{",
    "  \"total_score\": <number>,"
  ]

  /** The template lines after the one that announces the total. */
  const ReplyShapeLines: seq<string> := [
    "  \"criteria_results\": [",
    "    {",
    "      \"criterion\": \"<exact criterion name from rubric>\",",
    "      \"max_points\": <number from rubric>,",
    "      \"awarded_points\": <number between 0 and max_points>,",
    "      \"justification\": \"<specific quote or evidence from answer>\",",
    "      \"deduction_reason\": \"<null if full points, otherwise specific rubric requirement not met>\"",
    "    }",
    "  ],",
    "  \"overall_feedback\": \"<constructive feedback for improvement>\"",
    "}"
  ]

  /** The lines of the `build_grading_prompt` template, with the rubric text, the answer and the rubric's total filled in. */
  function PromptLines(rubricText: string, answer: string, total: string): seq<string> {
    ["GRADING TASK", "", rubricText, "", "STUDENT ANSWER:", BeginMarker, answer, EndMarker, ""]
    + InstructionLines + [MaxPossibleKey + total + ","] + ReplyShapeLines
  }

  /** What `build_grading_prompt` returns. */
  function GradingPrompt(rubric: Rubric, answer: string, mode: StrictnessMode, fmt: real -> string): string {
    Join("\n", PromptLines(RubricText(rubric, mode, fmt), answer, fmt(TotalMaxPoints(rubric))))
  }

  /** `build_grading_prompt`: format the rubric, then fill the template. */
  method BuildGradingPrompt(rubric: Rubric, answer: string, mode: StrictnessMode, fmt: real -> string) returns (prompt: string)
    ensures prompt == GradingPrompt(rubric, answer, mode, fmt)
  {
    var rubricText := FormatRubric(rubric, mode, fmt);
    prompt := Join("\n", PromptLines(rubricText, answer, fmt(TotalMaxPoints(rubric))));
  }

  // ------------------------------------------------------------ properties

  /** The criteria blocks hold, at position `3 * k`, the block of `cs[k]` numbered `k + 1`. */
  lemma {:induction false} CriteriaBlocksAt(cs: seq<Criterion>, fmt: real -> string, k: nat)
    requires k < |cs|
    ensures CriteriaBlocks(cs, fmt)[3 * k..3 * k + 3] == CriterionBlock(k + 1, cs[k], fmt)
    decreases |cs|
  {
    var init := cs[..|cs| - 1];
    if k < |cs| - 1 {
      CriteriaBlocksAt(init, fmt, k);
      assert init[k] == cs[k];
      assert CriteriaBlocks(cs, fmt)[3 * k..3 * k + 3] == CriteriaBlocks(init, fmt)[3 * k..3 * k + 3];
    }
  }

  /**
   * The rubric section has six header lines (title, total, blank, mode,
   * blank, heading) and three lines per criterion.
   */
  lemma RubricHeaderShape(rubric: Rubric, mode: StrictnessMode, fmt: real -> string)
    ensures var lines := RubricLines(rubric, mode, fmt);
      && |lines| == 6 + 3 * |rubric.criteria|
      && lines[0] == "RUBRIC: " + rubric.title
      && lines[1] == "Total Possible Points: " + fmt(TotalMaxPoints(rubric))
      && lines[2] == "" && lines[3] == ModeLine(mode) && lines[4] == ""
      && lines[5] == "CRITERIA:"
  {
  }

  /**
   * After the header, criterion `k` (in rubric order) has its entry numbered
   * `k + 1`, its description and a blank line.
   */
  lemma CriterionLinesAt(rubric: Rubric, mode: StrictnessMode, fmt: real -> string, k: nat)
    requires k < |rubric.criteria|
    ensures var lines := RubricLines(rubric, mode, fmt);
      && 8 + 3 * k < |lines|
      && lines[6 + 3 * k] == EntryLine(k + 1, rubric.criteria[k], fmt)
      && lines[7 + 3 * k] == DescriptionLine(rubric.criteria[k])
      && lines[8 + 3 * k] == ""
  {
    CriteriaBlocksAt(rubric.criteria, fmt, k);
    BlockAt(HeaderLines(rubric, mode, fmt), CriteriaBlocks(rubric.criteria, fmt), CriterionBlock(k + 1, rubric.criteria[k], fmt), k);
  }

  /** After six header lines, the block at `3 * k` of the blocks sits at line `6 + 3 * k`. */
  lemma BlockAt(header: seq<string>, blocks: seq<string>, block: seq<string>, k: nat)
    requires |header| == 6 && |block| == 3 && 3 * k + 3 <= |blocks| && blocks[3 * k..3 * k + 3] == block
    ensures (header + blocks)[6 + 3 * k] == block[0]
    ensures (header + blocks)[7 + 3 * k] == block[1]
    ensures (header + blocks)[8 + 3 * k] == block[2]
  {
    assert blocks[3 * k] == block[0] && blocks[3 * k + 1] == block[1] && blocks[3 * k + 2] == block[2];
  }

  /** The mode line is the only line of the rubric section that starts with `MODE:`. */
  lemma ModeLineUnique(rubric: Rubric, mode: StrictnessMode, fmt: real -> string, k: nat)
    requires k < |RubricLines(rubric, mode, fmt)|
    ensures StartsWith(RubricLines(rubric, mode, fmt)[k], ModePrefix) <==> k == 3
  {
    var lines := RubricLines(rubric, mode, fmt);
    if k >= 6 {
      var j := (k - 6) / 3;
      var c := rubric.criteria[j];
      CriterionLinesAt(rubric, mode, fmt, j);
      if k == 6 + 3 * j {
        EntryLineLead(j + 1, c, fmt);
      } else if k == 7 + 3 * j {
        assert DescriptionLine(c)[0] == ' ';
      }
      NoModePrefix(lines[k]);
    } else if k != 3 {
      RubricHeaderShape(rubric, mode, fmt);
      assert ("RUBRIC: " + rubric.title)[0] == 'R';
      assert ("Total Possible Points: " + fmt(TotalMaxPoints(rubric)))[0] == 'T';
      NoModePrefix(lines[k]);
    } else {
      RubricHeaderShape(rubric, mode, fmt);
    }
  }

  /** An entry line starts with the digits of its number. */
  lemma EntryLineLead(i: nat, c: Criterion, fmt: real -> string)
    ensures |EntryLine(i, c, fmt)| > 0 && IsDigit(EntryLine(i, c, fmt)[0])
  {
    NatTextDigits(i);
    var n := NatText(i);
    assert EntryLine(i, c, fmt)[0] == n[0];
  }

  /** A line that is empty or does not start with `M` does not start with `MODE:`. */
  lemma NoModePrefix(s: string)
    requires s == [] || s[0] != 'M'
    ensures !StartsWith(s, ModePrefix)
  {
    if s != [] && |s| >= 5 {
      assert s[..5][0] == s[0];
    }
  }

  /**
   * The prompt shows the rubric title, its total, the mode line, and every
   * criterion's entry and description.
   */
  lemma PromptShowsRubric(rubric: Rubric, answer: string, mode: StrictnessMode, fmt: real -> string)
    ensures var p := GradingPrompt(rubric, answer, mode, fmt);
      && Contains(p, "RUBRIC: " + rubric.title)
      && Contains(p, "Total Possible Points: " + fmt(TotalMaxPoints(rubric)))
      && Contains(p, ModeLine(mode))
    ensures forall k :: 0 <= k < |rubric.criteria| ==>
      && Contains(GradingPrompt(rubric, answer, mode, fmt), EntryLine(k + 1, rubric.criteria[k], fmt))
      && Contains(GradingPrompt(rubric, answer, mode, fmt), DescriptionLine(rubric.criteria[k]))
  {
    var lines := RubricLines(rubric, mode, fmt);
    RubricHeaderShape(rubric, mode, fmt);
    RubricInPrompt(rubric, answer, mode, fmt);
    forall k | 0 <= k < |lines|
      ensures Contains(GradingPrompt(rubric, answer, mode, fmt), lines[k])
    {
      JoinHas("\n", lines, k);
      ContainsTrans(GradingPrompt(rubric, answer, mode, fmt), RubricText(rubric, mode, fmt), lines[k]);
    }
    forall k | 0 <= k < |rubric.criteria|
      ensures Contains(GradingPrompt(rubric, answer, mode, fmt), EntryLine(k + 1, rubric.criteria[k], fmt))
      ensures Contains(GradingPrompt(rubric, answer, mode, fmt), DescriptionLine(rubric.criteria[k]))
    {
      CriterionLinesAt(rubric, mode, fmt, k);
    }
  }

  /** The whole rubric section is part of the prompt. */
  lemma RubricInPrompt(rubric: Rubric, answer: string, mode: StrictnessMode, fmt: real -> string)
    ensures Contains(GradingPrompt(rubric, answer, mode, fmt), RubricText(rubric, mode, fmt))
  {
    JoinHas("\n", PromptLines(RubricText(rubric, mode, fmt), answer, fmt(TotalMaxPoints(rubric))), 2);
  }

  /** The reply shape announces the rubric's total as the `max_possible` the reply must carry. */
  lemma PromptAnnouncesMax(rubric: Rubric, answer: string, mode: StrictnessMode, fmt: real -> string)
    ensures Contains(GradingPrompt(rubric, answer, mode, fmt), MaxPossibleKey + fmt(TotalMaxPoints(rubric)) + ",")
  {
    JoinHas("\n", PromptLines(RubricText(rubric, mode, fmt), answer, fmt(TotalMaxPoints(rubric))), 20);
  }

  /**
   * The student's answer appears verbatim in the prompt, as the text between
   * the line `---BEGIN ANSWER---` and the line `---END ANSWER---`.
   */
  lemma AnswerEmbedded(rubric: Rubric, answer: string, mode: StrictnessMode, fmt: real -> string)
    ensures Contains(GradingPrompt(rubric, answer, mode, fmt), BeginMarker + "\n" + answer + "\n" + EndMarker)
  {
    var lines := PromptLines(RubricText(rubric, mode, fmt), answer, fmt(TotalMaxPoints(rubric)));
    JoinSlice("\n", lines, 5, 8);
    assert lines[5..8] == [BeginMarker, answer, EndMarker];
    JoinThree("\n", BeginMarker, answer, EndMarker);
  }
}
