/**
 * The deterministic half of `ReportTextGenerator` (src/services/OpenAIClient.js): the prompt
 * built from the (filtered) candidate record, the reply's split into the two narrative
 * sections, and the error wrapping around the completion request, whose reply is a parameter.
 */
module OpenAIClient {
  import opened Wrappers
  import opened Text
  import opened EzekiaClient

  /** The object `generateReport` passes in: each part present only when its flag is set. */
  datatype FilteredData = FilteredData(
    personal: Option<PersonalData>, experience: Option<seq<ExperienceEntry>>, education: Option<seq<EducationEntry>>)

  /** `{personality_section, summary_section}` */
  datatype Sections = Sections(personality: string, summary: string)

  const NotAvailable := "N/A"
  const PersonalityHeading := "PERS\U{00D6}NLICHKEIT"
  const SummaryHeading := "ZUSAMMENFASSUNG"

  /** What `data.personal_data || {}` reads like when the part is missing: every field absent. */
  const NoPersonalData := PersonalData("", "", "", "", NoAge, "", "", "", [], "")

  /** `x || 'N/A'` for a string. */
  function OrNotAvailable(s: string): (r: string)
    ensures r != ""
    ensures s != "" ==> r == s
    ensures s == "" ==> r == NotAvailable
  {
    if s == "" then NotAvailable else s
  }

  /** `${personal.age || 'N/A'}`: null, NaN and 0 all print as N/A. */
  function AgeText(age: Age): (r: string)
    ensures r != ""
    ensures r == NotAvailable <==> !age.Truthy()
  {
    if age.Truthy() then
      var t := IntToString(age.n);
      assert t[0] == '-' || '0' <= t[0] <= '9';
      t
    else NotAvailable
  }

  function ExperienceLine(e: ExperienceEntry): string
  {
    "- " + e.years + ": " + e.title + " at " + e.company + "\n  " + e.description
  }

  function EducationLine(e: EducationEntry): string
  {
    "- " + e.years + ": " + e.degree + " in " + e.field + " at " + e.institution
  }

  function LanguageItem(l: LanguageEntry): string
  {
    l.language + " (" + l.level + ")"
  }

  function ExperienceLines(exps: seq<ExperienceEntry>): (r: seq<string>)
    ensures |r| == |exps|
  {
    seq(|exps|, k requires 0 <= k < |exps| => ExperienceLine(exps[k]))
  }

  function EducationLines(edus: seq<EducationEntry>): (r: seq<string>)
    ensures |r| == |edus|
  {
    seq(|edus|, k requires 0 <= k < |edus| => EducationLine(edus[k]))
  }

  function LanguageItems(langs: seq<LanguageEntry>): (r: seq<string>)
    ensures |r| == |langs|
  {
    seq(|langs|, k requires 0 <= k < |langs| => LanguageItem(langs[k]))
  }

  /** `currentRole`: "<title> at <company>" from the first entry, or N/A without experience. */
  function CurrentRole(exps: seq<ExperienceEntry>): (r: string)
    ensures exps == [] ==> r == NotAvailable
    ensures exps != [] ==> r == OrNotAvailable(exps[0].title) + " at " + OrNotAvailable(exps[0].company)
  {
    if |exps| > 0 then OrNotAvailable(exps[0].title) + " at " + OrNotAvailable(exps[0].company) else NotAvailable
  }

  const Intro := "Create a professional executive search report for:"
  const TaskIntro := "Write two detailed sections in German:"
  const PersonalityTask := "1. " + PersonalityHeading + " (Personality) - ~350 words describing the candidate's character, leadership style, and professional demeanor based on their career trajectory."
  const SummaryTask := "2. " + SummaryHeading + " (Summary) - ~450 words comprehensive overview of their professional profile, key achievements, and unique value proposition."
  const Guideline1 := "- Use formal German"
  const Guideline2 := "- Write in third-person"
  const Guideline3 := "- Provide specific details rather than generic descriptions"
  const Guideline4 := "- Format as single paragraphs with no bullet points"
  const Guideline5 := "- Be consistent with the candidate's background"
  const ReturnPrefix := "Return with headings \""
  const ReturnLine := ReturnPrefix + PersonalityHeading + "\" and \"" + SummaryHeading + "\"."

  /** The lines of the prompt template: index k is source line 75 + k of the template literal. */
  function PromptLines(data: FilteredData): (lines: seq<string>)
    ensures |lines| == 32
    ensures lines[..9] == ProfileLines(data.personal.GetOr(NoPersonalData), data.experience.GetOr([]))
    ensures lines[9..15] == HistoryLines(data.experience.GetOr([]), data.education.GetOr([]))
    ensures lines[15..] == TaskLines
  {
    var lines := ProfileLines(data.personal.GetOr(NoPersonalData), data.experience.GetOr([]))
      + HistoryLines(data.experience.GetOr([]), data.education.GetOr([]))
      + TaskLines;
    assert lines[..9] == ProfileLines(data.personal.GetOr(NoPersonalData), data.experience.GetOr([]));
    assert lines[9..15] == HistoryLines(data.experience.GetOr([]), data.education.GetOr([]));
    lines
  }

  /** Template lines 75-83: the opening and the candidate profile, each field with its N/A default. */
  function ProfileLines(personal: PersonalData, experience: seq<ExperienceEntry>): (lines: seq<string>)
    ensures |lines| == 9
    ensures lines[4] == "Name: " + OrNotAvailable(personal.name)
    ensures lines[5] == "Current Position: " + CurrentRole(experience)
    ensures lines[6] == "Age: " + AgeText(personal.age)
    ensures lines[7] == "Nationality: " + OrNotAvailable(personal.nationality)
    ensures lines[8] == "Languages: " + Join(LanguageItems(personal.languages), ", ")
    ensures lines[0] == ""
  {
    ["",
     Intro,
     "",
     "# Candidate Profile",
     "Name: " + OrNotAvailable(personal.name),
     "Current Position: " + CurrentRole(experience),
     "Age: " + AgeText(personal.age),
     "Nationality: " + OrNotAvailable(personal.nationality),
     "Languages: " + Join(LanguageItems(personal.languages), ", ")]
  }

  /** Template lines 84-89: the experience block, then the education block. */
  function HistoryLines(experience: seq<ExperienceEntry>, education: seq<EducationEntry>): (lines: seq<string>)
    ensures |lines| == 6
    ensures lines[2] == Join(ExperienceLines(experience), "\n")
    ensures lines[5] == Join(EducationLines(education), "\n")
  {
    ["",
     "# Work Experience",
     Join(ExperienceLines(experience), "\n"),
     "",
     "# Education",
     Join(EducationLines(education), "\n")]
  }

  /** Template lines 90-106: the fixed task text, ending with the request for both headings. */
  const TaskLines: seq<string> :=
    ["",
     "# Task",
     TaskIntro,
     "",
     PersonalityTask,
     "",
     SummaryTask,
     "",
     "Guidelines:",
     Guideline1,
     Guideline2,
     Guideline3,
     Guideline4,
     Guideline5,
     "",
     ReturnLine,
     ""]

  /** `_createPrompt` */
  function CreatePrompt(data: FilteredData): string
  {
    Join(PromptLines(data), "\n")
  }

  /**
   * Every template line occurs in the prompt, in template order: line i ends before line j
   * starts. With the contents of `PromptLines`, this places the name, current role, age,
   * nationality and languages lines (each with its N/A default) before the experience block,
   * and that before the education block.
   */
  lemma PromptInTemplateOrder(data: FilteredData, i: nat, j: nat)
    requires i < j < 32
    ensures var prompt := CreatePrompt(data);
      var lines := PromptLines(data);
      && OccursAt(prompt, lines[i], Offset(lines, "\n", i))
      && OccursAt(prompt, lines[j], Offset(lines, "\n", j))
      && Offset(lines, "\n", i) + |lines[i]| < Offset(lines, "\n", j)
  {
    var lines := PromptLines(data);
    JoinOccurs(lines, "\n", i);
    JoinOccurs(lines, "\n", j);
    OffsetMonotone(lines, "\n", i, j);
  }

  /** One line per experience entry, in input order: entry i's line ends before entry j's starts. */
  lemma ExperienceInOrder(exps: seq<ExperienceEntry>, i: nat, j: nat)
    requires i < j < |exps|
    ensures var text := Join(ExperienceLines(exps), "\n");
      var a := Offset(ExperienceLines(exps), "\n", i);
      var b := Offset(ExperienceLines(exps), "\n", j);
      && OccursAt(text, ExperienceLine(exps[i]), a)
      && OccursAt(text, ExperienceLine(exps[j]), b)
      && a + |ExperienceLine(exps[i])| < b
  {
    JoinOccurs(ExperienceLines(exps), "\n", i);
    JoinOccurs(ExperienceLines(exps), "\n", j);
    OffsetMonotone(ExperienceLines(exps), "\n", i, j);
  }

  /** One line per education entry, in input order. */
  lemma EducationInOrder(edus: seq<EducationEntry>, i: nat, j: nat)
    requires i < j < |edus|
    ensures var text := Join(EducationLines(edus), "\n");
      var a := Offset(EducationLines(edus), "\n", i);
      var b := Offset(EducationLines(edus), "\n", j);
      && OccursAt(text, EducationLine(edus[i]), a)
      && OccursAt(text, EducationLine(edus[j]), b)
      && a + |EducationLine(edus[i])| < b
  {
    JoinOccurs(EducationLines(edus), "\n", i);
    JoinOccurs(EducationLines(edus), "\n", j);
    OffsetMonotone(EducationLines(edus), "\n", i, j);
  }

  /** The languages line is empty after its label exactly when there are no languages. */
  lemma LanguagesEmpty(langs: seq<LanguageEntry>)
    ensures Join(LanguageItems(langs), ", ") == "" <==> langs == []
  {
    if |langs| > 0 {
      JoinOccurs(LanguageItems(langs), ", ", 0);
      assert |LanguageItem(langs[0])| >= 3;
    }
  }

  /** The prompt always ends by asking for both headings, then a newline. */
  lemma PromptEnding(data: FilteredData)
    ensures var prompt := CreatePrompt(data);
      |prompt| >= |ReturnLine| + 1 && prompt[|prompt| - |ReturnLine| - 1..] == ReturnLine + "\n"
    ensures Contains(ReturnLine, PersonalityHeading) && Contains(ReturnLine, SummaryHeading)
    ensures CreatePrompt(data)[0] == '\n'
  {
    PromptTail(data);
    ReturnLineHeadings();
    JoinOccurs(PromptLines(data), "\n", 0);
  }

  /** The last two template lines join to the return line and a newline. */
  lemma PromptTail(data: FilteredData)
    ensures var prompt := CreatePrompt(data);
      |prompt| >= |ReturnLine| + 1 && prompt[|prompt| - |ReturnLine| - 1..] == ReturnLine + "\n"
  {
    var lines := PromptLines(data);
    assert lines == lines[..30] + [ReturnLine, ""];
    JoinAppend(lines[..30], [ReturnLine, ""], "\n");
    assert [ReturnLine, ""][1..] == [""];
    assert Join([ReturnLine, ""], "\n") == ReturnLine + "\n";
  }

  /** The return line names both headings. */
  lemma ReturnLineHeadings()
    ensures Contains(ReturnLine, PersonalityHeading) && Contains(ReturnLine, SummaryHeading)
  {
    var at := |ReturnPrefix|;
    assert ReturnLine[at..at + |PersonalityHeading|] == PersonalityHeading;
    OccursContains(ReturnLine, PersonalityHeading, at);
    var at2 := at + |PersonalityHeading| + 7;
    assert ReturnLine[at2..at2 + |SummaryHeading|] == SummaryHeading;
    OccursContains(ReturnLine, SummaryHeading, at2);
  }

  // ----- The completion reply -----

  const GenerationFailed := "Failed to generate report text"

  /**
   * `_parseSections`: split on the first heading; without it both sections are empty. The
   * trimmed text after it is split on the second heading when present, otherwise it is all
   * personality.
   */
  function ParseSections(text: string): (r: Sections)
    ensures IsTrimmed(r.personality) && IsTrimmed(r.summary)
  {
    var parts := Split(text, PersonalityHeading);
    if |parts| < 2 then Sections("", "") else SplitRemainder(Trim(parts[1]))
  }

  /** The second step of `_parseSections`, on the trimmed text after the first heading. */
  function SplitRemainder(second: string): (r: Sections)
    requires IsTrimmed(second)
    ensures IsTrimmed(r.personality) && IsTrimmed(r.summary)
  {
    if Contains(second, SummaryHeading) then
      var halves := Split(second, SummaryHeading);
      Sections(Trim(halves[0]), Trim(halves[1]))
    else Sections(second, "")
  }

  /** Without the first heading, both sections are empty. */
  lemma ParseWithoutHeading(text: string)
    requires !Contains(text, PersonalityHeading)
    ensures ParseSections(text) == Sections("", "")
  {
  }

  /**
   * With the first heading after `pre`, the personality text is the trimmed `mid` between it
   * and the next heading (or the end); when that contains no summary heading, the summary is
   * empty.
   */
  lemma ParseFirstHeadingOnly(pre: string, mid: string, rest: string)
    requires !Contains(pre, PersonalityHeading) && !Contains(mid, PersonalityHeading)
    requires NextOrEnd(rest, PersonalityHeading)
    requires !Contains(Trim(mid), SummaryHeading)
    ensures ParseSections(pre + PersonalityHeading + mid + rest) == Sections(Trim(mid), "")
  {
    HeadingsStartUniquely();
    SplitAtFirst(pre, PersonalityHeading, mid, rest);
  }

  /**
   * When the trimmed text after the first heading reads `a`, the summary heading, `b` and then
   * the next summary heading (or the end), personality is trimmed `a` and summary trimmed `b`.
   */
  lemma ParseBothHeadings(pre: string, mid: string, rest: string, a: string, b: string, rest2: string)
    requires !Contains(pre, PersonalityHeading) && !Contains(mid, PersonalityHeading)
    requires NextOrEnd(rest, PersonalityHeading)
    requires Trim(mid) == a + SummaryHeading + b + rest2
    requires !Contains(a, SummaryHeading) && !Contains(b, SummaryHeading) && NextOrEnd(rest2, SummaryHeading)
    ensures ParseSections(pre + PersonalityHeading + mid + rest) == Sections(Trim(a), Trim(b))
  {
    HeadingsStartUniquely();
    SplitAtFirst(pre, PersonalityHeading, mid, rest);
    RemainderBoth(a, b, rest2);
  }

  lemma RemainderBoth(a: string, b: string, rest2: string)
    requires IsTrimmed(a + SummaryHeading + b + rest2)
    requires !Contains(a, SummaryHeading) && !Contains(b, SummaryHeading) && NextOrEnd(rest2, SummaryHeading)
    ensures SplitRemainder(a + SummaryHeading + b + rest2) == Sections(Trim(a), Trim(b))
  {
    HeadingsStartUniquely();
    var second := a + SummaryHeading + b + rest2;
    assert second == a + SummaryHeading + (b + rest2);
    OccursAfter(a, SummaryHeading, b + rest2);
    OccursContains(second, SummaryHeading, |a|);
    SplitAtFirst(a, SummaryHeading, b, rest2);
  }

  /** Neither heading's first letter recurs inside it. */
  lemma HeadingsStartUniquely()
    ensures forall d :: 0 < d < |PersonalityHeading| ==> PersonalityHeading[d] != PersonalityHeading[0]
    ensures forall d :: 0 < d < |SummaryHeading| ==> SummaryHeading[d] != SummaryHeading[0]
  {
  }

  /** Neither section ever contains either heading. */
  lemma {:induction false} SectionsLackHeadings(text: string)
    ensures var r := ParseSections(text);
      && !Contains(r.personality, PersonalityHeading) && !Contains(r.personality, SummaryHeading)
      && !Contains(r.summary, PersonalityHeading) && !Contains(r.summary, SummaryHeading)
  {
    var parts := Split(text, PersonalityHeading);
    assert !Contains("", PersonalityHeading) && !Contains("", SummaryHeading);
    if |parts| >= 2 {
      var second := Trim(parts[1]);
      TrimLacks(parts[1], PersonalityHeading);
      if Contains(second, SummaryHeading) {
        var halves := Split(second, SummaryHeading);
        SplitPartLacks(second, SummaryHeading, PersonalityHeading, 0);
        SplitPartLacks(second, SummaryHeading, PersonalityHeading, 1);
        TrimLacks(halves[0], PersonalityHeading);
        TrimLacks(halves[0], SummaryHeading);
        TrimLacks(halves[1], PersonalityHeading);
        TrimLacks(halves[1], SummaryHeading);
      }
    }
  }

  /**
   * A reply laid out as the prompt asks, the first heading, a text, the second heading and
   * another text, parses back to exactly those two texts.
   */
  lemma ParseWellFormedReply(preamble: string, personality: string, summary: string)
    requires !Contains(preamble, PersonalityHeading)
    requires !Contains(personality, PersonalityHeading) && !Contains(personality, SummaryHeading)
    requires !Contains(summary, PersonalityHeading) && !Contains(summary, SummaryHeading)
    requires personality != "" && IsTrimmed(personality) && summary != "" && IsTrimmed(summary)
    ensures ParseSections(preamble + PersonalityHeading + "\n" + personality + "\n\n" + SummaryHeading + "\n" + summary + "\n")
            == Sections(personality, summary)
  {
    var first := personality + "\n\n";
    var rest := "\n" + summary;
    var body := "\n" + (first + SummaryHeading + rest) + "\n";
    ReplyLayout(preamble, personality, summary);
    ReplyPiecesLack(personality, summary);
    ReplyTrims(personality, summary);
    ParseBothHeadings(preamble, body, "", first, rest, "");
  }

  /** The reply is the preamble, the first heading and a body holding the rest. */
  lemma ReplyLayout(preamble: string, personality: string, summary: string)
    ensures preamble + PersonalityHeading + "\n" + personality + "\n\n" + SummaryHeading + "\n" + summary + "\n"
         == preamble + PersonalityHeading + ("\n" + ((personality + "\n\n") + SummaryHeading + ("\n" + summary)) + "\n") + ""
  {
  }

  /** Trimming strips exactly the layout's line breaks. */
  lemma ReplyTrims(personality: string, summary: string)
    requires personality != "" && IsTrimmed(personality) && summary != "" && IsTrimmed(summary)
    ensures Trim("\n" + ((personality + "\n\n") + SummaryHeading + ("\n" + summary)) + "\n")
         == (personality + "\n\n") + SummaryHeading + ("\n" + summary) + ""
    ensures Trim(personality + "\n\n") == personality
    ensures Trim("\n" + summary) == summary
  {
    BodyTrim(personality, summary);
    BlankBreaks();
    TrimTrailing(personality, "\n\n");
    TrimLeading("\n", summary);
  }

  lemma BlankBreaks()
    ensures IsBlank("\n") && IsBlank("\n\n")
  {
    assert IsSpace("\n"[0]);
    assert IsSpace("\n\n"[0]) && IsSpace("\n\n"[1]);
  }

  lemma BodyTrim(personality: string, summary: string)
    requires personality != "" && IsTrimmed(personality) && summary != "" && IsTrimmed(summary)
    ensures Trim("\n" + ((personality + "\n\n") + SummaryHeading + ("\n" + summary)) + "\n")
         == (personality + "\n\n") + SummaryHeading + ("\n" + summary) + ""
  {
    var inner := (personality + "\n\n") + SummaryHeading + ("\n" + summary);
    TrimmedAround(personality, SummaryHeading, summary);
    TrimExact("\n", inner, "\n");
    assert inner + "" == inner;
  }

  /** Text that starts and ends trimmed stays trimmed with anything in between. */
  lemma TrimmedAround(a: string, m: string, b: string)
    requires a != "" && IsTrimmed(a) && b != "" && IsTrimmed(b)
    ensures IsTrimmed((a + "\n\n") + m + ("\n" + b))
  {
    var s := (a + "\n\n") + m + ("\n" + b);
    assert s[0] == a[0];
    assert s[|s| - 1] == b[|b| - 1];
  }

  /** The pieces of a well-formed reply lack the headings they must lack. */
  lemma ReplyPiecesLack(personality: string, summary: string)
    requires !Contains(personality, PersonalityHeading) && !Contains(personality, SummaryHeading)
    requires !Contains(summary, PersonalityHeading) && !Contains(summary, SummaryHeading)
    ensures !Contains(personality + "\n\n", SummaryHeading)
    ensures !Contains("\n" + summary, SummaryHeading)
    ensures !Contains("\n" + ((personality + "\n\n") + SummaryHeading + ("\n" + summary)) + "\n", PersonalityHeading)
  {
    var P, S := PersonalityHeading, SummaryHeading;
    var first := personality + "\n\n";
    var rest := "\n" + summary;
    LacksFirstChar("\n", P);
    LacksFirstChar("\n\n", P);
    LacksFirstChar(S, P);
    LacksFirstChar("\n", S);
    LacksFirstChar("\n\n", S);
    ConcatLacks(personality, "\n\n", P);
    ConcatLacks(personality, "\n\n", S);
    ConcatLacks("\n", summary, P);
    ConcatLacks("\n", summary, S);
    ConcatLacks(first, S, P);
    ConcatLacks(first + S, rest, P);
    ConcatLacks("\n", first + S + rest, P);
    ConcatLacks("\n" + (first + S + rest), "\n", P);
  }

  /** `generateReportSections` with the completion's reply as a parameter. */
  function GenerateReportSections(reply: Reply<string>): (r: Result<Sections, string>)
    ensures reply.Data? <==> r.Ok?
    ensures r.Ok? ==> r.value == ParseSections(reply.value)
    ensures r.Err? ==> r.error != "" && (reply.message != "" ==> r.error == reply.message)
  {
    match reply
    case Data(content) => Ok(ParseSections(content))
    case ErrorReply(m) => Err(if m == "" then GenerationFailed else m)
  }
}
