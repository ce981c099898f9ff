/**
 * `PdfGenerator` (src/services/PdfGenerator.js): `_formatAIText` and the structure of the
 * document `_generateHTML` lays out: a cover, then five pages headed "Vertraulicher Bericht
 * <name> - N -" for N = 2..6, holding the personal data table, one block per experience entry,
 * one block per education entry, and one div per narrative paragraph. Markup, CSS, images and
 * the cover date are not modelled; the document is kept as structured values.
 */
module PdfGenerator {
  import opened Text
  import opened EzekiaClient
  import opened OpenAIClient
  import opened ReportGenerator

  // ----- `_formatAIText` -----

  const EmDash: char := '\U{2014}'

  /** `text.replace(/--/g, '—')`: non-overlapping pairs of hyphens, left to right. */
  function ReplaceDashes(s: string): (r: string)
    ensures |r| <= |s|
  {
    if |s| >= 2 && s[0] == '-' && s[1] == '-' then [EmDash] + ReplaceDashes(s[2..])
    else if |s| >= 1 then [s[0]] + ReplaceDashes(s[1..])
    else ""
  }

  /** Turning every em dash back into two hyphens. */
  function RestoreDashes(s: string): string
  {
    if |s| == 0 then "" else (if s[0] == EmDash then "--" else [s[0]]) + RestoreDashes(s[1..])
  }

  /** The first character survives the rewrite unless it starts a pair of hyphens. */
  lemma ReplaceDashesHead(s: string)
    requires |s| >= 1 && s[0] != '-'
    ensures ReplaceDashes(s) != "" && ReplaceDashes(s)[0] == s[0]
  {
  }

  /** No two hyphens are left side by side. */
  lemma {:induction false} NoDoubleDash(s: string)
    ensures !Contains(ReplaceDashes(s), "--")
  {
    var r := ReplaceDashes(s);
    if |s| >= 2 && s[0] == '-' && s[1] == '-' {
      NoDoubleDash(s[2..]);
      LacksFirstChar([EmDash], "--");
      ConcatLacks([EmDash], ReplaceDashes(s[2..]), "--");
    } else if |s| >= 1 {
      var rest := ReplaceDashes(s[1..]);
      NoDoubleDash(s[1..]);
      if s[0] == '-' {
        if |s| >= 2 {
          ReplaceDashesHead(s[1..]);
          assert rest[0] != '-';
          ConcatLacks([s[0]], rest, "--");
        } else {
          assert r == "-";
        }
      } else {
        LacksFirstChar([s[0]], "--");
        ConcatLacks([s[0]], rest, "--");
      }
    }
  }

  /** Without em dashes in the input, restoring them undoes the rewrite. */
  lemma {:induction false} RestoreReplace(s: string)
    requires forall k :: 0 <= k < |s| ==> s[k] != EmDash
    ensures RestoreDashes(ReplaceDashes(s)) == s
  {
    if |s| >= 2 && s[0] == '-' && s[1] == '-' {
      RestoreReplace(s[2..]);
      assert ([EmDash] + ReplaceDashes(s[2..]))[1..] == ReplaceDashes(s[2..]);
      assert s == "--" + s[2..];
    } else if |s| >= 1 {
      RestoreReplace(s[1..]);
      assert ([s[0]] + ReplaceDashes(s[1..]))[1..] == ReplaceDashes(s[1..]);
      assert s == [s[0]] + s[1..];
    }
  }

  /** End of the run of newlines starting at `i`. */
  function RunEnd(s: string, i: nat): (j: nat)
    requires i <= |s|
    ensures i <= j <= |s|
    ensures forall k :: i <= k < j ==> s[k] == '\n'
    ensures j < |s| ==> s[j] != '\n'
    decreases |s| - i
  {
    if i < |s| && s[i] == '\n' then RunEnd(s, i + 1) else i
  }

  /** `s.split(/\n\n+/)`: cut at the leftmost run of two or more newlines, taking the whole run. */
  function Paragraphs(s: string): (r: seq<string>)
    ensures |r| >= 1
    ensures forall k :: 0 <= k < |r| ==> !Contains(r[k], "\n\n")
    decreases |s|
  {
    var i := IndexFrom(s, "\n\n", 0);
    if i < 0 then
      assert !Contains(s, "\n\n");
      [s]
    else
      PrefixLacks(s, "\n\n", i);
      [s[..i]] + Paragraphs(s[RunEnd(s, i)..])
  }

  /** A run of newlines of length two or more starts at `k`. */
  predicate RunStart(s: string, k: nat)
  {
    k + 1 < |s| && s[k] == '\n' && s[k + 1] == '\n' && (k == 0 || s[k - 1] != '\n')
  }

  /** The number of runs of two or more newlines starting at or after `k`. */
  function RunsFrom(s: string, k: nat): nat
    decreases |s| - k
  {
    if k + 1 >= |s| then 0 else (if RunStart(s, k) then 1 else 0) + RunsFrom(s, k + 1)
  }

  /** Positions without a run start contribute nothing. */
  lemma {:induction false} RunsSkip(s: string, a: nat, b: nat)
    requires a <= b
    requires forall k :: a <= k < b ==> !RunStart(s, k)
    ensures RunsFrom(s, a) == RunsFrom(s, b)
    decreases b - a
  {
    if a < b && a + 1 < |s| {
      RunsSkip(s, a + 1, b);
    } else if a < b {
      assert RunsFrom(s, a) == 0;
      RunsSkip2(s, b);
    }
  }

  lemma RunsSkip2(s: string, b: nat)
    requires b + 1 >= |s|
    ensures RunsFrom(s, b) == 0
  {
  }

  /** Counting from a position that is not a newline gives the same as counting in the suffix. */
  lemma {:induction false} RunsSuffix(s: string, j: nat, k: nat)
    requires j <= k <= |s|
    requires j == |s| || s[j] != '\n'
    ensures RunsFrom(s, k) == RunsFrom(s[j..], k - j)
    decreases |s| - k
  {
    if k + 1 < |s| {
      RunsSuffix(s, j, k + 1);
      assert RunStart(s, k) == RunStart(s[j..], k - j) by {
        if k > j {
          assert s[j..][k - j - 1] == s[k - 1];
        }
      }
    }
  }

  /** The number of paragraphs is the number of newline runs plus one. */
  lemma {:induction false} ParagraphCount(s: string)
    ensures |Paragraphs(s)| == RunsFrom(s, 0) + 1
    decreases |s|
  {
    var i := IndexFrom(s, "\n\n", 0);
    if i < 0 {
      NoRuns(s);
    } else {
      var j := RunEnd(s, i);
      FirstRun(s, i);
      ParagraphCount(s[j..]);
    }
  }

  /** Text without a blank line has no newline run. */
  lemma NoRuns(s: string)
    requires IndexFrom(s, "\n\n", 0) < 0
    ensures RunsFrom(s, 0) == 0
  {
    forall k | 0 <= k < |s| ensures !RunStart(s, k) {
      assert !OccursAt(s, "\n\n", k);
      if k + 1 < |s| {
        assert s[k..k + 2] == [s[k], s[k + 1]];
      }
    }
    RunsSkip(s, 0, |s|);
  }

  /** The first blank line starts the first run; counting resumes after that run. */
  lemma FirstRun(s: string, i: nat)
    requires i == IndexFrom(s, "\n\n", 0)
    ensures RunsFrom(s, 0) == 1 + RunsFrom(s[RunEnd(s, i)..], 0)
  {
    var j := RunEnd(s, i);
    BeforeFirstRun(s, i);
    RunsSkip(s, 0, i);
    assert RunStart(s, i) by {
      assert s[i..i + 2] == "\n\n";
      assert s[i] == s[i..i + 2][0] && s[i + 1] == s[i..i + 2][1];
      if i > 0 {
        assert !OccursAt(s, "\n\n", i - 1);
        assert s[i - 1..i + 1] == [s[i - 1], s[i]];
      }
    }
    forall k | i + 1 <= k < j ensures !RunStart(s, k) {
      assert s[k - 1] == '\n';
    }
    RunsSkip(s, i + 1, j);
    RunsSuffix(s, j, j);
  }

  lemma BeforeFirstRun(s: string, i: nat)
    requires i == IndexFrom(s, "\n\n", 0)
    ensures forall k :: 0 <= k < i ==> !RunStart(s, k)
  {
    forall k | 0 <= k < i ensures !RunStart(s, k) {
      assert !OccursAt(s, "\n\n", k);
      assert s[k..k + 2] == [s[k], s[k + 1]];
    }
  }

  /** Every paragraph is a piece of the text, so it lacks whatever the text lacks. */
  lemma {:induction false} ParagraphLacks(s: string, pat: string, k: nat)
    requires !Contains(s, pat) && k < |Paragraphs(s)|
    ensures !Contains(Paragraphs(s)[k], pat)
    decreases |s|
  {
    var i := IndexFrom(s, "\n\n", 0);
    if i >= 0 {
      var j := RunEnd(s, i);
      if k == 0 {
        SliceLacks(s, pat, 0, i);
        assert s[0..i] == s[..i];
      } else {
        SliceLacks(s, pat, j, |s|);
        assert s[j..|s|] == s[j..];
        ParagraphLacks(s[j..], pat, k - 1);
      }
    }
  }

  /** `_formatAIText`: no text, no paragraphs; otherwise rewrite the dashes, then split. */
  function FormatAIText(text: string): (paras: seq<string>)
    ensures text == "" <==> paras == []
  {
    if text == "" then [] else Paragraphs(ReplaceDashes(text))
  }

  /**
   * Each paragraph is free of "--" and of blank lines, and there is one paragraph more than
   * there are runs of two or more newlines in the rewritten text.
   */
  lemma FormatAITextSpec(text: string)
    requires text != ""
    ensures var paras := FormatAIText(text);
      && |paras| == RunsFrom(ReplaceDashes(text), 0) + 1
      && forall k :: 0 <= k < |paras| ==> !Contains(paras[k], "--") && !Contains(paras[k], "\n\n")
  {
    var r := ReplaceDashes(text);
    ParagraphCount(r);
    NoDoubleDash(text);
    forall k | 0 <= k < |Paragraphs(r)| ensures !Contains(Paragraphs(r)[k], "--") {
      ParagraphLacks(r, "--", k);
    }
  }

  // ----- Document structure -----

  /** Cover page: candidate name, client (default "Client") and position line. */
  datatype Cover = Cover(candidate: string, client: string, position: string)

  /** The eight rows of the personal data table, as rendered text. */
  datatype PersonalTable = PersonalTable(
    name: string, address: string, phone: string, email: string, ageAndBirthdate: string,
    maritalStatus: string, nationality: string, languages: string)

  /** One experience block: dates, company line, job title and description. */
  datatype ExperienceBlock = ExperienceBlock(dates: string, companyLine: string, title: string, description: string)

  /** One education block; `furtherTraining` is the fixed "Weiterbildung" box. */
  datatype EducationBlock = EducationBlock(
    dates: string, degreeLine: string, institution: string, field: string, description: string, furtherTraining: bool)

  datatype Page =
    | PersonalPage(header: string, table: PersonalTable)
    | ExperiencePage(header: string, experience: seq<ExperienceBlock>)
    | EducationPage(header: string, education: seq<EducationBlock>)
    | PersonalityPage(header: string, personalityTexts: seq<string>)
    | SummaryPage(header: string, summaryTexts: seq<string>)

  datatype Document = Document(cover: Cover, pages: seq<Page>)

  function PageHeader(name: string, n: nat): string
  {
    "Vertraulicher Bericht " + name + " - " + NatToString(n) + " -"
  }

  /** `${age ? \`${age} J.\` : ''} / ${birthdate || ''}` */
  function AgeCell(age: Age, birthdate: string): (cell: string)
    ensures age.Truthy() ==> cell == IntToString(age.n) + " J. / " + birthdate
    ensures !age.Truthy() ==> cell == " / " + birthdate
  {
    (if age.Truthy() then IntToString(age.n) + " J." else "") + " / " + birthdate
  }

  /** One "<language> <level><br>" per entry of the language map, in its order. */
  function LanguagesCell(langs: seq<LanguageEntry>): string
  {
    if langs == [] then "" else langs[0].language + " " + langs[0].level + "<br>" + LanguagesCell(langs[1..])
  }

  /** With at least one language the cell is non-empty, and it holds each entry's "<language> <level><br>" item. */
  lemma {:induction false} LanguagesCellItems(langs: seq<LanguageEntry>, k: nat)
    requires k < |langs|
    ensures LanguagesCell(langs) != ""
    ensures Contains(LanguagesCell(langs), langs[k].language + " " + langs[k].level + "<br>")
  {
    var item := langs[0].language + " " + langs[0].level + "<br>";
    var rest := LanguagesCell(langs[1..]);
    assert LanguagesCell(langs) == item + rest;
    if k == 0 {
      ContainsStart(item, rest);
    } else {
      LanguagesCellItems(langs[1..], k - 1);
      ContainsAfter(item, rest, langs[k].language + " " + langs[k].level + "<br>");
    }
  }

  /** `${exp.company || ''}${exp.location ? \`, ${exp.location}\` : ', DE'}` */
  function CompanyLine(company: string, location: string): (line: string)
    ensures location != "" ==> line == company + ", " + location
    ensures location == "" ==> line == company + ", DE"
  {
    company + (if location != "" then ", " + location else ", DE")
  }

  /**
   * Normalized experience entries have no `location` field, so every company line gets the
   * ", DE" default.
   */
  function ExperienceBlockOf(e: ExperienceEntry): ExperienceBlock
  {
    ExperienceBlock(e.years, CompanyLine(e.company, ""), e.title, e.description)
  }

  function EducationBlockOf(e: EducationEntry, index: nat): EducationBlock
  {
    EducationBlock(e.years, "Abschluss " + e.degree, e.institution, e.field,
                   if e.description == "" then "-" else e.description, index == 0)
  }

  function ExperienceBlocks(exps: seq<ExperienceEntry>): (blocks: seq<ExperienceBlock>)
    ensures |blocks| == |exps|
  {
    seq(|exps|, k requires 0 <= k < |exps| => ExperienceBlockOf(exps[k]))
  }

  function EducationBlocks(edus: seq<EducationEntry>): (blocks: seq<EducationBlock>)
    ensures |blocks| == |edus|
  {
    seq(|edus|, k requires 0 <= k < |edus| => EducationBlockOf(edus[k], k))
  }

  function FurtherTrainingCount(blocks: seq<EducationBlock>): nat
  {
    if blocks == [] then 0 else (if blocks[0].furtherTraining then 1 else 0) + FurtherTrainingCount(blocks[1..])
  }

  lemma {:induction false} NoFurtherTraining(blocks: seq<EducationBlock>)
    requires forall k :: 0 <= k < |blocks| ==> !blocks[k].furtherTraining
    ensures FurtherTrainingCount(blocks) == 0
  {
    if blocks != [] {
      NoFurtherTraining(blocks[1..]);
    }
  }

  /** The "Weiterbildung" box appears exactly once when there is education, never otherwise. */
  lemma FurtherTrainingOnce(edus: seq<EducationEntry>)
    ensures FurtherTrainingCount(EducationBlocks(edus)) == if |edus| > 0 then 1 else 0
    ensures |edus| > 0 ==> EducationBlocks(edus)[0].furtherTraining
  {
    var blocks := EducationBlocks(edus);
    if |edus| > 0 {
      NoFurtherTraining(blocks[1..]);
    }
  }

  /** The cover's client line: `assignment.client?.name || 'Client'`. */
  function CoverOf(name: string, assignment: Assignment): Cover
  {
    Cover(name, OrDefault(assignment.client.name, "Client"), "Position: " + assignment.name)
  }

  /** The document `_generateHTML` lays out. */
  function GenerateDocument(data: CandidateRecord, sections: Sections, assignment: Assignment): Document
  {
    var p := data.personal;
    Document(
      CoverOf(p.name, assignment),
      [PersonalPage(PageHeader(p.name, 2), PersonalTable(
         p.name, p.address, p.phone, p.email, AgeCell(p.age, p.birthdate),
         p.maritalStatus, p.nationality, LanguagesCell(p.languages))),
       ExperiencePage(PageHeader(p.name, 3), ExperienceBlocks(data.experience)),
       EducationPage(PageHeader(p.name, 4), EducationBlocks(data.education)),
       PersonalityPage(PageHeader(p.name, 5), FormatAIText(sections.personality)),
       SummaryPage(PageHeader(p.name, 6), FormatAIText(sections.summary))])
  }

  /**
   * Five pages after the cover, numbered 2 to 6 in order; one experience block per entry in
   * order, each company line ending in ", DE"; one education block per entry with the
   * further-training box only on the first; one personality-text div per personality
   * paragraph and one summary-text div per summary paragraph.
   */
  lemma DocumentStructure(data: CandidateRecord, sections: Sections, assignment: Assignment)
    ensures var doc := GenerateDocument(data, sections, assignment);
      && |doc.pages| == 5
      && (forall k :: 0 <= k < 5 ==> doc.pages[k].header == PageHeader(data.personal.name, k + 2))
      && doc.pages[1].ExperiencePage? && |doc.pages[1].experience| == |data.experience|
      && (forall k :: 0 <= k < |data.experience| ==>
            doc.pages[1].experience[k].dates == data.experience[k].years
            && doc.pages[1].experience[k].companyLine == data.experience[k].company + ", DE")
      && doc.pages[2].EducationPage? && |doc.pages[2].education| == |data.education|
      && FurtherTrainingCount(doc.pages[2].education) == (if |data.education| > 0 then 1 else 0)
      && doc.pages[3].PersonalityPage? && doc.pages[3].personalityTexts == FormatAIText(sections.personality)
      && doc.pages[4].SummaryPage? && doc.pages[4].summaryTexts == FormatAIText(sections.summary)
  {
    FurtherTrainingOnce(data.education);
  }
}
