/**
 * `ReportGenerator` (src/services/ReportGenerator.js): the per-item defaulting of assignment
 * and candidate lists, the config-driven filtering of the record handed to the prompt, the
 * error wrapping of report generation, and the fixed Markdown template.
 */
module ReportGenerator {
  import opened Wrappers
  import opened Text
  import opened EzekiaClient
  import opened OpenAIClient

  // ----- Assignments -----

  /** An assignment as the projects endpoint returns it; "" and 0 stand for absent fields. */
  datatype RawAssignment = RawAssignment(
    id: int, name: string, status: string, companyName: string, companyImageUrl: string,
    contactPerson: string, createdAt: string, description: string, candidatesCount: int)

  /** `client.logo` is null when the company has no image. */
  datatype Client = Client(name: string, logo: Option<string>)

  datatype Assignment = Assignment(
    id: int, name: string, status: string, client: Client, contactPerson: string,
    createdAt: string, description: string, candidatesCount: int)

  function OrDefault(s: string, default: string): (r: string)
    ensures s != "" ==> r == s
    ensures s == "" ==> r == default
  {
    if s == "" then default else s
  }

  /** The object literal in `fetchAssignments`' map; `now` is the clock's ISO timestamp. */
  function AssignmentOf(a: RawAssignment, now: string): Assignment
  {
    Assignment(
      a.id,
      OrDefault(a.name, "Unnamed Assignment"),
      OrDefault(a.status, "Unknown"),
      Client(OrDefault(a.companyName, "No Client"), if a.companyImageUrl == "" then None else Some(a.companyImageUrl)),
      OrDefault(a.contactPerson, "N/A"),
      OrDefault(a.createdAt, now),
      OrDefault(a.description, "No description available."),
      a.candidatesCount)
  }

  /** `fetchAssignments`: a failed fetch propagates; an empty list stays empty; otherwise map each item. */
  function FetchAssignments(fetched: Result<seq<RawAssignment>, string>, now: string): (r: Result<seq<Assignment>, string>)
    ensures fetched.Err? <==> r.Err?
    ensures r.Err? ==> r.error == fetched.error
  {
    match fetched
    case Err(e) => Err(e)
    case Ok(list) =>
      if |list| == 0 then Ok([])
      else Ok(seq(|list|, k requires 0 <= k < |list| => AssignmentOf(list[k], now)))
  }

  /**
   * Same length and order as the upstream list, ids and counts copied, each present upstream
   * value kept, each absent one replaced by its documented default (the clock reading for the
   * creation date), so every display field is non-empty given a non-empty clock reading.
   */
  lemma FetchAssignmentsSpec(list: seq<RawAssignment>, now: string)
    requires now != ""
    ensures var r := FetchAssignments(Ok(list), now);
      && r.Ok? && |r.value| == |list|
      && forall k :: 0 <= k < |list| ==>
        var a, out := list[k], r.value[k];
        && out.id == a.id
        && out.candidatesCount == a.candidatesCount
        && out.name != "" && out.status != "" && out.client.name != "" && out.contactPerson != ""
        && out.createdAt != "" && out.description != ""
        && out.name == (if a.name != "" then a.name else "Unnamed Assignment")
        && out.status == (if a.status != "" then a.status else "Unknown")
        && out.client.name == (if a.companyName != "" then a.companyName else "No Client")
        && out.client.logo == (if a.companyImageUrl != "" then Some(a.companyImageUrl) else None)
        && out.contactPerson == (if a.contactPerson != "" then a.contactPerson else "N/A")
        && out.createdAt == (if a.createdAt != "" then a.createdAt else now)
        && out.description == (if a.description != "" then a.description else "No description available.")
  {
  }

  // ----- Candidates -----

  /** A candidate as the assignment's candidates endpoint returns it. */
  datatype RawCandidateSummary = RawCandidateSummary(
    id: int, name: string, firstName: string, lastName: string, status: string,
    profilePicture: string, positions: Option<seq<RawPosition>>, experienceYears: string)

  datatype Candidate = Candidate(
    id: int, name: string, status: string, photo: string, positions: seq<RawPosition>, experienceYears: string)

  /** `name || \`${firstName || ''} ${lastName || ''}\`.trim() || 'Unknown'` */
  function CandidateName(name: string, firstName: string, lastName: string): (r: string)
    ensures r != ""
    ensures name != "" ==> r == name
    ensures name == "" && !IsBlank(firstName + " " + lastName) ==> r == Trim(firstName + " " + lastName) && IsTrimmed(r)
    ensures name == "" && IsBlank(firstName + " " + lastName) ==> r == "Unknown"
  {
    if name != "" then name
    else
      var full := Trim(firstName + " " + lastName);
      if full != "" then full else "Unknown"
  }

  /** A first and a last name that are themselves trimmed are joined by one space. */
  lemma CandidateNameFromParts(firstName: string, lastName: string)
    requires firstName != "" && IsTrimmed(firstName) && lastName != "" && IsTrimmed(lastName)
    ensures CandidateName("", firstName, lastName) == firstName + " " + lastName
  {
    var full := firstName + " " + lastName;
    assert full[0] == firstName[0] && full[|full| - 1] == lastName[|lastName| - 1];
    TrimExact("", full, "");
    assert "" + full + "" == full;
  }

  function CandidateOf(c: RawCandidateSummary): Candidate
  {
    Candidate(
      c.id,
      CandidateName(c.name, c.firstName, c.lastName),
      OrDefault(c.status, "Active"),
      c.profilePicture,
      c.positions.GetOr([]),
      OrDefault(c.experienceYears, "N/A"))
  }

  /** `fetchCandidates`: like `fetchAssignments`, over the candidate mapping. */
  function FetchCandidates(fetched: Result<seq<RawCandidateSummary>, string>): (r: Result<seq<Candidate>, string>)
    ensures fetched.Err? <==> r.Err?
    ensures r.Err? ==> r.error == fetched.error
  {
    match fetched
    case Err(e) => Err(e)
    case Ok(list) =>
      if |list| == 0 then Ok([])
      else Ok(seq(|list|, k requires 0 <= k < |list| => CandidateOf(list[k])))
  }

  /**
   * Same length and order, ids and photos copied, the name as `CandidateName` derives it (so
   * never empty), each present value kept and each absent one replaced by its documented default.
   */
  lemma FetchCandidatesSpec(list: seq<RawCandidateSummary>)
    ensures var r := FetchCandidates(Ok(list));
      && r.Ok? && |r.value| == |list|
      && forall k :: 0 <= k < |list| ==>
        var c, out := list[k], r.value[k];
        && out.id == c.id
        && out.photo == c.profilePicture
        && out.name != "" && out.status != "" && out.experienceYears != ""
        && out.name == CandidateName(c.name, c.firstName, c.lastName)
        && out.status == (if c.status != "" then c.status else "Active")
        && out.positions == (if c.positions.Some? then c.positions.value else [])
        && out.experienceYears == (if c.experienceYears != "" then c.experienceYears else "N/A")
  {
  }

  // ----- Report generation -----

  /** The three include flags of the report configuration. */
  datatype ReportConfig = ReportConfig(includePersonal: bool, includeExperience: bool, includeEducation: bool)

  /** `generateReport` builds the prompt input by conditional field assignment. */
  method FilterForPrompt(data: CandidateRecord, config: ReportConfig) returns (filtered: FilteredData)
    ensures filtered.personal.Some? <==> config.includePersonal
    ensures filtered.experience.Some? <==> config.includeExperience
    ensures filtered.education.Some? <==> config.includeEducation
    ensures filtered.personal.Some? ==> filtered.personal.value == data.personal
    ensures filtered.experience.Some? ==> filtered.experience.value == data.experience
    ensures filtered.education.Some? ==> filtered.education.value == data.education
  {
    filtered := FilteredData(None, None, None);
    if config.includePersonal {
      filtered := filtered.(personal := Some(data.personal));
    }
    if config.includeExperience {
      filtered := filtered.(experience := Some(data.experience));
    }
    if config.includeEducation {
      filtered := filtered.(education := Some(data.education));
    }
  }

  /** What `generateReport` resolves to: the unfiltered record and the two sections. */
  datatype GeneratedReport = GeneratedReport(candidateData: CandidateRecord, sections: Sections)

  const ReportFailurePrefix := "Failed to generate report: "

  /**
   * `generateReport`. `candidate` is how `getAllCandidateData` settled; `complete` answers a
   * prompt as the completions endpoint would. Any failure is rethrown with a fixed prefix.
   */
  method GenerateReport(candidate: Result<CandidateRecord, string>, config: ReportConfig, complete: string -> Reply<string>)
    returns (r: Result<GeneratedReport, string>, prompt: string)
    ensures candidate.Err? ==> r == Err(ReportFailurePrefix + candidate.error)
    ensures r.Ok? ==> candidate.Ok? && r.value.candidateData == candidate.value
    ensures candidate.Ok? ==>
      var sections := GenerateReportSections(complete(prompt));
      && (sections.Ok? ==> r == Ok(GeneratedReport(candidate.value, sections.value)))
      && (sections.Err? ==> r == Err(ReportFailurePrefix + sections.error))
    ensures candidate.Ok? ==> prompt == CreatePrompt(FilteredData(
      if config.includePersonal then Some(candidate.value.personal) else None,
      if config.includeExperience then Some(candidate.value.experience) else None,
      if config.includeEducation then Some(candidate.value.education) else None))
  {
    prompt := "";
    if candidate.Err? {
      return Err(ReportFailurePrefix + candidate.error), prompt;
    }
    var data := candidate.value;
    var filtered := FilterForPrompt(data, config);
    prompt := CreatePrompt(filtered);
    var sections := GenerateReportSections(complete(prompt));
    if sections.Err? {
      return Err(ReportFailurePrefix + sections.error), prompt;
    }
    r := Ok(GeneratedReport(data, sections.value));
  }

  /** With every flag off, the prompt's profile shows N/A and its blocks are empty. */
  lemma EmptyConfigPrompt()
    ensures var lines := PromptLines(FilteredData(None, None, None));
      && lines[4] == "Name: N/A" && lines[5] == "Current Position: N/A" && lines[6] == "Age: N/A"
      && lines[7] == "Nationality: N/A" && lines[8] == "Languages: " && lines[11] == "" && lines[14] == ""
  {
    var lines := PromptLines(FilteredData(None, None, None));
    assert lines[..9][4] == lines[4];
    assert lines[9..15][2] == lines[11];
    assert lines[9..15][5] == lines[14];
  }

  // ----- Markdown -----

  /** The title line: the candidate's name, or "Candidate" when it is empty. */
  function MarkdownTitle(name: string): string
  {
    "# Candidate Report for " + OrDefault(name, "Candidate")
  }

  /** A heading line and the section text under it. */
  function MarkdownBlock(heading: string, text: string): string
  {
    "## " + heading + "\n" + text
  }

  /** `createMarkdownReport` */
  function CreateMarkdownReport(data: CandidateRecord, sections: Sections): string
  {
    MarkdownTitle(data.personal.name) + "\n\n"
    + MarkdownBlock(PersonalityHeading, sections.personality) + "\n\n"
    + MarkdownBlock(SummaryHeading, sections.summary) + "\n"
  }

  /**
   * The report starts with the title line, then holds the personality heading with its text
   * verbatim, then the summary heading with its text verbatim, and ends with a newline.
   */
  lemma MarkdownLayout(data: CandidateRecord, sections: Sections)
    ensures var md := CreateMarkdownReport(data, sections);
      var title := MarkdownTitle(data.personal.name);
      var first := MarkdownBlock(PersonalityHeading, sections.personality);
      var second := MarkdownBlock(SummaryHeading, sections.summary);
      && md[..|title|] == title
      && OccursAt(md, first, |title| + 2)
      && OccursAt(md, second, |title| + 2 + |first| + 2)
      && md[|title|..|title| + 2] == "\n\n"
      && md[|title| + 2 + |first|..|title| + 2 + |first| + 2] == "\n\n"
      && md[|md| - 1] == '\n'
      && |md| == |title| + |first| + |second| + 5
  {
    var title := MarkdownTitle(data.personal.name);
    var first := MarkdownBlock(PersonalityHeading, sections.personality);
    var second := MarkdownBlock(SummaryHeading, sections.summary);
    assert CreateMarkdownReport(data, sections) == title + "\n\n" + first + "\n\n" + second + "\n";
    BlankLineLayout(title, first, second);
  }

  /** Where the three parts of `title + "\n\n" + first + "\n\n" + second + "\n"` sit. */
  lemma BlankLineLayout(title: string, first: string, second: string)
    ensures var md := title + "\n\n" + first + "\n\n" + second + "\n";
      && md[..|title|] == title
      && OccursAt(md, first, |title| + 2)
      && OccursAt(md, second, |title| + 2 + |first| + 2)
      && md[|title|..|title| + 2] == "\n\n"
      && md[|title| + 2 + |first|..|title| + 2 + |first| + 2] == "\n\n"
      && md[|md| - 1] == '\n'
      && |md| == |title| + |first| + |second| + 5
  {
    var md := title + "\n\n" + first + "\n\n" + second + "\n";
    assert md == (title + "\n\n") + first + ("\n\n" + second + "\n");
    OccursAfter(title + "\n\n", first, "\n\n" + second + "\n");
    OccursAfter(title + "\n\n" + first + "\n\n", second, "\n");
    assert md[|title|..|title| + 2] == (title + "\n\n")[|title|..];
    var head := title + "\n\n" + first;
    assert md == head + ("\n\n" + second + "\n");
    assert md[|head|..|head| + 2] == ("\n\n" + second + "\n")[..2];
  }

  /** The title names the candidate when the name is known, and says "Candidate" otherwise. */
  lemma MarkdownTitleNames(name: string)
    ensures name != "" ==> MarkdownTitle(name) == "# Candidate Report for " + name
    ensures name == "" ==> MarkdownTitle(name) == "# Candidate Report for Candidate"
  {
  }
}
