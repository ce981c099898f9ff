/**
 * The data-shaping half of `EzekiaClient` (src/services/EzekiaClient.js): gateway replies are
 * parameters, and every upstream record is mapped to the normalized candidate record whose
 * fields are never absent. A string field that JavaScript reads through `x || default` is a
 * `string` here, with "" standing for missing, null and empty alike.
 */
module EzekiaClient {
  import opened Wrappers
  import opened Text
  import opened StableSort

  // ----- Upstream shapes -----

  datatype RawAddress = RawAddress(street: string, postalCode: string, city: string)
  datatype Phone = Phone(number: string)
  datatype Email = Email(email: string)

  /** One element of `languages`: `lang.language?.name` and `lang.level`. */
  datatype RawLanguage = RawLanguage(name: string, level: string)

  /** One position; `companyName` is `pos.company?.name`, `summary` the free-text description. */
  datatype RawPosition = RawPosition(startDate: string, endDate: string, title: string, companyName: string, summary: string)

  /**
   * An education record as it reaches `_processEducation`: either the dedicated endpoint's
   * shape, or an entry that `getEducation` synthesized from a position summary. The latter
   * has a `years` field but no `startYear`/`endYear`.
   */
  datatype RawEducation =
    | Structured(startYear: string, endYear: string, degree: string, institution: string, field: string, description: string)
    | Extracted(years: string, degree: string, institution: string, field: string, description: string)

  /** What `Date` reports for a valid date: full year, month 0..11 (`getMonth`), day of month. */
  datatype CalendarDate = CalendarDate(year: int, month: int, day: int)

  /**
   * The person record. `birthdayDate` is what `new Date(birthday)` denotes (None for an
   * Invalid Date); `birthdayText` is what `_formatDate` makes of a non-empty birthday.
   * `embeddedPositions` is `profile.positions`, None when absent (an empty array is present).
   */
  datatype RawDetail = RawDetail(
    name: string, address: RawAddress, phones: seq<Phone>, emails: seq<Email>,
    birthday: string, birthdayDate: Option<CalendarDate>, birthdayText: string,
    maritalStatus: string, nationality: string, languages: seq<RawLanguage>, photo: string,
    embeddedPositions: Option<seq<RawPosition>>)

  /** Raw assignment detail attached as `project`; its shape is passed through untouched. */
  type Project = map<string, string>

  /** The object `getAllCandidateData` hands to `_processCandidateData`. */
  datatype RawCandidate = RawCandidate(detail: RawDetail, positions: seq<RawPosition>, education: seq<RawEducation>, project: Option<Project>)

  // ----- Normalized record -----

  /** `age`: null for no birthday, NaN for an unparseable one, otherwise whole years. */
  datatype Age = NoAge | Years(n: int) | NotANumber {
    /** JavaScript truthiness of the value: null, NaN and 0 are falsy. */
    predicate Truthy() { Years? && n != 0 }
  }

  datatype LanguageEntry = LanguageEntry(language: string, level: string)

  datatype PersonalData = PersonalData(
    name: string, address: string, phone: string, email: string, age: Age, birthdate: string,
    maritalStatus: string, nationality: string, languages: seq<LanguageEntry>, photo: string)

  datatype EducationEntry = EducationEntry(years: string, degree: string, institution: string, field: string, description: string)
  datatype ExperienceEntry = ExperienceEntry(years: string, title: string, company: string, description: string)

  datatype CandidateRecord = CandidateRecord(
    personal: PersonalData, education: seq<EducationEntry>, experience: seq<ExperienceEntry>, projectData: Project)

  // ----- Gateway replies and `request` -----

  /** What `window.api.ezekiaRequest` resolves to: the body's data (already `|| default`), or `{error, message}`. */
  datatype Reply<T> = Data(value: T) | ErrorReply(message: string)

  const FetchFailed := "Failed to fetch data from Ezekia"

  /** `request`: an error reply becomes a rejection whose message falls back to a fixed text. */
  function Request<T>(reply: Reply<T>): (r: Result<T, string>)
    ensures reply.Data? <==> r.Ok?
    ensures r.Ok? ==> r.value == reply.value
    ensures r.Err? ==> r.error != ""
    ensures r.Err? && reply.message != "" ==> r.error == reply.message
    ensures r.Err? && reply.message == "" ==> r.error == FetchFailed
  {
    match reply
    case Data(v) => Ok(v)
    case ErrorReply(m) => Err(if m == "" then FetchFailed else m)
  }

  // ----- Address, phone, email -----

  /** The lines `_formatAddress` collects before joining them. */
  function AddressLines(a: RawAddress): seq<string>
  {
    (if a.street != "" then [a.street] else [])
    + (if a.postalCode != "" && a.city != "" then [a.postalCode + " " + a.city]
       else if a.city != "" then [a.city] else [])
  }

  /** `_formatAddress` */
  function FormatAddress(a: RawAddress): (text: string)
    ensures text == "" <==> a.street == "" && a.city == ""
    ensures a.city == "" ==> text == a.street
    ensures a.street != "" ==> |a.street| <= |text| && text[..|a.street|] == a.street
  {
    var lines := AddressLines(a);
    assert a.street != "" && |lines| == 2 ==> Join(lines, "\n") == a.street + "\n" + lines[1];
    Join(lines, "\n")
  }

  /**
   * Reading the address back line by line: street first when present, then "postalCode city"
   * when both are present, the city alone without a postal code, and nothing for a postal
   * code without a city.
   */
  lemma FormatAddressLines(a: RawAddress)
    requires !Contains(a.street, "\n") && !Contains(a.postalCode, "\n") && !Contains(a.city, "\n")
    requires a.street != "" || a.city != ""
    ensures var lines := Split(FormatAddress(a), "\n");
      && (a.street != "" ==> lines[0] == a.street)
      && (a.city != "" && a.postalCode != "" ==> lines[|lines| - 1] == a.postalCode + " " + a.city)
      && (a.city != "" && a.postalCode == "" ==> lines[|lines| - 1] == a.city)
      && |lines| == (if a.street != "" then 1 else 0) + (if a.city != "" then 1 else 0)
  {
    var lines := AddressLines(a);
    if a.postalCode != "" && a.city != "" {
      assert !Contains(" ", "\n") by { assert " "[0..1] == " " != "\n"; }
      JoinedLacks(a.postalCode, " ", a.city, "\n");
    }
    assert forall k :: 0 <= k < |lines| ==> !Contains(lines[k], "\n");
    SplitJoin(lines, "\n");
  }

  /** Concatenating strings that lack a one-character pattern does not create it. */
  lemma JoinedLacks(x: string, y: string, z: string, pat: string)
    requires |pat| == 1
    requires !Contains(x, pat) && !Contains(y, pat) && !Contains(z, pat)
    ensures !Contains(x + y + z, pat)
  {
    var s := x + y + z;
    forall i | 0 <= i <= |s| - 1 ensures !OccursAt(s, pat, i) {
      if i < |x| {
        assert s[i..i + 1] == x[i..i + 1];
        assert !OccursAt(x, pat, i);
      } else if i < |x| + |y| {
        assert s[i..i + 1] == y[i - |x|..i - |x| + 1];
        assert !OccursAt(y, pat, i - |x|);
      } else {
        assert s[i..i + 1] == z[i - |x| - |y|..i - |x| - |y| + 1];
        assert !OccursAt(z, pat, i - |x| - |y|);
      }
    }
  }

  /** `_getPrimaryPhone`: the first entry's number, or "". */
  function PrimaryPhone(phones: seq<Phone>): (r: string)
    ensures phones == [] ==> r == ""
    ensures phones != [] ==> r == phones[0].number
  {
    if |phones| == 0 then "" else phones[0].number
  }

  /** `_getPrimaryEmail`: the first entry's address, or "". */
  function PrimaryEmail(emails: seq<Email>): (r: string)
    ensures emails == [] ==> r == ""
    ensures emails != [] ==> r == emails[0].email
  {
    if |emails| == 0 then "" else emails[0].email
  }

  /** Only the first entry is ever read: whatever follows it does not matter. */
  lemma PrimaryContactIgnoresRest(p: Phone, e: Email, morePhones: seq<Phone>, moreEmails: seq<Email>)
    ensures PrimaryPhone([p] + morePhones) == PrimaryPhone([p]) == p.number
    ensures PrimaryEmail([e] + moreEmails) == PrimaryEmail([e]) == e.email
  {
  }

  // ----- Age -----

  /** (y1, m1, d1) is on or before (y2, m2, d2). */
  predicate OnOrBefore(a: CalendarDate, b: CalendarDate)
  {
    a.year < b.year || (a.year == b.year && (a.month < b.month || (a.month == b.month && a.day <= b.day)))
  }

  /** The `n`-th birthday after `birth` has happened by `today`. */
  predicate AnniversaryReached(birth: CalendarDate, today: CalendarDate, n: int)
  {
    OnOrBefore(CalendarDate(birth.year + n, birth.month, birth.day), today)
  }

  /** `_calculateAge` with the clock passed in as `today`. */
  function CalculateAge(birthday: string, birthDate: Option<CalendarDate>, today: CalendarDate): (age: Age)
    ensures birthday == "" <==> age == NoAge
  {
    if birthday == "" then NoAge
    else match birthDate
      case None => NotANumber
      case Some(b) =>
        var years := today.year - b.year;
        if today.month < b.month || (today.month == b.month && today.day < b.day) then Years(years - 1)
        else Years(years)
  }

  /** The age is the number of birthdays that have happened: the n-th has, the (n+1)-th has not. */
  lemma AgeCountsBirthdays(birthday: string, b: CalendarDate, today: CalendarDate)
    requires birthday != ""
    ensures CalculateAge(birthday, Some(b), today).Years?
    ensures var n := CalculateAge(birthday, Some(b), today).n;
      AnniversaryReached(b, today, n) && !AnniversaryReached(b, today, n + 1)
  {
  }

  /** The three dates of the age example: born 2000-06-15 (month 5 in `getMonth` terms). */
  lemma AgeExamples()
    ensures CalculateAge("2000-06-15", Some(CalendarDate(2000, 5, 15)), CalendarDate(2024, 5, 14)) == Years(23)
    ensures CalculateAge("2000-06-15", Some(CalendarDate(2000, 5, 15)), CalendarDate(2024, 5, 15)) == Years(24)
    ensures CalculateAge("2000-06-15", Some(CalendarDate(2000, 5, 15)), CalendarDate(2024, 5, 16)) == Years(24)
  {
  }

  // ----- Languages -----

  /** Index of `name` among the table's keys, or -1. */
  function KeyIndex(table: seq<LanguageEntry>, name: string): (i: int)
    ensures -1 <= i < |table|
    ensures i >= 0 ==> table[i].language == name
    ensures i == -1 ==> forall k :: 0 <= k < |table| ==> table[k].language != name
  {
    if table == [] then -1
    else if table[|table| - 1].language == name then |table| - 1
    else KeyIndex(table[..|table| - 1], name)
  }

  /** `result[name] = level` on a plain object: an existing key keeps its place, a new one goes last. */
  function Assign(table: seq<LanguageEntry>, name: string, level: string): seq<LanguageEntry>
  {
    var i := KeyIndex(table, name);
    if i >= 0 then table[i := LanguageEntry(name, level)] else table + [LanguageEntry(name, level)]
  }

  /** The object `_formatLanguages` builds, in insertion order. */
  function LanguageTable(langs: seq<RawLanguage>): seq<LanguageEntry>
  {
    if langs == [] then []
    else
      var table := LanguageTable(langs[..|langs| - 1]);
      var last := langs[|langs| - 1];
      if last.name != "" then Assign(table, last.name, last.level) else table
  }

  /** Reference reading: the level of the last entry that names `name`. */
  function LastLevel(langs: seq<RawLanguage>, name: string): Option<string>
  {
    if langs == [] then None
    else if langs[|langs| - 1].name == name then Some(langs[|langs| - 1].level)
    else LastLevel(langs[..|langs| - 1], name)
  }

  predicate UniqueKeys(table: seq<LanguageEntry>)
  {
    forall i, j :: 0 <= i < j < |table| ==> table[i].language != table[j].language
  }

  /** `result[name]` on the table: the level stored under `name`, if any. */
  function Lookup(table: seq<LanguageEntry>, name: string): Option<string>
  {
    var i := KeyIndex(table, name);
    if i >= 0 then Some(table[i].level) else None
  }

  /** With unique keys, the only index holding a key is the one `KeyIndex` finds. */
  lemma KeyIndexUnique(table: seq<LanguageEntry>, i: nat)
    requires UniqueKeys(table) && i < |table|
    ensures KeyIndex(table, table[i].language) == i
  {
  }

  /** Assigning a key keeps keys unique, grows the table by at most one, and changes only that key. */
  lemma AssignSpec(table: seq<LanguageEntry>, name: string, level: string)
    requires UniqueKeys(table)
    ensures UniqueKeys(Assign(table, name, level))
    ensures |Assign(table, name, level)| <= |table| + 1
    ensures forall n :: Lookup(Assign(table, name, level), n) == if n == name then Some(level) else Lookup(table, n)
  {
    var t := Assign(table, name, level);
    var i := KeyIndex(table, name);
    assert forall k :: 0 <= k < |table| ==> t[k].language == table[k].language;
    assert |t| > |table| ==> t[|table|].language == name;
    assert UniqueKeys(t);
    forall n ensures Lookup(t, n) == if n == name then Some(level) else Lookup(table, n) {
      if n == name {
        var at := if i >= 0 then i else |table|;
        KeyIndexUnique(t, at);
      } else {
        var j := KeyIndex(table, n);
        if j >= 0 {
          KeyIndexUnique(t, j);
        } else {
          assert forall k :: 0 <= k < |t| ==> t[k].language != n;
        }
      }
    }
  }

  /**
   * The table has unique keys and no more keys than input entries, and looking up a name
   * gives the level of the last entry with that name; the empty name is never a key.
   */
  lemma {:induction false} LanguageTableSpec(langs: seq<RawLanguage>)
    ensures UniqueKeys(LanguageTable(langs))
    ensures |LanguageTable(langs)| <= |langs|
    ensures forall n :: Lookup(LanguageTable(langs), n) == if n == "" then None else LastLevel(langs, n)
  {
    if langs != [] {
      var prefix := langs[..|langs| - 1];
      var last := langs[|langs| - 1];
      LanguageTableSpec(prefix);
      var t := LanguageTable(prefix);
      if last.name != "" {
        AssignSpec(t, last.name, last.level);
      }
    }
  }

  /** `_formatLanguages`: a loop that writes each named language into the result object. */
  method FormatLanguages(langs: seq<RawLanguage>) returns (table: seq<LanguageEntry>)
    ensures table == LanguageTable(langs)
  {
    table := [];
    for i := 0 to |langs|
      invariant table == LanguageTable(langs[..i])
    {
      assert langs[..i + 1][..i] == langs[..i];
      var lang := langs[i];
      if lang.name != "" {
        table := Assign(table, lang.name, lang.level);
      }
    }
    assert langs[..|langs|] == langs;
  }

  // ----- Education and positions -----

  /** `years.split(' - ')[1] || ''`: the end token both comparators look at. */
  function EndToken(years: string): string
  {
    var parts := Split(years, " - ");
    if |parts| >= 2 then parts[1] else ""
  }

  /** For space-free dates, the end token of "start - end" is exactly `end`. */
  lemma EndTokenOf(start: string, end: string)
    requires forall k :: 0 <= k < |start| ==> start[k] != ' '
    requires forall k :: 0 <= k < |end| ==> end[k] != ' '
    ensures EndToken(start + " - " + end) == end
  {
    var s := start + " - " + end;
    FirstSeparator(start, end);
    assert s[|start| + 3..] == end;
    assert Split(s, " - ") == [s[..|start|]] + Split(end, " - ");
    LacksFirstChar(end, " - ");
    assert Split(end, " - ") == [end] by {
      var parts := Split(end, " - ");
      assert |parts| == 1;
      assert Join(parts, " - ") == parts[0];
    }
  }

  /** In "start - end" with a space-free start, the first " - " is the one after the start. */
  lemma FirstSeparator(start: string, end: string)
    requires forall k :: 0 <= k < |start| ==> start[k] != ' '
    ensures IndexFrom(start + " - " + end, " - ", 0) == |start|
  {
    var s := start + " - " + end;
    forall j | 0 <= j < |start| ensures !OccursAt(s, " - ", j) {
      assert s[j] == start[j];
      if j + 3 <= |s| {
        assert s[j..j + 3][0] == s[j];
      }
    }
    assert OccursAt(s, " - ", |start|) by { assert s[|start|..|start| + 3] == " - "; }
  }

  /** One element of the mapping loop in `_processEducation`; synthesized entries have no start/end year. */
  function EducationEntryOf(e: RawEducation): EducationEntry
  {
    match e
    case Structured(startYear, endYear, degree, institution, field, description) =>
      EducationEntry(startYear + " - " + endYear, degree, institution, field, description)
    case Extracted(_, degree, institution, field, description) =>
      EducationEntry(" - ", degree, institution, field, description)
  }

  function EducationEntries(raw: seq<RawEducation>): (r: seq<EducationEntry>)
    ensures |r| == |raw|
  {
    seq(|raw|, k requires 0 <= k < |raw| => EducationEntryOf(raw[k]))
  }

  /** The education comparator compares end tokens as strings, latest first. */
  function EducationKey(e: EducationEntry): SortKey
  {
    Token(EndToken(e.years))
  }

  /** The value `_processEducation` returns. */
  function ProcessedEducation(raw: seq<RawEducation>): seq<EducationEntry>
  {
    Sort(EducationEntries(raw), EducationKey)
  }

  /** `_processEducation`: map each record in a push loop, then sort by end year. */
  method ProcessEducation(raw: seq<RawEducation>) returns (result: seq<EducationEntry>)
    ensures result == ProcessedEducation(raw)
  {
    result := [];
    for i := 0 to |raw|
      invariant |result| == i
      invariant forall k :: 0 <= k < i ==> result[k] == EducationEntryOf(raw[k])
    {
      var entry := EducationEntryOf(raw[i]);
      result := result + [entry];
    }
    assert result == EducationEntries(raw);
    result := Sort(result, EducationKey);
  }

  /**
   * The education list is a permutation of the mapped input, ordered non-increasingly by end
   * token, keeps input order among equal end tokens, and puts empty end tokens last.
   */
  lemma ProcessedEducationSpec(raw: seq<RawEducation>)
    ensures var r := ProcessedEducation(raw);
      && multiset(r) == multiset(EducationEntries(raw))
      && (forall i, j :: 0 <= i < j < |r| ==> !Less(EndToken(r[i].years), EndToken(r[j].years)))
      && (forall i, j :: 0 <= i < j < |r| && EndToken(r[i].years) == "" ==> EndToken(r[j].years) == "")
      && (forall k :: WithKey(r, EducationKey, k) == WithKey(EducationEntries(raw), EducationKey, k))
  {
    var r := ProcessedEducation(raw);
    SortOrdered(EducationEntries(raw), EducationKey);
    forall i, j | 0 <= i < j < |r| ensures !Less(EndToken(r[i].years), EndToken(r[j].years)) {
      assert !Before(EducationKey(r[j]), EducationKey(r[i]));
    }
    forall i, j | 0 <= i < j < |r| && EndToken(r[i].years) == "" ensures EndToken(r[j].years) == "" {
      assert !Before(EducationKey(r[j]), EducationKey(r[i]));
    }
    forall k ensures WithKey(r, EducationKey, k) == WithKey(EducationEntries(raw), EducationKey, k) {
      SortStable(EducationEntries(raw), EducationKey, k);
    }
  }

  const PresentMarker := "Present"
  const OpenEndDate := "9999-12-31"

  /** One element of the mapping loop in `_processPositions`. */
  function ExperienceEntryOf(p: RawPosition): ExperienceEntry
  {
    var end := if p.endDate == OpenEndDate || p.endDate == "" then PresentMarker else p.endDate;
    ExperienceEntry(p.startDate + " - " + end, p.title, p.companyName, p.summary)
  }

  function ExperienceEntries(raw: seq<RawPosition>): (r: seq<ExperienceEntry>)
    ensures |r| == |raw|
  {
    seq(|raw|, k requires 0 <= k < |raw| => ExperienceEntryOf(raw[k]))
  }

  /** The positions comparator puts "Present" before everything, then compares end tokens latest first. */
  function PositionKey(e: ExperienceEntry): SortKey
  {
    var t := EndToken(e.years);
    if t == PresentMarker then Open else Token(t)
  }

  /** The value `_processPositions` returns. */
  function ProcessedPositions(raw: seq<RawPosition>): seq<ExperienceEntry>
  {
    Sort(ExperienceEntries(raw), PositionKey)
  }

  /** `_processPositions`: map each position in a push loop, then sort most recent first. */
  method ProcessPositions(raw: seq<RawPosition>) returns (result: seq<ExperienceEntry>)
    ensures result == ProcessedPositions(raw)
  {
    result := [];
    for i := 0 to |raw|
      invariant |result| == i
      invariant forall k :: 0 <= k < i ==> result[k] == ExperienceEntryOf(raw[k])
    {
      var entry := ExperienceEntryOf(raw[i]);
      result := result + [entry];
    }
    assert result == ExperienceEntries(raw);
    result := Sort(result, PositionKey);
  }

  /** A position whose end date is missing or 9999-12-31 is shown as open-ended. */
  lemma OpenEndedPosition(p: RawPosition)
    requires p.endDate == OpenEndDate || p.endDate == ""
    requires forall k :: 0 <= k < |p.startDate| ==> p.startDate[k] != ' '
    ensures ExperienceEntryOf(p).years == p.startDate + " - " + PresentMarker
    ensures PositionKey(ExperienceEntryOf(p)) == Open
  {
    var e := ExperienceEntryOf(p);
    assert e.years == p.startDate + " - " + PresentMarker;
    PresentMarkerHasNoSpace();
    EndTokenOf(p.startDate, PresentMarker);
  }

  lemma PresentMarkerHasNoSpace()
    ensures forall k :: 0 <= k < |PresentMarker| ==> PresentMarker[k] != ' '
  {
  }

  /**
   * The experience list is a permutation of the mapped input; an open-ended entry, if any,
   * is first; concrete end dates appear in non-increasing order; and entries with the same
   * concrete end date keep their input order. With exactly one open-ended entry, that entry
   * is the first element.
   */
  lemma ProcessedPositionsSpec(raw: seq<RawPosition>)
    ensures var r := ProcessedPositions(raw);
      && multiset(r) == multiset(ExperienceEntries(raw))
      && (forall j :: 0 <= j < |r| && PositionKey(r[j]) == Open ==> PositionKey(r[0]) == Open)
      && (forall i, j :: 0 <= i < j < |r| && PositionKey(r[i]).Token? && PositionKey(r[j]).Token? ==>
            !Less(EndToken(r[i].years), EndToken(r[j].years)))
      && (forall i, j :: 0 <= i < j < |r| && PositionKey(r[i]).Token? ==> PositionKey(r[j]).Token?)
      && (forall k: SortKey :: k.Token? ==> WithKey(r, PositionKey, k) == WithKey(ExperienceEntries(raw), PositionKey, k))
  {
    var r := ProcessedPositions(raw);
    forall k: SortKey | k.Token? ensures WithKey(r, PositionKey, k) == WithKey(ExperienceEntries(raw), PositionKey, k) {
      SortStable(ExperienceEntries(raw), PositionKey, k);
    }
    SortOrdered(ExperienceEntries(raw), PositionKey);
    forall j | 0 <= j < |r| && PositionKey(r[j]) == Open ensures PositionKey(r[0]) == Open {
      if j > 0 {
        assert !Before(PositionKey(r[j]), PositionKey(r[0]));
      }
    }
    forall i, j | 0 <= i < j < |r| && PositionKey(r[i]).Token? ensures PositionKey(r[j]).Token? {
      assert !Before(PositionKey(r[j]), PositionKey(r[i]));
    }
  }

  /** With a single open-ended position, that position's entry heads the experience list. */
  lemma SinglePresentFirst(raw: seq<RawPosition>, m: nat)
    requires m < |raw|
    requires PositionKey(ExperienceEntryOf(raw[m])) == Open
    requires forall k :: 0 <= k < |raw| && k != m ==> PositionKey(ExperienceEntryOf(raw[k])).Token?
    ensures ProcessedPositions(raw)[0] == ExperienceEntryOf(raw[m])
  {
    SortLeadsWithOpen(ExperienceEntries(raw), PositionKey, m);
  }

  // ----- Positions and the education heuristic -----

  /** What a fetch produced, and whether it had to call its dedicated endpoint. */
  datatype Fetch<T> = Fetch(result: Result<T, string>, queriedEndpoint: bool)

  /**
   * `getPositions`: embedded `profile.positions` win when present (even empty); only when
   * absent is the dedicated positions endpoint asked. Failures propagate.
   */
  function GetPositions(person: Reply<RawDetail>, positions: Reply<seq<RawPosition>>): (f: Fetch<seq<RawPosition>>)
    ensures f.queriedEndpoint <==> person.Data? && person.value.embeddedPositions.None?
    ensures person.Data? && person.value.embeddedPositions.Some? ==> f.result == Ok(person.value.embeddedPositions.value)
    ensures f.queriedEndpoint ==> f.result == Request(positions)
    ensures person.ErrorReply? ==> f.result == Err(Request(person).error)
  {
    match Request(person)
    case Err(m) => Fetch(Err(m), false)
    case Ok(d) =>
      match d.embeddedPositions
      case Some(ps) => Fetch(Ok(ps), false)
      case None => Fetch(Request(positions), true)
  }

  const EducationKeywords: seq<string> := ["ausbildung", "studium", "universit\U{00E4}t", "schule"]

  /** The summary test in `getEducation`: non-empty and, lowercased, mentions one keyword. */
  predicate MentionsEducation(summary: string)
  {
    summary != "" && exists w | w in EducationKeywords :: Contains(ToLower(summary), w)
  }

  /** `s.substr(0, 4)` */
  function Prefix4(s: string): string
  {
    if |s| <= 4 then s else s[..4]
  }

  /** The entry `getEducation` synthesizes from a matching position. */
  function ExtractedEntry(p: RawPosition): RawEducation
  {
    var end := if p.endDate == OpenEndDate then PresentMarker
               else if Prefix4(p.endDate) != "" then Prefix4(p.endDate) else PresentMarker;
    Extracted(if p.startDate != "" then Prefix4(p.startDate) + " - " + end else "",
              "Education/Training", p.companyName, p.title, p.summary)
  }

  /** The indices of the positions whose summary mentions education, in increasing order. */
  function Matching(ps: seq<RawPosition>): (ix: seq<nat>)
    ensures forall k :: 0 <= k < |ix| ==> ix[k] < |ps|
  {
    if ps == [] then []
    else
      var rest := Matching(ps[..|ps| - 1]);
      if MentionsEducation(ps[|ps| - 1].summary) then rest + [|ps| - 1] else rest
  }

  /** `Matching` lists every matching position and only those, each once, in increasing order. */
  lemma {:induction false} MatchingSpec(ps: seq<RawPosition>)
    ensures forall k :: 0 <= k < |Matching(ps)| ==> MentionsEducation(ps[Matching(ps)[k]].summary)
    ensures forall k, l :: 0 <= k < l < |Matching(ps)| ==> Matching(ps)[k] < Matching(ps)[l]
    ensures forall i :: 0 <= i < |ps| && MentionsEducation(ps[i].summary) ==> i in Matching(ps)
  {
    if ps != [] {
      var init := ps[..|ps| - 1];
      MatchingSpec(init);
      assert forall k :: 0 <= k < |init| ==> init[k] == ps[k];
    }
  }

  /** The entries the keyword heuristic yields, one per matching position, in position order. */
  function ExtractEducation(ps: seq<RawPosition>): (r: seq<RawEducation>)
    ensures |r| <= |ps|
    ensures forall k :: 0 <= k < |r| ==> r[k].Extracted? && r[k].degree == "Education/Training"
  {
    if ps == [] then []
    else
      var rest := ExtractEducation(ps[..|ps| - 1]);
      var last := ps[|ps| - 1];
      assert forall k :: 0 <= k < |ps| - 1 ==> ps[..|ps| - 1][k] == ps[k];
      if MentionsEducation(last.summary) then rest + [ExtractedEntry(last)] else rest
  }

  /**
   * The heuristic yields exactly one entry per matching position, in position order: the k-th
   * entry is synthesized from the k-th matching position, and every matching position is used.
   */
  lemma ExtractEducationOrder(ps: seq<RawPosition>)
    ensures |ExtractEducation(ps)| == |Matching(ps)|
    ensures forall k :: 0 <= k < |Matching(ps)| ==>
      ExtractEducation(ps)[k] == ExtractedEntry(ps[Matching(ps)[k]])
  {
    ExtractedCount(ps);
    forall k | 0 <= k < |Matching(ps)|
      ensures ExtractEducation(ps)[k] == ExtractedEntry(ps[Matching(ps)[k]])
    {
      ExtractedAt(ps, k);
    }
  }

  lemma {:induction false} ExtractedCount(ps: seq<RawPosition>)
    ensures |ExtractEducation(ps)| == |Matching(ps)|
  {
    if ps != [] {
      ExtractedCount(ps[..|ps| - 1]);
    }
  }

  /** The k-th entry comes from the k-th matching position. */
  lemma {:induction false} ExtractedAt(ps: seq<RawPosition>, k: nat)
    requires k < |Matching(ps)|
    ensures |ExtractEducation(ps)| == |Matching(ps)|
    ensures ExtractEducation(ps)[k] == ExtractedEntry(ps[Matching(ps)[k]])
  {
    ExtractedCount(ps);
    var init := ps[..|ps| - 1];
    ExtractedCount(init);
    var m, e := Matching(init), ExtractEducation(init);
    var matches := ExtractStep(ps);
    if k < |m| {
      ExtractedAt(init, k);
      var j := m[k];
      assert init[j] == ps[j];
      assert e[k] == ExtractedEntry(ps[j]);
      assert Matching(ps)[k] == j;
      assert ExtractEducation(ps)[k] == e[k];
    } else {
      assert matches && k == |m|;
      assert Matching(ps)[k] == |ps| - 1;
      assert ExtractEducation(ps)[k] == ExtractedEntry(ps[|ps| - 1]);
    }
  }

  /** The heuristic finds nothing exactly when no position's summary mentions education. */
  lemma ExtractedNone(ps: seq<RawPosition>)
    ensures ExtractEducation(ps) == [] <==> forall k :: 0 <= k < |ps| ==> !MentionsEducation(ps[k].summary)
  {
    ExtractedCount(ps);
    MatchingSpec(ps);
    if Matching(ps) != [] {
      assert MentionsEducation(ps[Matching(ps)[0]].summary);
    }
  }

  /** One step of both recursions: the last position adds an index and an entry exactly when it matches. */
  lemma ExtractStep(ps: seq<RawPosition>) returns (matches: bool)
    requires ps != []
    ensures matches == MentionsEducation(ps[|ps| - 1].summary)
    ensures Matching(ps) == Matching(ps[..|ps| - 1]) + (if matches then [|ps| - 1] else [])
    ensures ExtractEducation(ps) == ExtractEducation(ps[..|ps| - 1]) + (if matches then [ExtractedEntry(ps[|ps| - 1])] else [])
  {
    matches := MentionsEducation(ps[|ps| - 1].summary);
  }

  /** What the education endpoint request yields after `getEducation`'s catch: failures become []. */
  function EducationFallback(education: Reply<seq<RawEducation>>): seq<RawEducation>
  {
    match Request(education)
    case Ok(list) => list
    case Err(_) => []
  }

  /**
   * `getEducation`: scan the positions for education keywords; if any match, return those
   * entries without calling the education endpoint; otherwise call it and turn a failure into [].
   * A failure of the positions fetch propagates.
   */
  method GetEducation(person: Reply<RawDetail>, positions: Reply<seq<RawPosition>>, education: Reply<seq<RawEducation>>)
    returns (r: Result<seq<RawEducation>, string>, queriedEducation: bool)
    ensures GetPositions(person, positions).result.Err? ==>
      r == Err(GetPositions(person, positions).result.error) && !queriedEducation
    ensures GetPositions(person, positions).result.Ok? ==>
      var found := ExtractEducation(GetPositions(person, positions).result.value);
      && (queriedEducation <==> found == [])
      && r == Ok(if found != [] then found else EducationFallback(education))
  {
    var fetched := GetPositions(person, positions);
    if fetched.result.Err? {
      return Err(fetched.result.error), false;
    }
    var ps := fetched.result.value;
    var entries: seq<RawEducation> := [];
    for i := 0 to |ps|
      invariant entries == ExtractEducation(ps[..i])
    {
      assert ps[..i + 1][..i] == ps[..i];
      var pos := ps[i];
      if MentionsEducation(pos.summary) {
        entries := entries + [ExtractedEntry(pos)];
      }
    }
    assert ps[..|ps|] == ps;
    if |entries| > 0 {
      return Ok(entries), false;
    }
    queriedEducation := true;
    var reply := Request(education);
    if reply.Ok? {
      r := Ok(reply.value);
    } else {
      r := Ok([]);
    }
  }

  /**
   * A synthesized entry loses its years on the way through `_processEducation`, which reads
   * `startYear`/`endYear` only: whatever the position's dates, the normalized entry reads " - ".
   */
  lemma ExtractedYearsDropped(p: RawPosition)
    requires p.startDate != ""
    ensures ExtractedEntry(p).years != " - "
    ensures EducationEntryOf(ExtractedEntry(p)).years == " - "
  {
    var end := if p.endDate == OpenEndDate then PresentMarker
               else if Prefix4(p.endDate) != "" then Prefix4(p.endDate) else PresentMarker;
    assert |ExtractedEntry(p).years| == |Prefix4(p.startDate)| + 3 + |end|;
  }

  // ----- The normalized record -----

  /** The record `_processCandidateData` returns. */
  function Normalize(data: RawCandidate, today: CalendarDate): CandidateRecord
  {
    var d := data.detail;
    CandidateRecord(
      PersonalData(
        d.name, FormatAddress(d.address), PrimaryPhone(d.phones), PrimaryEmail(d.emails),
        CalculateAge(d.birthday, d.birthdayDate, today),
        if d.birthday == "" then "" else d.birthdayText,
        d.maritalStatus, d.nationality, LanguageTable(d.languages), d.photo),
      ProcessedEducation(data.education),
      ProcessedPositions(data.positions),
      data.project.GetOr(map[]))
  }

  /** `_processCandidateData`, calling the imperative helpers. */
  method ProcessCandidateData(data: RawCandidate, today: CalendarDate) returns (record: CandidateRecord)
    ensures record == Normalize(data, today)
  {
    var d := data.detail;
    var languages := FormatLanguages(d.languages);
    var education := ProcessEducation(data.education);
    var experience := ProcessPositions(data.positions);
    record := CandidateRecord(
      PersonalData(
        d.name, FormatAddress(d.address), PrimaryPhone(d.phones), PrimaryEmail(d.emails),
        CalculateAge(d.birthday, d.birthdayDate, today),
        if d.birthday == "" then "" else d.birthdayText,
        d.maritalStatus, d.nationality, languages, d.photo),
      education, experience, data.project.GetOr(map[]));
  }

  /**
   * Every field is defaulted rather than absent: one experience entry per position (so no
   * positions gives []), one education entry per record, age null exactly for an empty
   * birthday, an empty project object when none was attached, and a language table with no
   * more keys than input entries.
   */
  lemma NormalizeDefaults(data: RawCandidate, today: CalendarDate)
    ensures var r := Normalize(data, today);
      && |r.experience| == |data.positions|
      && (data.positions == [] ==> r.experience == [])
      && |r.education| == |data.education|
      && (r.personal.age == NoAge <==> data.detail.birthday == "")
      && (data.detail.birthday == "" ==> r.personal.birthdate == "")
      && (data.project.None? ==> r.projectData == map[])
      && |r.personal.languages| <= |data.detail.languages|
  {
    LanguageTableSpec(data.detail.languages);
  }

  /** All gateway replies a report needs; the same reply answers every call to an endpoint. */
  datatype Gateway = Gateway(
    person: Reply<RawDetail>, positions: Reply<seq<RawPosition>>,
    education: Reply<seq<RawEducation>>, project: Reply<Project>)

  /** What `getEducation` resolves to once the positions are known. */
  function EducationFor(ps: seq<RawPosition>, education: Reply<seq<RawEducation>>): seq<RawEducation>
  {
    var found := ExtractEducation(ps);
    if found != [] then found else EducationFallback(education)
  }

  /**
   * `getAllCandidateData`: fetch the person, positions and education (and the project when an
   * id is given), then normalize. The first failure rejects the whole call; on success the
   * record is the normalization of exactly the parts fetched.
   */
  method GetAllCandidateData(gw: Gateway, projectId: nat, today: CalendarDate) returns (r: Result<CandidateRecord, string>)
    ensures gw.person.ErrorReply? ==> r == Err(Request(gw.person).error)
    ensures gw.person.Data? && GetPositions(gw.person, gw.positions).result.Err? ==>
      r == Err(GetPositions(gw.person, gw.positions).result.error)
    ensures gw.person.Data? && GetPositions(gw.person, gw.positions).result.Ok? && projectId != 0 && gw.project.ErrorReply? ==>
      r == Err(Request(gw.project).error)
    ensures r.Ok? <==>
      gw.person.Data? && GetPositions(gw.person, gw.positions).result.Ok? && (projectId == 0 || gw.project.Data?)
    ensures r.Ok? ==>
      var ps := GetPositions(gw.person, gw.positions).result.value;
      r.value == Normalize(RawCandidate(gw.person.value, ps, EducationFor(ps, gw.education),
                                        if projectId != 0 then Some(gw.project.value) else None), today)
  {
    var person := Request(gw.person);
    if person.Err? {
      return Err(person.error);
    }
    var positions := GetPositions(gw.person, gw.positions);
    if positions.result.Err? {
      return Err(positions.result.error);
    }
    var education, _ := GetEducation(gw.person, gw.positions, gw.education);
    var project: Option<Project> := None;
    if projectId != 0 {
      var p := Request(gw.project);
      if p.Err? {
        return Err(p.error);
      }
      project := Some(p.value);
    }
    var record := ProcessCandidateData(RawCandidate(person.value, positions.result.value, education.value, project), today);
    r := Ok(record);
  }
}
