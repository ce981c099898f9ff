# PersonalQ report pipeline, modelled in Dafny

PersonalQ is an Electron and React desktop application. A recruiter picks an assignment (an
Ezekia "project") and one of its candidates. The application fetches the candidate's person,
positions and education records from the Ezekia API and normalises them into one record. It
asks OpenAI for two narrative sections, "PERSÖNLICHKEIT" and "ZUSAMMENFASSUNG", and lays the
result out as a Markdown report or as a paged HTML document that is printed to PDF. The main
process holds the two API keys in a local store and forwards every Ezekia call. The preload
bridge reshapes the array-valued `fields[]` parameter on the way there.

This project models that core:

- `EzekiaClient`: the address, contact, age, language, education and position normalisation,
  including both sort orders, and how `getAllCandidateData` combines its fetches (with one
  reply per endpoint; see "## Left out").
- `ReportGenerator`: the per-item defaults of the assignment and candidate lists, the
  configuration filter in front of the prompt, the error wrapping, and the Markdown template.
- `OpenAIClient`: the prompt template and the split of the reply into its two sections.
- `PdfGenerator`: `_formatAIText` and the page structure of `_generateHTML`.
- `ElectronMain`: the `ezekia-request` handler (key check, `fieldsArray` merge, query-string
  serializer, error fallback), `get-api-keys`, `save-api-keys` and the default file names.
- `Preload`: the `fields[]` to `fieldsArray` rewrite, and its round trip with the main process.
- `Assets`: `loadAsBase64`, with its cache, Base64 encoding, extension and MIME table.
- `AppContext`, `Dashboard`, `AssignmentList`, `CandidateList`, `MainContent`,
  `ReportConfigPanel` and `ApiKeyModal`: the renderer's shared state and the components that
  fetch, filter, select, gate report generation and edit the keys.

Shared pieces live in `Wrappers` (Option and Result), `Text` (the JavaScript string operations
used: `includes`, `indexOf`, `split`, `join`, `trim`, `toLowerCase`, `<` on strings, `String(n)`),
`StableSort` (`Array.prototype.sort` with a comparator that looks at one key; it is stable
since ECMAScript 2019), `Search` (the list filters the three list components share) and `Ipc`
(what crosses the bridge: the `params` object, the request options and the pair of keys).

Conventions:

- A string read through `x || default` is a `string`, and "" stands for missing, null and empty.
  An id read through `!id` is an `int`, and 0 stands for missing.
- A JavaScript object whose keys keep insertion order is a sequence of entries.
- Network replies, IPC replies, file contents, the clock and development mode are parameters.
  A promise that settles is a `Result`. A gateway reply is a `Reply`.
- A component is a class whose fields are its `useState` values. The shared context is the
  class `AppContext.AppState`. An effect that React runs after a state change is folded into
  the method that makes the change. For example, `SetSelectedAssignment` also clears the
  candidate and the report, as the effect on `[selectedAssignment]` does. Each list component
  keeps the invariant `Shows`: its filtered list equals the filter function applied to the
  context's list and the current search term.

## Model

| member | source | states |
|---|---|---|
| EzekiaClient.Request | src/services/EzekiaClient.js:25-55 | An error reply becomes a rejection carrying the reply's message, or "Failed to fetch data from Ezekia" when that is empty; data passes through unchanged. |
| EzekiaClient.FormatAddress | src/services/EzekiaClient.js:268-282 | The address is empty exactly when street and city both are, is the street alone without a city, and starts with the street when there is one. |
| EzekiaClient.FormatAddressLines | src/services/EzekiaClient.js:268-282 | Split on newlines, the address reads back as the street, then "postalCode city", or the city alone; a postal code without a city is dropped. |
| EzekiaClient.PrimaryPhone | src/services/EzekiaClient.js:285-291 | The first phone's number, or "" with no phones. |
| EzekiaClient.PrimaryEmail | src/services/EzekiaClient.js:294-300 | The first address, or "" with no addresses. |
| EzekiaClient.PrimaryContactIgnoresRest | src/services/EzekiaClient.js:285-300 | Entries after the first never affect the primary phone or email. |
| EzekiaClient.CalculateAge | src/services/EzekiaClient.js:303-326 | The age is null exactly when the birthday is empty. |
| EzekiaClient.AgeCountsBirthdays | src/services/EzekiaClient.js:303-326 | For a valid birth date, the age n is the number of birthdays passed: the n-th anniversary has been reached by today and the (n+1)-th has not. |
| EzekiaClient.AgeExamples | src/services/EzekiaClient.js:311-319 | Born 2000-06-15: 23 on 2024-06-14, 24 on the birthday itself and after it. |
| EzekiaClient.AssignSpec | src/services/EzekiaClient.js:344-357 | Writing `result[name] = level` keeps keys unique, adds at most one key, and changes the lookup of that name only. |
| EzekiaClient.LanguageTableSpec | src/services/EzekiaClient.js:344-357 | The language object has unique keys and at most one per input entry; each name maps to the level of its last entry, and the empty name is never a key. |
| EzekiaClient.FormatLanguages | src/services/EzekiaClient.js:344-357 | The loop builds exactly the language table that LanguageTableSpec describes. |
| EzekiaClient.EndTokenOf | src/services/EzekiaClient.js:376-378 | For space-free dates, the sort token `years.split(' - ')[1]` of "start - end" is `end`. |
| EzekiaClient.ProcessEducation | src/services/EzekiaClient.js:360-383 | The push loop followed by the sort yields the processed education list. |
| EzekiaClient.ProcessedEducationSpec | src/services/EzekiaClient.js:360-383 | The education list is a permutation of the mapped records. It is ordered latest end token first, with empty end tokens last, and keeps input order among equal tokens. |
| EzekiaClient.ProcessPositions | src/services/EzekiaClient.js:386-411 | The push loop followed by the sort yields the processed experience list. |
| EzekiaClient.OpenEndedPosition | src/services/EzekiaClient.js:390-395 | A position ending 9999-12-31 or without an end date reads "start - Present" and sorts as open-ended. |
| EzekiaClient.ProcessedPositionsSpec | src/services/EzekiaClient.js:386-411 | The experience list is a permutation of the mapped positions. Any open-ended entry comes before every dated one, dated entries are ordered latest end date first, and entries with the same end date keep their input order. |
| EzekiaClient.SinglePresentFirst | src/services/EzekiaClient.js:401-410 | With exactly one open-ended position, that position heads the experience list. |
| EzekiaClient.GetPositions | src/services/EzekiaClient.js:129-151 | Embedded `profile.positions` are used when present, even empty. The positions endpoint is queried exactly when they are absent, and a failed person fetch propagates. |
| EzekiaClient.ExtractEducation | src/services/EzekiaClient.js:163-179 | Every entry the keyword heuristic yields is an "Education/Training" entry, and there are no more entries than positions. |
| EzekiaClient.MatchingSpec | src/services/EzekiaClient.js:163-168 | The matching indices are exactly the positions whose non-empty summary, lower-cased, mentions one of the four keywords, each once and in increasing order. |
| EzekiaClient.ExtractEducationOrder | src/services/EzekiaClient.js:163-179 | The heuristic yields one entry per matching position, in position order: the k-th entry is synthesized from the k-th matching position. |
| EzekiaClient.ExtractedNone | src/services/EzekiaClient.js:163-185 | The heuristic finds nothing exactly when no summary mentions education. |
| EzekiaClient.GetEducation | src/services/EzekiaClient.js:155-201 | A failed positions fetch propagates. The education endpoint is queried exactly when the heuristic finds nothing, and its failure becomes an empty list. |
| EzekiaClient.ExtractedYearsDropped | src/services/EzekiaClient.js:171-177 | A synthesized entry carries real years, yet after normalisation its years read " - ", because line 365 reads only `startYear`/`endYear`. |
| EzekiaClient.ProcessCandidateData | src/services/EzekiaClient.js:245-265 | The method that calls the imperative helpers returns the normalized record. |
| EzekiaClient.NormalizeDefaults | src/services/EzekiaClient.js:245-265 | Every field is defaulted. There is one experience entry per position and one education entry per record. Age is null exactly for an empty birthday. The project defaults to `{}`, and there are no more languages than input entries. |
| EzekiaClient.GetAllCandidateData | src/services/EzekiaClient.js:221-242 | The call rejects with the first failure among the person, positions and (with a project id) project fetches, and resolves otherwise. On success the record is the normalization of exactly the fetched person, positions, education (the heuristic's entries, else the endpoint's, else []) and project, `{}` without a project id. |
| ReportGenerator.OrDefault | src/services/ReportGenerator.js:42-51 | `s || default` on strings. |
| ReportGenerator.FetchAssignments | src/services/ReportGenerator.js:27-57 | A failed fetch rejects with the same error; a successful one resolves. |
| ReportGenerator.FetchAssignmentsSpec | src/services/ReportGenerator.js:33-52 | Same length and order, ids and counts copied. Each present value is kept and each absent one becomes its default: 'Unnamed Assignment', 'Unknown', 'No Client', 'N/A', the clock reading and 'No description available.'; the logo is null exactly without an image URL. Every display field is non-empty. |
| ReportGenerator.CandidateName | src/services/ReportGenerator.js:74 | The name is never empty: the given name, else the trimmed "first last", else "Unknown". |
| ReportGenerator.CandidateNameFromParts | src/services/ReportGenerator.js:74 | Trimmed first and last names are joined by a single space. |
| ReportGenerator.FetchCandidates | src/services/ReportGenerator.js:60-84 | A failed fetch rejects with the same error; a successful one resolves. |
| ReportGenerator.FetchCandidatesSpec | src/services/ReportGenerator.js:66-79 | Same length and order, ids and photos copied, the name as CandidateName derives it. A present status, `profile.positions` or `experience_years` is kept; absent ones become 'Active', `[]` and 'N/A'. |
| ReportGenerator.FilterForPrompt | src/services/ReportGenerator.js:95-107 | Each part of the record reaches the prompt exactly when its flag is set, and then unchanged. |
| ReportGenerator.GenerateReport | src/services/ReportGenerator.js:87-122 | A failed fetch or completion rejects with "Failed to generate report: " and its message. The prompt is built from the filtered record, and success returns the unfiltered record with the parsed sections. |
| ReportGenerator.EmptyConfigPrompt | src/services/ReportGenerator.js:95-107 | With every flag off, the prompt's profile reads N/A throughout and both history blocks are empty. |
| ReportGenerator.MarkdownLayout | src/services/ReportGenerator.js:125-136 | The report is the title line, a blank line, the personality heading with its text verbatim, a blank line, the summary heading with its text verbatim, and a final newline; its length is that of the three parts plus the five newlines. |
| ReportGenerator.MarkdownTitleNames | src/services/ReportGenerator.js:126-128 | The title names the candidate, or "Candidate" when the name is empty. |
| OpenAIClient.OrNotAvailable | src/services/OpenAIClient.js:79-82 | `x || 'N/A'` keeps a present value and turns a missing one into 'N/A'. |
| OpenAIClient.AgeText | src/services/OpenAIClient.js:81 | The age prints as N/A exactly when it is falsy (null, NaN or 0). |
| OpenAIClient.CurrentRole | src/services/OpenAIClient.js:71-73 | "title at company" from the first experience entry with N/A defaults, or N/A without experience. |
| OpenAIClient.PromptLines | src/services/OpenAIClient.js:54-107 | The prompt has 32 lines: the profile, the history blocks and the fixed task text, each part from its defaulted input. |
| OpenAIClient.ProfileLines | src/services/OpenAIClient.js:75-83 | The name, current role, age, nationality and languages lines, each with its N/A default. |
| OpenAIClient.HistoryLines | src/services/OpenAIClient.js:84-89 | The experience block holds one line per entry and the education block one per record. |
| OpenAIClient.PromptInTemplateOrder | src/services/OpenAIClient.js:74-106 | Every template line occurs in the prompt, each ending before the next one starts. |
| OpenAIClient.ExperienceInOrder | src/services/OpenAIClient.js:59-61 | Experience lines appear in input order. |
| OpenAIClient.EducationInOrder | src/services/OpenAIClient.js:63-65 | Education lines appear in input order. |
| OpenAIClient.LanguagesEmpty | src/services/OpenAIClient.js:67-69 | The languages list is empty exactly when there are no languages. |
| OpenAIClient.PromptEnding | src/services/OpenAIClient.js:75-106 | The prompt starts with a newline and ends with the line that asks for both headings. |
| OpenAIClient.ParseSections | src/services/OpenAIClient.js:110-134 | Both sections are always trimmed. |
| OpenAIClient.ParseWithoutHeading | src/services/OpenAIClient.js:111-118 | Without "PERSÖNLICHKEIT", both sections are empty. |
| OpenAIClient.ParseFirstHeadingOnly | src/services/OpenAIClient.js:119-131 | Without a summary heading, the trimmed text up to the next first heading is all personality and the summary is empty. |
| OpenAIClient.ParseBothHeadings | src/services/OpenAIClient.js:119-128 | With both headings, each section is the trimmed text between its heading and the next occurrence of a heading. |
| OpenAIClient.SectionsLackHeadings | src/services/OpenAIClient.js:110-134 | Neither section ever contains either heading. |
| OpenAIClient.ParseWellFormedReply | src/services/OpenAIClient.js:110-134 | A reply laid out as the prompt asks parses back to exactly the two texts it carries. |
| OpenAIClient.GenerateReportSections | src/services/OpenAIClient.js:16-51 | The call resolves exactly when the completion does, to the parsed reply; a failure rejects with a non-empty message, the reply's own when it has one. |
| PdfGenerator.ReplaceDashes | src/services/PdfGenerator.js:539 | The rewrite never lengthens the text. |
| PdfGenerator.NoDoubleDash | src/services/PdfGenerator.js:539 | After the rewrite, no two hyphens stand side by side. |
| PdfGenerator.RestoreReplace | src/services/PdfGenerator.js:539 | Without em dashes in the input, turning each em dash back into "--" undoes the rewrite. |
| PdfGenerator.Paragraphs | src/services/PdfGenerator.js:542 | `split(/\n\n+/)` yields at least one piece, and no piece holds a blank line. |
| PdfGenerator.ParagraphCount | src/services/PdfGenerator.js:542 | There is one paragraph more than there are runs of two or more newlines. |
| PdfGenerator.FormatAIText | src/services/PdfGenerator.js:535-543 | No text gives no paragraphs, and any text gives some. |
| PdfGenerator.FormatAITextSpec | src/services/PdfGenerator.js:535-543 | Every paragraph is free of "--" and of blank lines, and the count is the number of newline runs plus one. |
| PdfGenerator.AgeCell | src/services/PdfGenerator.js:360 | "n J. / birthdate" for a truthy age, " / birthdate" otherwise. |
| PdfGenerator.LanguagesCellItems | src/services/PdfGenerator.js:377-379 | Every language appears as "language level<br>", so the cell is non-empty when there is a language. |
| PdfGenerator.CompanyLine | src/services/PdfGenerator.js:437 | "company, location", or "company, DE" without a location. |
| PdfGenerator.FurtherTrainingOnce | src/services/PdfGenerator.js:457-492 | The "Weiterbildung" box appears once, on the first education block, when there is education, and never otherwise. |
| PdfGenerator.DocumentStructure | src/services/PdfGenerator.js:308-524 | After the cover come five pages headed "- 2 -" to "- 6 -". There is one experience block per entry, each company line ending ", DE", and one education block per record. The personality and summary pages hold one div per paragraph. |
| ElectronMain.EncodeURIComponent | public/electron.js:261-275 | Every character of an encoded component is unreserved, '%' or a hex digit, and encoding never shortens. |
| ElectronMain.EncodeUnreserved | public/electron.js:261-275 | Unreserved text passes through unchanged. |
| ElectronMain.EncodedLacksSeparators | public/electron.js:261-275 | No encoded component contains '&' or '='. |
| ElectronMain.SerializeParams | public/electron.js:261-275 | The loop returns the '&'-joined pairs of all entries, in insertion order. |
| ElectronMain.PushParam | public/electron.js:264-271 | One entry adds one pair per array element, or one pair for a scalar. |
| ElectronMain.PairShape | public/electron.js:267-270 | A pair contains no '&' and splits on '=' into exactly the encoded key and value. |
| ElectronMain.PairsCounted | public/electron.js:261-275 | There are as many pairs as scalars plus array elements. |
| ElectronMain.QueryStringSplits | public/electron.js:261-275 | A non-empty query string splits on '&' back into exactly the pairs emitted. |
| ElectronMain.MergeFieldsArray | public/electron.js:242-247 | A non-empty `fieldsArray` becomes `params['fields[]']`, creating `params` if needed and leaving other entries alone; otherwise `params` is untouched. |
| ElectronMain.FailureMessage | public/electron.js:283-286 | The reply's message, else the error's, else "Failed to fetch data from Ezekia". |
| ElectronMain.ResolvedKey | public/electron.js:230 | The stored key wins; the environment's is used only when the store's is empty. |
| ElectronMain.HandleEzekiaRequest | public/electron.js:226-288 | Without a key, it replies "Ezekia API key not configured" and sends nothing. With a key, it sends one bearer request under that key and replies with the body or the failure message. |
| ElectronMain.KeyStore.GetApiKeys | public/electron.js:141-191 | The store becomes the filled store and the keys returned are its two entries. |
| ElectronMain.FillKeyCases | public/electron.js:146-182 | A stored key is kept. An empty one takes a non-empty environment value and nothing else changes. With both empty, the store is unchanged. |
| ElectronMain.FilledIdempotent | public/electron.js:141-191 | A second `get-api-keys` changes nothing. |
| ElectronMain.StoredKeyWins | public/electron.js:146-165 | A stored key is never overwritten from the environment. |
| ElectronMain.KeyStore.SaveApiKeys | public/electron.js:194-223 | Both keys are written and the read-back check succeeds. |
| ElectronMain.Sanitize | public/electron.js:297 | Every UTF-16 code unit outside [A-Za-z0-9] becomes '_', one output character per code unit. |
| ElectronMain.SanitizeKeeps | public/electron.js:297 | Letters and digits keep their place, and within the BMP the length is kept. |
| ElectronMain.SanitizeIdempotent | public/electron.js:297 | Sanitizing twice is sanitizing once. |
| ElectronMain.DefaultFileName | public/electron.js:297 | The file name is the sanitized name followed by "_Report.md", or "_Report.pdf" for the PDF at line 363. |
| Preload.FieldsToMove | public/preload.js:29 | The array is moved exactly when `params` exists and `params['fields[]']` is an array. |
| Preload.RequestOptions.EzekiaRequest | public/preload.js:25-42 | An array `fields[]` is deleted from `params` and stored as `fieldsArray`; otherwise the options are unchanged; the payload is the resulting options. |
| Preload.FieldsRoundTrip | public/preload.js:29-38 | Through the rewrite and the main process's merge, a non-empty `fields[]` comes back and every other entry is unchanged. |
| Preload.EmptyFieldsDropped | public/preload.js:29-38 | An empty `fields[]` array is taken out and not put back. |
| Preload.ScalarFieldsUntouched | public/preload.js:29 | A scalar `fields[]` passes through untouched. |
| Ipc.Set | public/electron.js:246 | `params[key] = v` sets that key, keeps the others and keeps keys unique. |
| Ipc.Delete | public/preload.js:32 | `delete params[key]` removes that key and keeps the others. |
| Assets.Base64 | public/assetLoader.js:42 | The encoding has four alphabet or '=' characters per started group of three bytes. |
| Assets.EncodedLengthFormula | public/assetLoader.js:42 | The encoded length is 4 × ⌈n / 3⌉. |
| Assets.Base64RoundTrip | public/assetLoader.js:42 | The encoding is well-formed Base64 that decodes to the original bytes. |
| Assets.Extname | public/assetLoader.js:45 | An extension is empty or starts with its only '.', and contains no '/'. |
| Assets.ExtnameOf | public/assetLoader.js:45 | "dir/stem.ext" has the extension ".ext". |
| Assets.MimeTable | public/assetLoader.js:45-70 | The seven known extensions, in any case, map to their MIME types; everything else maps to application/octet-stream. |
| Assets.LoadedUrl | public/assetLoader.js:72 | A successful load yields a Base64 `data:` URL. |
| Assets.AssetLoader.LoadAsBase64 | public/assetLoader.js:33-82 | A cache hit returns the cached URL without reading. A failed read returns "" and caches nothing. A successful read caches and returns the data URL. |
| StableSort.SortOrdered | src/services/EzekiaClient.js:376-382 | The sort result is ordered by key. |
| StableSort.SortStable | src/services/EzekiaClient.js:376-382 | Entries with equal keys keep their input order. |
| StableSort.SortLeadsWithOpen | src/services/EzekiaClient.js:401-410 | The single "Present" entry comes first. |
| StableSort.NotBeforeTransitive | src/services/EzekiaClient.js:401-410 | The comparator's keys form a total preorder, so the sort is well defined. |
| Search.FilterAssignments | src/components/Dashboard/Dashboard.js:83-96 | A blank term keeps the list. Otherwise exactly the assignments whose name or client name contains the lower-cased term remain, each as often as in the list, in order. |
| Search.FilterCandidates | src/components/Dashboard/Dashboard.js:99-113 | A blank term keeps the list. Otherwise exactly the candidates whose name, first title or first company contains the term remain, each as often as in the list, in order. |
| Search.NarrowingTerm | src/components/Assignment/AssignmentList.js:46-59 | Extending a term can only narrow the result. |
| Search.TermNotTrimmed | src/components/Assignment/AssignmentList.js:50-56 | The term is matched untrimmed, so " x" does not find "x". |
| AppContext.KeysAfterLoadSpec | src/context/AppContext.js:43-48 | Read against arbitrary keys, the load condition would never lose a key: a load with any key takes over, and an empty load keeps keys that are set. Read against the first render's empty keys, as the `[]` effect's closure does, it always takes the loaded keys. |
| AppContext.AppState.constructor | src/context/AppContext.js:9-30 | The initial state: empty keys and lists, nothing selected, every flag on, nothing loading, no error. |
| AppContext.AppState.LoadKeys | src/context/AppContext.js:33-56 | The loaded keys always replace the current ones, even keys saved since mount, because the condition sees the mount-time keys. A failed load sets the error and keeps the keys. |
| AppContext.AppState.SaveApiKeys | src/context/AppContext.js:59-82 | It installs the keys iff the bridge reports success. Otherwise it sets the bridge's message, or the fixed text, and keeps the keys. |
| AppContext.AppState.SetSelectedAssignment | src/context/AppContext.js:85-90 | Changing to another assignment clears the candidate and the report, and nothing else changes. |
| AppContext.AppState.SetSelectedCandidate | src/context/AppContext.js:93-97 | Changing to another candidate clears the report, and nothing else changes. |
| Dashboard.DashboardView.RefreshFilters | src/components/Dashboard/Dashboard.js:83-113 | The filter effects restore `Shows`. |
| Dashboard.DashboardView.FetchAssignmentsEffect | src/components/Dashboard/Dashboard.js:37-57 | It fetches iff there is a key. Success installs the list and failure sets the error. The loading flag ends false, `Shows` is kept, and nothing else changes. |
| Dashboard.DashboardView.FetchCandidatesEffect | src/components/Dashboard/Dashboard.js:60-80 | It fetches iff there is a key and a selected assignment. Success installs the list and failure sets the error. The loading flag ends false and `Shows` is kept. |
| Dashboard.DashboardView.HandleAssignmentClick | src/components/Dashboard/Dashboard.js:116-120 | It selects the assignment, clears the candidate, and hides the selection; the report is cleared when the assignment changes. |
| Dashboard.DashboardView.HandleCandidateClick | src/components/Dashboard/Dashboard.js:123-125 | It selects the candidate; the report is cleared when the candidate changes. |
| Dashboard.DashboardView.HandleBackToAssignments | src/components/Dashboard/Dashboard.js:128-130 | It shows the selection again and keeps both selections. |
| AssignmentList.AssignmentListView.FetchAssignmentsEffect | src/components/Assignment/AssignmentList.js:23-43 | It fetches iff there is a key. Success installs the list and failure sets the error. The loading flag ends false, and `Shows` holds after a fetch. |
| AssignmentList.AssignmentListView.SetSearchTerm | src/components/Assignment/AssignmentList.js:46-59 | Typing a term re-establishes `Shows`. |
| AssignmentList.AssignmentListView.HandleAssignmentClick | src/components/Assignment/AssignmentList.js:62-64 | It selects the assignment; the candidate and report are cleared only through the context's effect. |
| CandidateList.CandidateListView.FetchCandidatesEffect | src/components/Candidate/CandidateList.js:24-44 | It fetches iff there is a key and a non-zero assignment id. Success installs the list and failure sets the error. The loading flag ends false. |
| CandidateList.CandidateListView.SetSearchTerm | src/components/Candidate/CandidateList.js:47-61 | Typing a term re-establishes `Shows`. |
| CandidateList.CandidateListView.HandleCandidateClick | src/components/Candidate/CandidateList.js:64-66 | It selects the candidate; the report is cleared when the candidate changes. |
| MainContent.ExactlyOneView | src/components/Layout/MainContent.js:20-40 | Exactly one view renders. A truthy error shows only the banner, and the report shows only with both selections and a report. |
| MainContent.CandidateNeedsAssignment | src/components/Layout/MainContent.js:22-32 | A candidate without an assignment shows the welcome screen. |
| ReportConfigPanel.WithFlag | src/components/Report/ReportConfig.js:18-21 | The named flag takes the new value and the others stay. |
| ReportConfigPanel.WithFlagUndo | src/components/Report/ReportConfig.js:18-21 | Ticking a box and ticking it back restores the configuration. |
| ReportConfigPanel.HandleCheckboxChange | src/components/Report/ReportConfig.js:18-21 | Only the configuration changes, by that one flag. |
| ReportConfigPanel.GenerateGate | src/components/Report/ReportConfig.js:25-33 | It proceeds iff both keys and both ids are present; missing keys are reported first. |
| ReportConfigPanel.HandleGenerateReport | src/components/Report/ReportConfig.js:24-55 | Each gate sets its message and changes nothing else. Past the gates, a report replaces the current one and a failure sets the error. The report flag ends false. |
| ReportConfigPanel.GenerateEnabled | src/components/Report/ReportConfig.js:101 | The button is enabled iff no report is generating and at least one section is chosen. |
| ApiKeyModal.WithKey | src/components/UI/ApiKeyModal.js:28-31 | The named key takes the typed value and the other stays. |
| ApiKeyModal.SavableKeysClose | src/components/UI/ApiKeyModal.js:71-77 | Keys the Save button accepts let the dialog close, and keys that cannot close it cannot be saved. |
| ApiKeyModal.ApiKeyModalView.constructor | src/components/UI/ApiKeyModal.js:8-11 | The form starts as the context's keys, with no messages and not loading. |
| ApiKeyModal.ApiKeyModalView.SyncWithKeys | src/components/UI/ApiKeyModal.js:14-19 | The form is reset to the context's keys. |
| ApiKeyModal.ApiKeyModalView.HandleInputChange | src/components/UI/ApiKeyModal.js:28-35 | One field is updated and both messages are cleared. |
| ApiKeyModal.ApiKeyModalView.HandleSubmit | src/components/UI/ApiKeyModal.js:38-68 | It saves iff the bridge succeeds. On success the context holds the form's keys and the dialog can then close. Otherwise the fixed rejection text is shown. Loading ends false. |

## Left out

- I/O is not modelled: HTTP, IPC transport, file dialogs, temporary files, `fs` and the
  Puppeteer PDF rendering. Their results are parameters, or the operation is outside the model.
- The clock is a parameter. `_formatDate` and the `new Date()` parse of a birthday are
  parameters too (`birthdayText`, `birthdayDate`), because date parsing and formatting belong to
  the JavaScript runtime.
- Strings are sequences of Unicode scalar values. JavaScript strings are UTF-16; only the
  file-name sanitiser counts code units explicitly.
- `toLowerCase` is modelled for ASCII and Latin-1 letters only. Full Unicode case mapping is a
  runtime table.
- Object keys that look like array indices are enumerated first in JavaScript; the model
  keeps plain insertion order for `params` and the language table.
- ElectronMain.KeyStore.SaveApiKeys, ElectronMain.KeyStore.GetApiKeys: the electron-store never
  fails in the model, so the `{success: false}` branch of `save-api-keys` and the catch branch of
  `get-api-keys` (empty keys with `error`, public/electron.js:183-190) are not reachable there. The renderer side still
  handles every outcome through `AppContext.SaveOutcome`.
- Preload.RequestOptions.EzekiaRequest: the copy `{...params}` is a fresh object; aliasing of
  the caller's `params` object is not modelled.
- React renders, identity comparison of objects in effect dependencies (the model compares
  values), and the ordering of concurrent async effects. A stale `loading` spread between two
  overlapping fetches is therefore not modelled; each fetch effect runs to completion.
- `setApiKey` and `updateApiKeys` of the Ezekia and OpenAI clients, and the client
  constructors, only store a key.
- EzekiaClient.GetAllCandidateData: the gateway gives one reply per endpoint, used for every
  call to it. The source asks for the person up to three times: directly, in `getPositions`,
  and in `getPositions` again through `getEducation`. It may ask for the positions twice. The
  model merges these repeated fetches, so it cannot express a later call that fails after an
  earlier one succeeded, or one that returns different data.
- EzekiaClient.ProcessedPositionsSpec: with several open-ended positions the source comparator
  is not a consistent order. The model keeps their input order, and the lemma claims nothing
  about the order among them.
- The request builders `getAssignments`, `getCandidates` and `getCandidate` pass a scalar
  `fields[]`, so the preload rewrite never fires for them (`Preload.ScalarFieldsUntouched`).
  Their parameter objects are not modelled.
- `DashboardStats`, `CircularProgress`, `Sidebar`, `WelcomeScreen` and the other presentational
  components are not part of this model.
- `convert-html-to-pdf`, the image assets embedded in the HTML, CSS, markup, and the cover
  date are not modelled. The document is kept as structured pages.
- EzekiaClient.GetEducation: the synthesized entries lose their years during normalisation
  (`ExtractedYearsDropped` shows it); the model keeps this behaviour as written.
- ApiKeyModal: the one-and-a-half-second timer before `onClose` and the `isOpen` render guard
  are not modelled, and development mode is a parameter of `CanClose`.
- Ipc.ParamValue: scalar parameters are strings; numbers such as `limit` are passed as their
  decimal text.
- PdfGenerator.ExperienceBlockOf: normalized experience entries have no `location`, so the
  company line always ends ", DE".
- Dashboard, AssignmentList and CandidateList take a fetch's result as a parameter rather than
  calling `ReportGenerator.FetchAssignments` with the gateway's reply.
