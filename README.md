# A verified model of the YMYL audit pipeline's core

The YMYL compliance tool takes a page (pasted or uploaded HTML, a ZIP of HTML files, or a Google-Doc export). It cuts the page into numbered "big chunks" of tagged text lines. It sends them to several parallel AI audits, merges and deduplicates the violations the audits report, and writes a Markdown report. This project models the deterministic core of that pipeline in Dafny and proves properties of the model:

- `Models` (models.dfy): the records the pipeline passes around. These are severities and their tolerant parsing, violations and `to_dict`, and analysis results.
- `Chunks` (chunks.dfy): the big-chunk record shared by both extractors, plus the cutting of a line stream into groups at header lines.
- `HtmlExtractor` (html_extractor.dfy): the HTML extractor. Element formatting, duplicate suppression through processed-element keys, chunking at "H2:" lines and the placeholder for an empty document. The extractor is a class whose three fields the methods update, as in the source.
- `GoogleDoc` (google_doc.dfy): the Google-Doc extractor's five passes:
  - noise removal;
  - the metadata hunt;
  - the global-context "backpack";
  - promotion of bold paragraphs and table flattening;
  - FAQ pairing and linear chunking.

  The document and the extractor are classes mutated in place.
- `Parser` (parser.dfy): recovering the JSON list from an auditor's reply, the tab/carriage-return repair, and the mapping of sections and entries to violations with their defaults.
- `Orchestrator` (orchestrator.dfy): the page title put into the auditors' payload, the aggregation of the audit replies, the deduplication fallback and the Markdown report.
- `Helpers` (helpers.dfy): `clean_text`, `create_safe_filename`, `validate_url` (its regular expression as a recogniser) and `extract_domain`.
- `BaseFeature`, `HtmlAnalysis` (base_feature.dfy, html_analysis.dfy): the analysis features' shared helpers, the ZIP member filter and packaging, and input dispatch and validation.
- `State` (state.dfy): the session-state manager over the user interface's key/value store.
- `Registry` (registry.dfy): the feature registry and its default registration.
- `Json`, `Strings`, `Wrappers` (json.dfy, strings.dfy, wrappers.dfy): the Python values and string operations the code relies on.

Parsing HTML, calling the AI service, `json.loads` and `json.dumps` are outside the model. A parsed document is given as a sequence of element records. `loads` and `dumps` are function parameters, and the audit replies and the report date are inputs.

## Model

| member | source | states |
|---|---|---|
| Models.SeverityOfName | core/models.py:16-28 | the severity whose value is the text, or medium when no severity has that value |
| Models.FromString | core/models.py:21-28 | a falsy value gives medium; a truthy non-string fails (the attribute error the caller catches); any other severity than medium came from the value lowered and stripped |
| Models.SeverityOfOwnName | core/models.py:16-19 | each severity's value names it |
| Models.FromStringOfNormalised | core/models.py:25-26 | non-empty text whose lowered, stripped form is a severity's value gives that severity |
| Models.FromStringRoundTrip | core/models.py:16-28 | reading a severity's own value gives it back |
| Models.FromStringIgnoresCaseAndSpace | core/models.py:26 | surrounding whitespace and letter case do not change the severity read |
| Models.FromStringExample | core/models.py:26 | "CRITICAL " reads as critical |
| Models.FromStringUnknown | core/models.py:26-28 | text naming no severity after lowering and stripping reads as medium |
| Models.NewViolation | core/models.py:30-50 | the translation fields default to None, the chunk language to "English", the audit id to None; the given fields are kept |
| Models.ToDict | core/models.py:52-66 | a dictionary of the ten keys in declaration order, with the severity's value and the guideline section under their keys |
| Models.NewAnalysisResult | core/models.py:68-88 | no violations, report, error or raw response, and zero counts |
| Chunks.Number | core/html_extractor.py:89-100 | one unnamed chunk per group, numbered consecutively from the start, holding that group |
| Chunks.NumberSnoc | core/html_extractor.py:89-100 | numbering one more group appends one chunk with the next number |
| Chunks.AllSmallChunksOfNumber | core/html_extractor.py:87-120 | numbering loses no line: the chunks hold exactly the groups' lines |
| Chunks.GroupsAt | core/google_doc_extractor.py:273-303 | no groups exactly for no lines |
| Chunks.GroupsAtSnoc | core/google_doc_extractor.py:273-296 | a header line opens a new group and any other line joins the last one |
| Chunks.GroupsAtFlatten | core/google_doc_extractor.py:273-303 | cutting at headers loses, adds and reorders no line |
| Chunks.GroupsAtShape | core/google_doc_extractor.py:273-303 | every group is non-empty, only its first line may be a header, and every group but the first starts with one |
| Chunks.GroupsAtWithoutHead | core/google_doc_extractor.py:273-303 | lines without any header form one group |
| Helpers.SpaceRuns | utils/helpers.py:62 | never longer; every character is the replacement or a non-whitespace character of the input |
| Helpers.SpaceRunsOfSpaces | utils/helpers.py:62 | an all-whitespace text collapses to copies of the replacement only |
| Helpers.CleanText | utils/helpers.py:59-63 | empty exactly when the text is all whitespace (the empty text included); never longer |
| Helpers.CleanTextEmpty | utils/helpers.py:61-62 | collapsing the stripped text gives nothing exactly when the text is all whitespace |
| Helpers.CleanTextIsClean | utils/helpers.py:59-63 | the result has no outer whitespace and its only whitespace is single spaces |
| Helpers.WordLen | utils/helpers.py:62 | the first whitespace-free run: no whitespace inside, whitespace or the end after it |
| Helpers.Words | utils/helpers.py:62 | the whitespace-free pieces, none empty |
| Helpers.WordsEmpty | utils/helpers.py:62 | no pieces exactly when the text is all whitespace |
| Helpers.WordsOfStrip | utils/helpers.py:62 | stripping does not change the pieces |
| Helpers.SpaceRunsOfStripped | utils/helpers.py:62 | on stripped text, collapsing the whitespace runs joins the pieces with one space |
| Helpers.JoinOfWordsIsClean | utils/helpers.py:62 | pieces joined by one space are clean, and empty only without pieces |
| Helpers.CleanTextIsJoinOfWords | utils/helpers.py:59-63 | `clean_text` is `' '.join(text.split())` |
| Helpers.CleanTextOfClean | utils/helpers.py:59-63 | the identity on clean text |
| Helpers.CleanTextIdempotent | utils/helpers.py:59-63 | cleaning twice is cleaning once |
| Helpers.KeepSafeChars | utils/helpers.py:55 | only word characters, whitespace and hyphens remain, and only whitespace when the text has no word character or hyphen |
| Helpers.PyPrefix | utils/helpers.py:57 | a prefix of the text, of the requested length when that is non-negative, capped at the text's length |
| Helpers.CreateSafeFilename | utils/helpers.py:52-57 | "untitled" for empty text; otherwise at most the length limit, only word characters and hyphens, no underscore at either end |
| Helpers.SafeFilenameOfPunctuation | utils/helpers.py:55-57 | text with no word character and no hyphen gives the empty name, not "untitled" |
| Helpers.SafeFilenameOfBang | utils/helpers.py:52-57 | "!!!" gives the empty name |
| Helpers.DomainBody | utils/helpers.py:36 | the host without its one optional trailing dot |
| Helpers.HostChars | utils/helpers.py:36-38 | every host the pattern accepts is a non-empty run of letters, digits, hyphens and dots |
| Helpers.HostExample | utils/helpers.py:36 | "ab.cd" is an accepted host |
| Helpers.HttpUrlValid | utils/helpers.py:28-41 | `http://` followed by an accepted host and a path tail is a valid URL |
| Helpers.LeadingSpaceValid | utils/helpers.py:32 | a leading space does not stop a URL from validating, since it is stripped first |
| Helpers.ValidWithLeadingSpace | utils/helpers.py:32 | one leading space does not change whether a stripped URL is valid |
| Helpers.ExtractDomain | utils/helpers.py:43-50 | nothing exactly for an invalid URL; otherwise lower case, free of `/` and `:` |
| Helpers.DomainPart | utils/helpers.py:47-48 | lower case and free of `/` and `:` |
| Helpers.ExtractDomainOfValid | utils/helpers.py:46-48 | a valid URL gives the text after the scheme up to the first `/` and `:`, lower-cased |
| Helpers.DomainPartLeadingSpace | utils/helpers.py:47-48 | with a space before the scheme, the scheme stays and the text before its colon is taken |
| Helpers.DomainPartBeforeColon | utils/helpers.py:48 | when no scheme is removed, the domain is the lower-case text before the first colon |
| Helpers.DomainPartOfPlain | utils/helpers.py:47-48 | after an exact `http://`, a lower-case rest free of `/` and `:` is the domain whole |
| Helpers.ExtractDomainLeadingSpace | utils/helpers.py:32-48 | " http://host" is valid, and its domain comes out as " http" |
| Helpers.ExtractDomainKeepsQuery | utils/helpers.py:40-48 | "http://host?q" is valid, and its domain comes out as "host?q" |
| Helpers.ExtractDomainOfHost | utils/helpers.py:43-50 | nothing exactly for an invalid URL |
| Helpers.TakeHost | utils/helpers.py:36-40 | reading up to the first `:`, `/` or `?` recovers the host the pattern matched |
| Helpers.ExtractDomainOfHostIsHost | utils/helpers.py:36-48 | the corrected domain is the host the pattern matched, lower-cased, whatever port and path follow |
| Helpers.ExtractDomainOfHostLeadingSpace | utils/helpers.py:32-48 | with a leading space the corrected domain is still the host |
| Helpers.ExtractDomainOfHostQuery | utils/helpers.py:40-48 | with a query after the host the corrected domain stops at the `?` |
| Parser.FenceOpen | core/parser.py:59 | an opening fence found is followed, after an optional `json` tag and whitespace, by a `[` inside the text |
| Parser.FirstClose | core/parser.py:59 | the lazy `[\s\S]*?` body: the first `]` that whitespace and a closing fence follow, and no earlier one |
| Parser.FencedBlock | core/parser.py:59-61 | a fenced block found starts with `[`, ends with `]` and is part of the text |
| Parser.FenceBody | core/parser.py:59-61 | the bracketed body from the opening `[` to the first closing fence starts with `[`, ends with `]` and is part of the text |
| Parser.BracketSpan | core/parser.py:65-67 | a span found starts with `[`, ends with `]` and is part of the text |
| Parser.Fallback | core/parser.py:70-71 | the text itself exactly when it starts with `[` and ends with `]` |
| Parser.ExtractJsonStructure | core/parser.py:49-73 | nothing for empty input; any result starts with `[`, ends with `]` and is part of the stripped text |
| Parser.Strategies | core/parser.py:58-73 | the first of the three strategies that matches gives a bracketed part of the text |
| Parser.BracketSpanOfStripped | core/parser.py:56-71 | on stripped text strategy 2 only ever returns what strategy 3 would |
| Parser.ExtractWithoutFence | core/parser.py:56-73 | without a fenced block the result is the stripped text exactly when it starts with `[` and ends with `]`, otherwise nothing |
| Parser.ReplaceChar | core/parser.py:87 | after replacing a character by text without it, the character is gone; no new characters besides the replacement's; text without the character is unchanged |
| Parser.ReplaceAllOfChar | core/parser.py:87 | `str.replace` with a one-character pattern is the character-by-character replacement |
| Parser.HeuristicFixJson | core/parser.py:76-89 | the repaired text contains no tab and no carriage return |
| Parser.HeuristicFixIdentity | core/parser.py:87 | the repair is the identity on text without tabs and carriage returns |
| Parser.HeuristicFixIdempotent | core/parser.py:87 | repairing twice is repairing once |
| Parser.LoadAttempts | core/parser.py:26-43 | no parse without a bracketed structure; the structure is parsed first; exactly one repaired retry, only when the first parse fails |
| Parser.ParseToViolations | core/parser.py:21-46 | the violations of the last text loaded, and none when no structure is found or both parses fail |
| Parser.MapEntry | core/parser.py:116-139 | an entry yields a violation exactly when it is a dictionary whose severity can be read (a truthy non-string raises and skips it); it never carries an audit id |
| Parser.BuildViolation | core/parser.py:122-135 | the record takes the severity read and no audit id |
| Parser.MapEntryDefaults | core/parser.py:122-135 | an empty dictionary takes every default: 'N/A', 'Unknown', 'No explanation', 'N/A', 0, medium, 'N/A', None, None, 'English' |
| Parser.MapEntrySkipsBadSeverity | core/parser.py:128-139 | an entry whose severity is a truthy non-string is skipped on its own |
| Parser.Entries | core/parser.py:116-139 | no more violations than entries |
| Parser.EntriesFromDicts | core/parser.py:116-118 | no violation carries an audit id; a list without dictionaries yields none |
| Parser.EntriesAppend | core/parser.py:116-139 | the entries of two lists yield the violations of each, in order |
| Parser.SectionEntries | core/parser.py:106-115 | entries come only from a dictionary whose `violations` key holds exactly that list |
| Parser.SectionsAppend | core/parser.py:102-139 | the sections of two lists yield the violations of each, in order: section order, then entry order |
| Parser.MapData | core/parser.py:98-100 | anything but a top-level list, a dictionary included, maps to no violation |
| Parser.MapDataToViolations | core/parser.py:92-141 | the two loops with their skips give the mapping of the data |
| Parser.AppendSection | core/parser.py:102-115 | one section appends exactly its violations |
| Parser.AppendEntries | core/parser.py:116-139 | the entry loop appends one violation per mappable entry, in order |
| Parser.ViolationKeysDistinct | core/models.py:54-65 | the ten keys `to_dict` writes are distinct |
| Parser.ToDictGet | core/models.py:52-66 | each of the ten keys of `to_dict` finds its own field |
| Parser.MapEntryOfToDict | core/parser.py:120-136 | mapping `to_dict` of a violation gives the violation back without its audit id |
| Parser.EntriesOfToDicts | core/parser.py:116-139 | mapping the `to_dict` forms of a list gives the list back, in order, without audit ids |
| Parser.MapDataRoundTrip | core/parser.py:98-139 | one section holding `to_dict` of each violation maps back to the same violations without audit ids, for every list, the empty one included |
| HtmlExtractor.KeyOf | core/html_extractor.py:53-57 | the key keeps the tag and the number of children, and the stripped text when it is at most 100 characters long; a longer text is cut to its first 100 characters before stripping |
| HtmlExtractor.LongTextsShareKey | core/html_extractor.py:56 | two elements with the same tag and child count whose texts, both longer than 100 characters, agree on the first 100 characters have the same key |
| HtmlExtractor.LongTextDuplicateSkipped | core/html_extractor.py:56-77 | once the walk formats an element, a later element with the same tag, child count and first 100 characters of a longer text adds nothing |
| HtmlExtractor.TableRows | core/html_extractor.py:151-154 | at most one row per table row, and none exactly when every cell of every row is empty |
| HtmlExtractor.Format | core/html_extractor.py:122-160 | a line comes only from an element with text or from a table; a warning-marked element with text, or a warning-marked table, always gives a line |
| HtmlExtractor.FormatLine | core/html_extractor.py:128-158 | every line is a WARNING line, a heading line labelled with its tag and ending with its text, a paragraph's CONTENT line, a LIST line of the items joined by " // " or a TABLE line of the non-empty rows joined by " // "; a warning-marked element of any tag with text gives "WARNING: " and its text; an unmarked paragraph, list with items or table with a non-empty row gives its CONTENT, LIST or TABLE line |
| HtmlExtractor.FormatOpensSection | core/html_extractor.py:128-139 | an element's line starts with "H2:" exactly when the element opens a section |
| HtmlExtractor.FormatHeading | core/html_extractor.py:134-139 | a non-warning heading with text gives a line that starts with its tag label, ends with its text, and is its text when that already carries the label |
| HtmlExtractor.FormatSilent | core/html_extractor.py:128-160 | an element without text (not a table), or a div, section or dl that is no warning, gives no line |
| HtmlExtractor.MarksOf | core/html_extractor.py:124-157 | formatting marks the element, and all its descendants exactly when it renders as a list or table |
| HtmlExtractor.KeySet | core/html_extractor.py:59-63 | the set of processed keys holds exactly the listed keys |
| HtmlExtractor.WalkGrows | core/html_extractor.py:59-85 | the processed set only grows as the walk goes on |
| HtmlExtractor.StepGrows | core/html_extractor.py:77-85 | one element never unmarks anything |
| HtmlExtractor.RenderedDescendantSkipped | core/html_extractor.py:78-82 | a descendant of a rendered list or table later in document order is skipped and adds nothing |
| HtmlExtractor.WalkSkipped | core/html_extractor.py:78-82 | an element already processed adds no line and no mark |
| HtmlExtractor.WalkFormatted | core/html_extractor.py:84-85 | an element not yet processed adds its marks and its line, if any |
| HtmlExtractor.Groups | core/html_extractor.py:87-108 | no groups exactly for no lines |
| HtmlExtractor.Chunked | core/html_extractor.py:87-120 | the lines, cut at "H2:" lines into chunks numbered from 1, with no line lost |
| HtmlExtractor.FinalChunks | core/html_extractor.py:87-166 | never empty: the placeholder for no lines, otherwise every line in order; chunks numbered from 1, non-empty, with "H2:" lines only first and every chunk but the first opened by one |
| HtmlExtractor.Extractor.constructor | core/html_extractor.py:17-20 | nothing processed, no current section, no chunks |
| HtmlExtractor.Extractor.MarkProcessed | core/html_extractor.py:62-63 | adds the key and changes nothing else |
| HtmlExtractor.Extractor.MarkAll | core/html_extractor.py:147-157 | adds every key listed and changes nothing else |
| HtmlExtractor.Extractor.FormatElement | core/html_extractor.py:122-160 | returns the line of the element's cleaned text, which has one of the five shapes of FormatLine, and marks the element, plus its descendants when it renders as a list or table |
| HtmlExtractor.Extractor.ExtractWithDirectChunking | core/html_extractor.py:65-120 | processes the elements as the walk does and appends the walk's lines cut into chunks; a current section remains exactly when an "H2:" line was seen; it starts with no current section, which `extract_content` has just reset (:31) |
| HtmlExtractor.Extractor.HandleLine | core/html_extractor.py:87-108 | one formatted line keeps the chunking invariant: closed chunks plus pending lines are the lines so far |
| HtmlExtractor.ChunkStep | core/html_extractor.py:87-108 | the cut of one more line: an "H2:" line opens a chunk, any other joins the last |
| HtmlExtractor.FlushCurrent | core/html_extractor.py:89-103 | an "H2:" line closes the current section's chunk and opens the next |
| HtmlExtractor.FlushPre | core/html_extractor.py:95-103 | the first "H2:" line closes the lines before it as chunk 1 |
| HtmlExtractor.OpenFirst | core/html_extractor.py:102-103 | an "H2:" line with nothing before it just opens a section |
| HtmlExtractor.AppendLine | core/html_extractor.py:104-108 | any other line goes before the first section or into the current one |
| HtmlExtractor.FinalTail | core/html_extractor.py:110-120 | the tail flush completes the chunks of all the lines |
| HtmlExtractor.Extractor.CreateFinalJson | core/html_extractor.py:162-166 | the chunks, or the placeholder chunk when there are none |
| HtmlExtractor.Extractor.ExtractContent | core/html_extractor.py:22-38 | resets the state and returns the final chunks of the elements |
| GoogleDoc.Document.constructor | core/google_doc_extractor.py:35 | the parsed document holds exactly the given top-level elements |
| GoogleDoc.Extractor.constructor | core/google_doc_extractor.py:16-28 | a new extractor has no chunks, counter 1 and no metadata found |
| GoogleDoc.Extractor.RemoveNoise | core/google_doc_extractor.py:67-75 | the new document is the denoising stage of the old one: script, style, meta, title and head elements and whitespace-only paragraphs leave, nothing else changes, and none is left afterwards |
| GoogleDoc.SeparatorLen | core/google_doc_extractor.py:96 | the length of the greedy `[:\s]+` run: every character in it is ':' or whitespace and the next one is not |
| GoogleDoc.KeywordMatch | core/google_doc_extractor.py:96-108 | a keyword verdict is a non-empty value, and it is the value the pattern captures |
| GoogleDoc.MatchMetadata | core/google_doc_extractor.py:93-109 | a match always names one of the five metadata types |
| GoogleDoc.MatchTag | core/google_doc_extractor.py:93-109 | the nested keyword loop with its early exits returns the first type, in order, one of whose keywords, in order, matches |
| GoogleDoc.Label | core/google_doc_extractor.py:112 | the label has the type's length; each '_' becomes a space and every other character is upper-cased |
| GoogleDoc.Decompose | core/google_doc_extractor.py:115 | removing an element leaves the document the same length: it leaves a gap, so every other position is kept |
| GoogleDoc.FirstH1 | core/google_doc_extractor.py:119 | the position found holds an h1 and no earlier one does; no position means no h1 at all |
| GoogleDoc.HuntRecordsOnce | core/google_doc_extractor.py:85-115 | over any targets the hunt keeps metadata found earlier; each type it adds is one of the five, is new and is added once; each added type has exactly one line "LABEL: value", in the order added |
| GoogleDoc.HuntTextRecorded | core/google_doc_extractor.py:86-115 | one tag of the hunt keeps that bookkeeping consistent |
| GoogleDoc.RecordKeeps | core/google_doc_extractor.py:111-115 | recording a new known type with its labelled line keeps the bookkeeping consistent |
| GoogleDoc.HuntKeepsMetadata | core/google_doc_extractor.py:111-115 | after the hunt every earlier type keeps its value; every other type found is one of the five known types |
| GoogleDoc.Extractor.HuntTag | core/google_doc_extractor.py:86-115 | one tag moves the metadata, lines and document exactly as the hunt's step function does |
| GoogleDoc.Extractor.HuntForMetadata | core/google_doc_extractor.py:77-131 | the new extractor and document state is the hunt stage of the old one |
| GoogleDoc.Extractor.FinishHunt | core/google_doc_extractor.py:117-131 | without an h1 entry the first h1's cleaned text goes first as "H1: …" and that h1 leaves; a "Metadata & Summary" chunk is appended with the current number only when there are lines, and only then does the counter advance |
| GoogleDoc.StrippedPieces | core/google_doc_extractor.py:136 | `get_text(" ", strip=True)` keeps no empty piece |
| GoogleDoc.Sentences | core/google_doc_extractor.py:141 | every sentence is non-empty, ends in '.' and has no other '.' |
| GoogleDoc.Mentioning | core/google_doc_extractor.py:141 | the sentences kept are exactly those that mention the keyword, ignoring case |
| GoogleDoc.FirstTwo | core/google_doc_extractor.py:142 | `matches[:2]` is a prefix of at most two matches and keeps all of two or fewer |
| GoogleDoc.LicenseLines | core/google_doc_extractor.py:142 | one line per match |
| GoogleDoc.LicenseContextShape | core/google_doc_extractor.py:139-142 | every license line is tagged "LICENSE_CTX: " and there are at most two per keyword |
| GoogleDoc.LicenseContextSources | core/google_doc_extractor.py:139-142 | every license line is the cleaned text of a sentence that mentions one of the keywords |
| GoogleDoc.LicenseLinesTagged | core/google_doc_extractor.py:142 | every license line starts with "LICENSE_CTX: " |
| GoogleDoc.LicenseLinesSources | core/google_doc_extractor.py:141-142 | every license line is "LICENSE_CTX: " followed by a cleaned match |
| GoogleDoc.SafetyNotLicense | core/google_doc_extractor.py:142-146 | the safety line never coincides with a license line |
| GoogleDoc.Dedup | core/google_doc_extractor.py:152 | the chunk holds exactly the lines gathered, each once |
| GoogleDoc.BackpackSafety | core/google_doc_extractor.py:145-146 | the safety line is in the backpack exactly when the text has the warning emoji or "18+" |
| GoogleDoc.ContextScan | core/google_doc_extractor.py:135-146 | the loops gather the license lines for each keyword, then the safety line when there is a risk warning |
| GoogleDoc.LicenseScan | core/google_doc_extractor.py:140-142 | the keyword loop gathers each keyword's license lines in turn |
| GoogleDoc.AppendLicenseLines | core/google_doc_extractor.py:142 | the inner loop appends one tagged, cleaned line per match |
| GoogleDoc.Extractor.ExtractGlobalBackpack | core/google_doc_extractor.py:133-153 | the new state is the backpack stage: a "GLOBAL CONTEXT" chunk numbered 0 with the gathered lines, each once, only when there are any; the counter is left alone |
| GoogleDoc.PromotedKeepsText | core/google_doc_extractor.py:161-172 | promotion only renames, keeps text and boldness, turns only a p into an h2, and does so for every bold, non-empty paragraph of at most 100 characters that does not end in '.', '!' or '?' |
| GoogleDoc.PromoteParagraph | core/google_doc_extractor.py:161-172 | the paragraph test on one element gives the promoted element |
| GoogleDoc.Extractor.PromoteAll | core/google_doc_extractor.py:161-172 | every element is replaced by its promoted form and nothing moves |
| GoogleDoc.RowCells | core/google_doc_extractor.py:178-179 | the cells kept are all non-empty |
| GoogleDoc.RowCellsEmpty | core/google_doc_extractor.py:178-180 | a row yields no cell exactly when none of its `td` cells has visible text |
| GoogleDoc.TableRows | core/google_doc_extractor.py:177-181 | at most one line per row |
| GoogleDoc.TableRowsEmpty | core/google_doc_extractor.py:177-184 | a table yields no line exactly when none of its rows yields a cell |
| GoogleDoc.TableRowsAsLines | core/google_doc_extractor.py:177-181 | a table's lines are its rows' non-empty cell texts joined by " \| ", rows without cells dropped |
| GoogleDoc.RowLinesEmpty | core/google_doc_extractor.py:180-181 | no line exactly when no row has a cell |
| GoogleDoc.TableGone | core/google_doc_extractor.py:184-189 | a table is removed exactly when none of its `td` cells has visible text |
| GoogleDoc.Flattened | core/google_doc_extractor.py:175-189 | no table survives flattening |
| GoogleDoc.FlattenedKeeps | core/google_doc_extractor.py:175 | flattening leaves every element that is not a table as it was |
| GoogleDoc.FlattenTable | core/google_doc_extractor.py:176-189 | the row loop gives the "TABLE_DATA: " paragraph of the table's lines, or removal |
| GoogleDoc.Extractor.FlattenAll | core/google_doc_extractor.py:175-189 | every element is replaced by its flattened form and nothing moves |
| GoogleDoc.Extractor.NormalizeStructure | core/google_doc_extractor.py:155-189 | the new document is the old one promoted, then flattened, element by element |
| GoogleDoc.FirstFaqHeaderIsFirst | core/google_doc_extractor.py:199-207 | the header found is an h1, h2, h3 or p whose upper-cased text names FAQ, KKK or PYTANIA in under 60 characters, and no earlier element is one; without a header no element is one |
| GoogleDoc.FindFaqHeader | core/google_doc_extractor.py:199-205 | the loop with its break returns the first FAQ header |
| GoogleDoc.FindFirst | core/google_doc_extractor.py:199-205 | the search loop returns the first position the test accepts |
| GoogleDoc.StopsAt | core/google_doc_extractor.py:219 | the stop test is the scan's stopping rule |
| GoogleDoc.SiblingLines | core/google_doc_extractor.py:222-234 | one sibling's raw lines: a Q per list item; a Q for a paragraph with '?' under 150 characters, otherwise an A |
| GoogleDoc.AppendQuestions | core/google_doc_extractor.py:224-226 | the `li` loop appends one "Q: " line per item still in the document |
| GoogleDoc.ScanAfter | core/google_doc_extractor.py:213-236 | the sibling loop gathers exactly the raw lines of the siblings after the header, up to the first non-empty h1 or h2 |
| GoogleDoc.RawFromStopAt | core/google_doc_extractor.py:216-220 | nothing at or after a stopping sibling reaches the raw lines |
| GoogleDoc.PairLines | core/google_doc_extractor.py:240-246 | the pairing loop gives the pairs of the pairing function |
| GoogleDoc.PairUpTagged | core/google_doc_extractor.py:245 | every FAQ line starts "FAQ_Q: " |
| GoogleDoc.PairUpBound | core/google_doc_extractor.py:240-246 | no more pairs than "A:" lines, and no more pairs (a pending question counted as one) than "Q:" lines |
| GoogleDoc.QuestionsThenAnswers | core/google_doc_extractor.py:240-246 | Q,Q,Q,A,A,A yields a single pair: the last question with the first answer |
| GoogleDoc.Faq | core/google_doc_extractor.py:250-252 | the FAQ chunk's lines exist only when there is a header, and then there is at least one |
| GoogleDoc.AfterFaq | core/google_doc_extractor.py:248 | only the FAQ header leaves the document |
| GoogleDoc.Extractor.ExtractFlexibleFaq | core/google_doc_extractor.py:191-252 | returns the FAQ lines of the old document and leaves the document with the header removed |
| GoogleDoc.LineOfText | core/google_doc_extractor.py:266-295 | a line starts "HEADER: " exactly when it comes from a non-empty h2 or h3, and is then "HEADER: " and its text |
| GoogleDoc.Named | core/google_doc_extractor.py:276-303 | chunks numbered on from the start, each named after its group's heading or "Main Content" |
| GoogleDoc.LinearChunksShape | core/google_doc_extractor.py:266-303 | the linear chunks hold every line in order; every chunk after the first opens with its "HEADER:" line and is named after that heading |
| GoogleDoc.LinearHeaderFlush | core/google_doc_extractor.py:273-284 | a heading with an open chunk appends it with the counter, advances the counter and opens a chunk named after itself |
| GoogleDoc.LinearHeaderFirst | core/google_doc_extractor.py:273-284 | a heading with no open chunk opens a chunk named after itself and leaves the counter |
| GoogleDoc.LinearLineStep | core/google_doc_extractor.py:286-295 | any other line joins the open chunk |
| GoogleDoc.LinearFinal | core/google_doc_extractor.py:297-303 | the final flush appends the open chunk without advancing the counter, so the counter ends at the last chunk's number |
| GoogleDoc.Extractor.OpenHeading | core/google_doc_extractor.py:273-284 | a heading keeps the linear pass's invariant |
| GoogleDoc.Extractor.LinearElement | core/google_doc_extractor.py:266-295 | one element keeps the linear pass's invariant |
| GoogleDoc.Extractor.ChunkLinearLines | core/google_doc_extractor.py:256-295 | after the loop, the chunks appended, the open chunk, its title and the counter are those of the grouped lines |
| GoogleDoc.Extractor.ChunkLinearContent | core/google_doc_extractor.py:254-303 | the new state is the linear stage of the old one |
| GoogleDoc.FaqSharesLastNumber | core/google_doc_extractor.py:297-303 | with at least one linear chunk, the FAQ chunk carries the same number as the last linear chunk |
| GoogleDoc.Extractor.AddFaqChunk | core/google_doc_extractor.py:57-60 | the FAQ lines become the last chunk with the counter, which then advances; without them nothing changes |
| GoogleDoc.FinalChunks | core/google_doc_extractor.py:305-308 | never empty; a non-empty list is kept as it is |
| GoogleDoc.Extractor.CreateFinalJson | core/google_doc_extractor.py:305-308 | an empty chunk list is replaced by the "Empty" placeholder; the counter and metadata are unchanged |
| GoogleDoc.DenoiseStage | core/google_doc_extractor.py:36 | noise removal touches only the document |
| GoogleDoc.HuntStage | core/google_doc_extractor.py:39 | the hunt appends at most one chunk |
| GoogleDoc.BackpackStage | core/google_doc_extractor.py:43 | the backpack only appends chunks and leaves the counter and document |
| GoogleDoc.NormalizeStage | core/google_doc_extractor.py:47 | normalisation leaves the chunks and counter |
| GoogleDoc.FaqStage | core/google_doc_extractor.py:51 | the FAQ step leaves the chunks and counter |
| GoogleDoc.LinearStage | core/google_doc_extractor.py:54 | the linear pass only appends chunks and never lowers the counter |
| GoogleDoc.FaqChunkStage | core/google_doc_extractor.py:57-60 | the FAQ step only appends, and without FAQ lines changes nothing |
| GoogleDoc.ExtractionSteps | core/google_doc_extractor.py:36-62 | the seven steps, taken in the source's order, make up the extraction |
| GoogleDoc.Extractor.ExtractContent | core/google_doc_extractor.py:30-62 | the new extractor and document state is the extraction of the old one, and the chunks returned are those held |
| GoogleDoc.ExtractionExtends | core/google_doc_extractor.py:30-62 | an extraction keeps the chunks held before it in front and never returns an empty list |
| GoogleDoc.ExtractionKeepsMetadata | core/google_doc_extractor.py:30-62 | metadata found before an extraction keeps its value; every type it adds is one of the five known types |
| GoogleDoc.ExtractionFound | core/google_doc_extractor.py:38-62 | only the hunt changes the metadata found |
| Orchestrator.ItemsScanFound | core/orchestrator.py:89-90 | a title found comes from the first "H1:" item, with "H1:" removed and stripped, and only strings precede it |
| Orchestrator.ItemsScanNotFound | core/orchestrator.py:89-90 | the scan of a chunk finds nothing exactly when every item is a string and none starts with "H1:" |
| Orchestrator.ChunksTitleFound | core/orchestrator.py:88-91 | a title other than "Unknown Title" is the one some scanned chunk gives |
| Orchestrator.PayloadTitleSource | core/orchestrator.py:85-92 | "Unknown Title" when the content does not parse; otherwise any other title is the first "H1:" line of one of the first three big chunks |
| Orchestrator.PayloadTitleIgnoresLaterChunks | core/orchestrator.py:88 | big chunks after the third never change the title |
| Orchestrator.PayloadTitleFirstChunk | core/orchestrator.py:88-91 | a first big chunk with an "H1:" line names the page, unless that line reads "Unknown Title" |
| Orchestrator.GlobalContext | core/orchestrator.py:94-99 | the context's primary topic is the title |
| Orchestrator.ScanChunk | core/orchestrator.py:89-90 | the inner loop over a chunk's items ends as the chunk scan says |
| Orchestrator.BuildAnalyzerPayload | core/orchestrator.py:84-101 | the payload holds exactly the global context and the content, unchanged under "chunk_text"; the context carries the page title |
| Orchestrator.TagAll | core/orchestrator.py:57 | every violation of the reply, in order, marked with the audit's number and otherwise unchanged |
| Orchestrator.Aggregate | core/orchestrator.py:47-62 | the collected violations and the number of successful audits of the replies |
| Orchestrator.SuccessesCount | core/orchestrator.py:51-56 | at most one success per audit, and none exactly when no reply was answered |
| Orchestrator.UnparseableReplyCounts | core/orchestrator.py:53-58 | an answered reply whose text yields no violation still counts as a success and adds nothing |
| Orchestrator.CollectedIds | core/orchestrator.py:51-58 | every collected violation carries the 1-based number of an answered audit |
| Orchestrator.FromAnsweredAuditsWiden | core/orchestrator.py:51-58 | a later reply does not invalidate earlier audit numbers |
| Orchestrator.TaggedFromAnsweredAudit | core/orchestrator.py:52-57 | the violations of an answered reply carry its number |
| Orchestrator.FromAnsweredAuditsConcat | core/orchestrator.py:58 | extending the list keeps every number valid |
| Orchestrator.CollectedGrows | core/orchestrator.py:58 | the collected list only grows at its end, in audit order |
| Orchestrator.GenerateMarkdown | core/orchestrator.py:115-136 | the report of the violations with the given date and audit count, or a failure where the code raises |
| Orchestrator.ShownStep | core/orchestrator.py:122-123 | a violation whose type mentions "no violation" is skipped; any other is listed next |
| Orchestrator.EntriesSnoc | core/orchestrator.py:126-135 | one more listed violation appends its entry, numbered after the others |
| Orchestrator.ReportListed | core/orchestrator.py:117-136 | a non-empty list reports the header followed by the entries of the listed violations, joined by newlines |
| Orchestrator.ListEntry | core/orchestrator.py:122-135 | one loop iteration keeps the lines equal to the header and the entries so far, and the counter one past their number |
| Orchestrator.AppendEntry | core/orchestrator.py:126-135 | appends the entry of one more violation |
| Orchestrator.EntryLines | core/orchestrator.py:124-134 | the lines of one entry |
| Orchestrator.ShownFilters | core/orchestrator.py:122-123 | the listed violations are exactly those whose type does not mention "no violation", none added |
| Orchestrator.ReportRaises | core/orchestrator.py:118-123 | the report fails exactly when some violation type is not a string |
| Orchestrator.ReportEmpty | core/orchestrator.py:117-119 | no violations: the header and the "No violations found" line |
| Orchestrator.ReportAllHidden | core/orchestrator.py:118-136 | a non-empty list whose every type mentions "no violation" reports the header alone |
| Orchestrator.NothingShown | core/orchestrator.py:122-123 | nothing is listed when every type mentions "no violation" |
| Orchestrator.NotHeading | core/orchestrator.py:126 | a line not opening with '#' is no heading |
| Orchestrator.EntryHeadings | core/orchestrator.py:126-134 | an entry has exactly one heading line, its first |
| Orchestrator.HeadingsAfterFirst | core/orchestrator.py:126-134 | a block whose only heading line is its first has that one heading |
| Orchestrator.EntriesNumbered | core/orchestrator.py:121-135 | the listed violations become consecutive blocks numbered 1, 2, ... in order, each headed by its number, emoji and type |
| Orchestrator.EntryLineStarts | core/orchestrator.py:126-134 | the first characters that tell an entry's lines apart |
| Orchestrator.EntrySplit | core/orchestrator.py:126-134 | an entry is heading, severity, problem, optional translation, explanation, guideline, fix, optional fix translation and rule, in this order |
| Orchestrator.EntryTranslations | core/orchestrator.py:129-133 | a translation line appears exactly when the translation is truthy, a fix-translation line exactly when the rewrite translation is |
| Orchestrator.RunAnalysis | core/orchestrator.py:27-82 | the outcome of the run; every audit receives the content unchanged; the deduplicator is asked, with the collected violations and the context, exactly when some audit succeeded and reported a violation |
| Orchestrator.AnalysisFails | core/orchestrator.py:64 | the run fails exactly when no audit was answered, with "All audits failed." |
| Orchestrator.AnalysisSucceeds | core/orchestrator.py:66-113 | a successful run counts every collected and every reported violation; no violations skip deduplication; a failed deduplicator keeps the collected violations with their audit numbers; an answered one gives its parse |
| Orchestrator.AnalysisReportHeader | core/orchestrator.py:117 | the report names the number of answered audits, not the number asked for |
| Orchestrator.ReportHeader | core/orchestrator.py:117 | every report starts with its header |
| Orchestrator.JoinStartsWithFirst | core/orchestrator.py:136 | lines joined by newlines start with the first line |
| BaseFeature.FeatureIdOfStem | features/base_feature.py:19 | a stem without "a" or "f" followed by "AnalysisFeature" has the lower-cased stem as its id |
| BaseFeature.FeatureIdOfHtml | features/base_feature.py:19 | the HTML feature's own id is "html"; it serves only as the session-key prefix, apart from the registry id "html_analysis" |
| BaseFeature.FeatureIdOfUrl | features/base_feature.py:19 | the URL feature's own id is "url" |
| BaseFeature.ReplaceAllPast | features/base_feature.py:19 | replacement leaves alone a prefix that never holds the pattern's first character |
| BaseFeature.SessionKey | features/base_feature.py:20-59 | the feature id, an underscore, then the widget key, and nothing else |
| BaseFeature.SessionKeyInjective | features/base_feature.py:57-59 | within one feature distinct widget keys give distinct session keys |
| BaseFeature.SessionKeysAcrossFeatures | features/base_feature.py:20-59 | across features the prefix alone does not keep keys apart when they hold underscores |
| BaseFeature.ValidateInput | features/base_feature.py:61-69 | accepted exactly when the input is non-empty and its `is_valid` (true when missing) is truthy; an empty input is refused with "No input data provided", any other refusal carries the input's error message or "Invalid input" |
| BaseFeature.ValidateWithoutFlag | features/base_feature.py:67 | a non-empty input without `is_valid` passes |
| BaseFeature.ExtractionMetrics | features/base_feature.py:83-101 | the size is always the text's length; text that does not parse to a dictionary gives the error variant with "Could not parse JSON structure" |
| BaseFeature.ChunkValue | features/base_feature.py:90 | a serialised chunk is a dictionary whose `small_chunks` holds its lines |
| BaseFeature.SmallTotalOfChunks | features/base_feature.py:90 | summed over serialised chunks, the count is the number of all their lines |
| BaseFeature.MetricsOfChunks | features/base_feature.py:87-96 | the metrics of an extractor's document count its chunks and all their lines |
| BaseFeature.MetricsOfNonObjectChunk | features/base_feature.py:90-101 | a chunk list holding a non-dictionary yields only the size and the error |
| BaseFeature.SmallTotalFails | features/base_feature.py:90 | the sum raises at a chunk without `get` |
| HtmlAnalysis.DirectoryCheckRedundant | features/html_analysis.py:117-120 | the directory test never excludes anything, since a name ending in "/" has no HTML extension |
| HtmlAnalysis.PreValidIsMember | features/html_analysis.py:73 | every member the upload form counts is one the extraction reads |
| HtmlAnalysis.MemberNotPreValid | features/html_analysis.py:73 | the converse fails: "__MACOSXnotes.html" is read but not counted |
| HtmlAnalysis.FormCount | features/html_analysis.py:73 | never more than the members |
| HtmlAnalysis.PreValidateZip | features/html_analysis.py:69-80 | the stored count is between 1 and the number of members; a refusal says "No HTML files found in ZIP" |
| HtmlAnalysis.FormCountAtMost | features/html_analysis.py:73 | the form never counts more members than the extraction reads |
| HtmlAnalysis.PreValidateZipRefusesMember | features/html_analysis.py:73-80 | an archive holding only "__MACOSXnotes.html" is refused although the extraction would read that member |
| HtmlAnalysis.PreValidateZipIntended | features/html_analysis.py:69-80 | the stored count is between 1 and the number of members; a refusal says "No HTML files found in ZIP" |
| HtmlAnalysis.PreValidateZipIntendedAccepts | features/html_analysis.py:73-80 | the intended pre-validation accepts exactly the archives with a member the extraction reads, and counts all of them |
| HtmlAnalysis.Put | features/html_analysis.py:135 | assigning a key: it then finds the value, every other key finds what it found before, and the dictionary grows only for a new key |
| HtmlAnalysis.ZipFileList | features/html_analysis.py:117-120 | no more names than members |
| HtmlAnalysis.ZipFileListIff | features/html_analysis.py:117-120 | a member is listed exactly when it has an HTML extension, lies outside "__MACOSX/" and is no directory |
| HtmlAnalysis.Entries | features/html_analysis.py:124-135 | at most one stored pair per listed member |
| HtmlAnalysis.Fill | features/html_analysis.py:112-135 | the dictionary is empty exactly when nothing was stored |
| HtmlAnalysis.ZipOutcome | features/html_analysis.py:139-149 | success exactly when something was stored; otherwise the fixed message "No valid HTML content could be extracted from ZIP" |
| HtmlAnalysis.ExtractZipContent | features/html_analysis.py:110-149 | the outcome of the dictionary the loop fills from the listed members |
| HtmlAnalysis.StoreExtractions | features/html_analysis.py:124-135 | the loop stores each successful extraction under its safe name, in order |
| HtmlAnalysis.FillLookup | features/html_analysis.py:135 | each name holds the value of the last pair stored under it |
| HtmlAnalysis.StoredIff | features/html_analysis.py:130-135 | a name is absent exactly when no successful member is stored under it: failed files are omitted |
| HtmlAnalysis.StoredStep | features/html_analysis.py:130-135 | the last member decides a name's presence when it is stored under it, the earlier ones otherwise |
| HtmlAnalysis.LaterWins | features/html_analysis.py:134-135 | when two members get the same safe name, the later successful one is kept |
| HtmlAnalysis.EntriesEmpty | features/html_analysis.py:130-135 | nothing is stored exactly when no member extracts successfully |
| HtmlAnalysis.NoSuccessOutcome | features/html_analysis.py:139-140 | no HTML member extracts: the archive fails with the fixed message |
| HtmlAnalysis.FillOneName | features/html_analysis.py:135 | pairs under one name leave that name alone, holding the last value |
| HtmlAnalysis.EntriesOneName | features/html_analysis.py:134-135 | when all successful members share a name, every stored pair has it |
| HtmlAnalysis.EntriesLast | features/html_analysis.py:130-135 | the last pair comes from the last successful member |
| HtmlAnalysis.OneFileOutcome | features/html_analysis.py:143-145 | one distinct name among the successful members: the archive yields the last one's extraction text itself |
| HtmlAnalysis.OneNameOutcome | features/html_analysis.py:143-145 | a dictionary with one name yields that name's text |
| HtmlAnalysis.TextOfStored | features/html_analysis.py:135-144 | a stored text comes back unchanged |
| HtmlAnalysis.ManyFilesOutcome | features/html_analysis.py:147-149 | two successful members with different names: the archive yields the "files" document of the whole dictionary |
| HtmlAnalysis.ExtractContent | features/html_analysis.py:95-108 | ZIP input goes to the archive extraction, anything else to the single-file extractor with its HTML text, empty when missing |
| HtmlAnalysis.FileList | features/html_analysis.py:160-165 | "File i (inside ZIP)" for i from 1 to the count for multi-file input, nothing otherwise |
| HtmlAnalysis.FileListIffMulti | features/html_analysis.py:156-165 | the list is non-empty exactly for multi-file input, and then has at least two names |
| HtmlAnalysis.HooksDefaultOffZip | features/html_analysis.py:156-165 | off ZIP input the hooks agree with the inherited single-file defaults |
| HtmlAnalysis.SourceDescription | features/html_analysis.py:167-171 | the filename when it is truthy, "HTML_Content" otherwise |
| HtmlAnalysis.PasteFormValidation | features/html_analysis.py:89-93 | validating the form's result returns its own verdict and message |
| HtmlAnalysis.PasteValidation | features/html_analysis.py:48-53 | a paste is accepted exactly when it is longer than ten characters once stripped; a short non-empty text is refused as too short, an empty one with an empty message |
| HtmlAnalysis.PasteDispatch | features/html_analysis.py:101-108 | an accepted paste is single-file input whose extraction runs on the pasted text |
| HtmlAnalysis.AcceptedFormDispatch | features/html_analysis.py:101-108 | the accepted paste form is neither ZIP nor multi-file input and carries the pasted text |
| State.Structured | core/state.py:25-31 | the file table and the processing flag are present afterwards, added empty or false only where missing; every other key keeps its value |
| State.Updated | core/state.py:70-75 | the row keeps its file name and takes the status; the result changes only when one is given, the error only when a non-empty one is given |
| State.UpdateFilesFrame | core/state.py:64-75 | an unknown file changes nothing; a known one gets the status, and no other file and no key changes |
| State.UpdateStatusOnly | core/state.py:71-75 | without a result and with an empty error only the status changes |
| State.Pending | core/state.py:55-62 | a pending row for the file, with no result and no error |
| State.StateManager.constructor | core/state.py:25-31 | the store as `__init__` leaves it |
| State.StateManager.EnsureStructure | core/state.py:27-31 | the store gets the file table and the processing flag where missing |
| State.StateManager.MultiFileState | core/state.py:77-79 | a row exactly for a tracked file, and it is that file's row |
| State.StateManager.SingleResult | core/state.py:95-97 | a result exactly when one is stored |
| State.StateManager.SetProcessing | core/state.py:39-41 | sets the flag and changes no other key |
| State.StateManager.TriggerStop | core/state.py:47-48 | raises the stop signal and changes no other key |
| State.StateManager.ClearStop | core/state.py:50-51 | lowers the stop signal and changes no other key |
| State.StateManager.InitMultiFile | core/state.py:55-62 | the file gets a pending row, replacing any earlier one; no other key changes |
| State.StateManager.UpdateMultiFile | core/state.py:64-75 | the file table is updated as described; no other key changes |
| State.StateManager.ClearMultiFiles | core/state.py:85-87 | the file table is empty and no other key changes |
| State.StateManager.SetSingleResult | core/state.py:91-93 | the result is stored and no other key changes |
| State.StateManager.ClearSingleResult | core/state.py:99-101 | the stored result is removed; without one nothing changes |
| State.StateManager.ResetAll | core/state.py:105-113 | the store is the fresh one: no files, no result, not processing, no stop signal |
| State.FreshIsStructuredEmpty | core/state.py:112-113 | the fresh store holds exactly the file table and the processing flag |
| State.StructuredIdempotent | core/state.py:25-31 | running `__init__` again changes nothing |
| Registry.Lookup | utils/feature_registry.py:22-26 | the handler exactly for a registered id; otherwise the error "Unknown feature: " and the id |
| Registry.LookupAfterRegister | utils/feature_registry.py:16-26 | after registering an id, it finds the new handler and every other id what it found before |
| Registry.WithDefaultsEntries | utils/feature_registry.py:29-50 | the default registration adds exactly the ids whose modules import, with their entries, and keeps every other id's entry |
| Registry.DefaultsFromEmpty | utils/feature_registry.py:29-53 | on an empty registry with both modules present it holds exactly "url_analysis" and "html_analysis" |
| Registry.FeatureRegistry.constructor | utils/feature_registry.py:13-14 | both dictionaries empty |
| Registry.FeatureRegistry.RegisterFeature | utils/feature_registry.py:16-20 | both dictionaries get the id, a later registration overwriting an earlier one; both keep the same ids |
| Registry.FeatureRegistry.GetHandler | utils/feature_registry.py:22-26 | the lookup of the id |
| Registry.FeatureRegistry.RegisterDefaultFeatures | utils/feature_registry.py:29-50 | both dictionaries after the default registration |
| Registry.LoadRegistry | utils/feature_registry.py:52-53 | loading the module registers exactly the two features, found under "html_analysis" and "url_analysis" and not under the features' own ids |

## Left out

- HTML parsing with BeautifulSoup is not modelled. Each extractor receives the parsed document as data.
  - The HTML extractor receives the sequence of elements `find_all` visits, together with each element's descendants, ancestors, list items and table cells.
  - The Google-Doc extractor receives the body's top-level elements.
- GoogleDoc.PromoteParagraph: a node's boldness is an input. The source also counts a paragraph as bold when its markup contains "font-weight" and either "700" or "bold" anywhere (core/google_doc_extractor.py:168). A node's text is also given whole, while `get_text(" ", strip=True)` joins the stripped text pieces with single spaces.
- GoogleDoc: only top-level blocks are visited. The source's `find_all` calls (core/google_doc_extractor.py:82,161,174-189,264) also reach `p` and `h*` elements nested inside `td`, `li` or a `div`. The model treats a document as one level of blocks, so those nested elements are not visited.
- `_preprocess_soup` (core/html_extractor.py:45-51) is not modelled. It removes script, style, nav, footer, aside, header, noscript and comments, and the element sequence is taken as already cleaned.
- The main-area choice (core/html_extractor.py:72) is not modelled, for the same reason.
- The email pre-clean `re.sub` (core/google_doc_extractor.py:33) works on the raw HTML text and is not modelled.
- Exceptions raised by the parsers are not modelled:
  - "HTML parsing error" (core/html_extractor.py:40-43) and "Google Doc parsing error" (core/google_doc_extractor.py:64-65) arise only from BeautifulSoup or from code outside the model;
  - in `_extract_zip_content`, "ZIP Processing Error" (features/html_analysis.py:151-152) and the per-file skip on an exception (features/html_analysis.py:136-137) arise from reading the archive. The model takes the archive as its list of members, already read and decoded.
  - The form's "Invalid ZIP file" (features/html_analysis.py:81-82) is not modelled for the same reason.
- JSON values:
  - `Json.Value` has integer numbers only, so floating-point numbers are not represented;
  - `Json.Repr` quotes nested strings but does not apply `repr`'s escaping of quotes and backslashes;
  - `json.loads` and `json.dumps` are unconstrained parameters, and the text `json.dumps` would produce is not modelled (the extractors return the chunk records themselves);
  - `Json.Get` returns the first binding of a key, while `json.loads` keeps the last value of a duplicate key. The model assumes parsed objects have distinct keys.
- Character classes are ASCII only. `Strings.IsSpace` covers `\s`, `Strings.IsWordChar` covers `\w`, and `Strings.Lower`/`Strings.Upper` cover `lower()`/`upper()`. `Strings.IsSpace` holds exactly for the ASCII characters Python counts as whitespace: space, tab, newline, carriage return, vertical tab, form feed and the separators U+001C to U+001F. Non-ASCII whitespace such as U+00A0 or U+2028, non-ASCII letters and non-ASCII case mappings are not modelled.
- GoogleDoc.Dedup: `list(set(...))` (core/google_doc_extractor.py:152) has an order Python does not define. The model keeps first occurrences in order and proves only that the same lines appear, each once.
- Models.NewAnalysisResult: `processing_time`, `word_bytes` and `debug_info` are not modelled. Nor are the debug data of `run_analysis` (`raw_debug_data`, the "audits"/"deduplicator_raw" package) and `AnalysisResult.raw_response` beyond its presence.
- State.Pending: the `start_time` timestamp (core/state.py:61) is not modelled.
- Orchestrator.RunAnalysis: the asynchronous fan-out with its semaphore and delays (core/orchestrator.py:33-45) is not modelled. The replies arrive as a list in audit order, which is what `asyncio.gather` returns. The assistant ids from `st.secrets` (core/orchestrator.py:20-25,29) and the choice between the casino and regular assistant are not modelled. The current date (core/orchestrator.py:116) is an input.
- Orchestrator: `safe_log` and the 400-second deduplication timeout are not modelled.
- State.StateManager.UpdateMultiFile: the source mutates the `FileState` object held in the table, and other references to it see the change (core/state.py:70-75). The model stores `FileState` values, so it does not capture that aliasing.
- Registry.FeatureRegistry.GetHandler: the lookup returns the handler class. Creating the instance (utils/feature_registry.py:26) is not modelled.
- `_KEY_EXTRACTED` (core/state.py:23) is declared but never used, so it has no counterpart.
- HtmlExtractor.KeyOf: the source hashes the tuple (text, child count). The model compares the tuple itself, so hash collisions are not modelled.
- The input forms' widgets (`st.radio`, `st.text_area`, `st.file_uploader`), `get_feature_name` and `format_timestamp` are user-interface code or trivial and are not modelled. The form's decision logic is modelled in `HtmlAnalysis.PasteForm` and `HtmlAnalysis.PreValidateZip`.
- `safe_log` is not modelled.
- `features/url_analysis.py`, core/service.py, core/processor.py, core/reporter.py, core/extractor.py, core/auth.py and the ui/ layouts are not part of this model.

## Findings

| source | as written | input that shows it | evidently intended | confidence | as-written member | corrected member |
|---|---|---|---|---|---|---|
| utils/helpers.py:32-48 | `validate_url` strips the URL before matching, but `extract_domain` removes the scheme and splits the unstripped URL. With leading whitespace the scheme is not at the start, so the text before the scheme's colon is returned. | `" http://example.com"` gives `" http"` | the host, `"example.com"` | medium, not executed | Helpers.ExtractDomainLeadingSpace | Helpers.ExtractDomainOfHostLeadingSpace |
| utils/helpers.py:40-48 | the pattern accepts a query right after the host (`[/?]\S+`), but the domain is cut only at `/` and `:` | `"http://example.com?x"` gives `"example.com?x"` | `"example.com"` | medium, not executed | Helpers.ExtractDomainKeepsQuery | Helpers.ExtractDomainOfHostQuery |
| features/html_analysis.py:73-119 | the upload form counts only names that do not start with `__MACOSX`, while the extraction excludes only names starting with `__MACOSX/` | an archive whose only HTML member is `__MACOSXnotes.html` is refused with "No HTML files found in ZIP", although the extraction would read it | the form counts exactly the members the extraction reads | low, not executed | HtmlAnalysis.PreValidateZipRefusesMember | HtmlAnalysis.PreValidateZipIntendedAccepts |

In each row, the corrected definition (`Helpers.ExtractDomainOfHost`, `HtmlAnalysis.PreValidateZipIntended`) sits next to the as-written one (`Helpers.ExtractDomain`, `HtmlAnalysis.PreValidateZip`). `Helpers.ExtractDomainOfHostIsHost` proves that the corrected domain is the host the URL pattern matched, whatever port and path follow.
