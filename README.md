# mcp-document-scanner, modelled in Dafny

The document scanner renames scanned letters, invoices and contracts after
what they say. It reads the text of a document and suggests a name of the
form `date_sender_type_reference.ext`. It vets that name, then renames the
file after a preview, a confirmation dialog or at once. Every rename goes
into an undo ledger, and the most recent batch can be taken back.

An optional AI provider can analyse the text instead. Its JSON reply is
unwrapped, normalised and turned into a name by its own builder. A
security module sanitizes names, validates API keys and checks the
configuration file's permissions. A category table and a configuration
merge complete the core.

The model has one Dafny module per source module, plus shared helpers:

| file | module | models |
|---|---|---|
| `text.dfy` | `Text` | JavaScript string operations the core relies on: `\s`, `trim`, `includes`, `join`, global `replace` of runs, digit templates |
| `paths.dfy` | `Paths` | POSIX `path.basename`, `dirname`, `join` and `extname` for the paths the tool builds |
| `files.dfy` | `Files` | the file system: existing paths, and the paths `renameSync` refuses |
| `cli_names.dfy` | `CliNames` | `sanitizeFilename` and `validateFilename` of `src/cli.ts` |
| `cli_suggest.dfy` | `CliSuggest` | `generateSmartFilename` of `src/cli.ts` |
| `cli_process.dfy` | `CliProcess` | the `processFile` ladder of `src/cli.ts` |
| `ai_analysis.dfy` | `AiAnalysis` | `src/ai-analysis.ts` after and around the provider call |
| `undo.dfy` | `Undo` | the ledger of `src/undo.ts`, as transition functions and the `Ledger` class |
| `security.dfy` | `Security` | the string checks and the permission decision of `src/security.ts` |
| `categories.dfy` | `Categories` | `src/categories.ts` |
| `config.dfy` | `Config` | the defaults, the file overlay and `mergeWithCLI` of `src/config.ts` |

Where the code works step by step, the model is imperative:
- the suggestion loops of `generateSmartFilename`;
- the accumulating validator;
- the component builder of the AI path;
- the undo loop;
- the rename ladder.

Each of these is a method proved equal to a specification function. The
functions' own properties are proved as lemmas. The ledger is a class whose
methods are proved to perform the transitions of `Undo.Recorded` and
`Undo.Undone`.

The following are parameters:
- the extracted text;
- the dialog's answer;
- the file's creation date;
- the configured custom companies;
- the clock;
- the provider's reply;
- the JSON parser.

## Model

| member | source | states |
|---|---|---|
| CliNames.SanitizeFilename | src/cli.ts:32-38 | the result has no `<>:"\|?*`, no control character and no `\`, no `__`, and no `_` at either end |
| CliNames.SanitizeKeepsCleanName | src/cli.ts:32-38 | a name already of the sanitized form comes back unchanged |
| CliNames.SlashIsKept | src/cli.ts:34-35 | a `/` in the input survives sanitizing |
| CliNames.SanitizeIsNotIdempotent | src/cli.ts:36 | `"_ a"` sanitizes to `" a"`, and that sanitizes to `"a"`: trimming before stripping `_` leaves a second pass work to do |
| CliNames.TrimsToNothing | src/cli.ts:44 | `!filename \|\| filename.trim().length === 0` holds exactly when the name is all whitespace |
| CliNames.StripLastExtension | src/cli.ts:62 | the base name is a prefix of the name; it is the whole name exactly when the name has no `.` or ends in one, and otherwise ends just before the last `.`, which something follows |
| CliNames.NameErrors | src/cli.ts:41-78 | a blank name gets `[Empty]` and nothing else; any other name gets at most the four other errors |
| CliNames.NameErrorsReportEachCheck | src/cli.ts:49-71 | for a non-blank name: too long iff longer than 255, carrying the length; illegal characters iff one is present; reserved iff the base name is a device name up to case; trailing dot or space iff the base ends so. Each holds independently of the others |
| CliNames.ValidateFilename | src/cli.ts:41-78 | the accumulated errors are `NameErrors(name)`, and the name is valid iff there are none |
| CliNames.PushFailed | src/cli.ts:49-71 | the four `if … errors.push` steps push exactly the errors of the failed checks, in the order of the checks |
| CliNames.BlankNameHasOneError | src/cli.ts:44-47 | a blank name is invalid with exactly one error |
| CliNames.LeadingDotIsAccepted | src/cli.ts:73-76 | a hidden-file name `.x` gets no error |
| CliNames.ReservedExamples | src/cli.ts:60-65 | `con.txt` and `Lpt3.tar.gz` are reserved, `CONSOLE.txt` is not |
| CliSuggest.Companies | src/cli.ts:190-207 | the lexicon is the built-in senders followed by the custom ones |
| Text.TemplateMatch | src/cli.ts:170 | the match is the leftmost occurrence of the digit template; there is none iff the template occurs nowhere |
| CliSuggest.BirthDate | src/cli.ts:176-186 | `YYYY-MM-DD`: the year's digits, `-`, the month as two digits, `-`, the day as two digits; read back, the three fields give the year, month and day |
| CliSuggest.DateSlot | src/cli.ts:169-187 | a scanner stamp in the original name gives that stamp; without one, the creation date in `YYYY-MM-DD` form, or nothing when there is no creation date |
| CliSuggest.GermanToIso | src/cli.ts:256-258 | `DD.MM.YYYY` becomes `YYYY-MM-DD` with the same digits |
| CliSuggest.FirstTrue | src/cli.ts:210-216 | the `for` with `break` stops at the first hit, and nothing before it hits |
| CliSuggest.CompanySlot | src/cli.ts:209-216 | at most one sender; none iff the text contains no lexicon entry; otherwise the first contained entry, in list order, with whitespace runs as `_` |
| CliSuggest.DocTypeSlot | src/cli.ts:227-247 | at most one label; none iff no key is contained; otherwise the label of the first contained key in map order |
| CliSuggest.LetterheadDate | src/cli.ts:251-272 | the first German date in the first 1000 characters, rewritten as ISO, else the first ISO date there; none iff neither form occurs there |
| CliSuggest.WithLetterheadDate | src/cli.ts:255-272 | the letterhead date overwrites the first suggestion, whatever it is, or becomes the only one; without a date nothing changes |
| CliSuggest.Run | src/cli.ts:276 | a greedy character-class run: all characters satisfy the class, and the next one does not |
| CliSuggest.CaptureAt | src/cli.ts:276-282 | a capture is a non-empty run of `[A-Z0-9\-\/]` characters |
| CliSuggest.CaptureAtAnyIsFirst | src/cli.ts:276-282 | the winning alternative at a position is the first in backtracking order that matches; none matches iff there is no capture |
| CliSuggest.MatchPositionIsLeftmost | src/cli.ts:286 | the match is at the leftmost position where some alternative matches |
| CliSuggest.PatternMatch | src/cli.ts:286 | `text.match(pattern)[1]` is a non-empty token |
| CliSuggest.CaptureExample | src/cli.ts:282 | `AZ` matches `az: 1/2` up to case and captures `1/2` |
| CliSuggest.InvoiceLabelNeedsS | src/cli.ts:276 | `Rechnung Nr. 123` is not matched by the first pattern |
| CliSuggest.LongMatchFlags | src/cli.ts:285-287 | one flag per pattern: its capture has at least 3 characters |
| CliSuggest.FirstLongCapture | src/cli.ts:285-291 | at most one reference; none iff no pattern's capture reaches 3 characters; otherwise the capture of the first such pattern, in table order, at least 3 token characters long |
| CliSuggest.ReferenceSlot | src/cli.ts:274-291 | the reference is a token of at least 3 characters, from the table of seven patterns |
| CliSuggest.Suggestions | src/cli.ts:166-291 | at most four suggestions are collected |
| CliSuggest.SmartFilename | src/cli.ts:293-300 | with no suggestion the original name comes back unchanged; otherwise the name ends with the original extension, and the part before it has no illegal character |
| CliSuggest.FirstSuggestionIsADate | src/cli.ts:169-187 | the first suggestion is the letterhead date, else the whole scanner stamp of the name, else the creation date |
| CliSuggest.LetterheadDateReplacesCompany | src/cli.ts:255-258 | with no date slot, a letterhead date takes the sender's place and the sender is lost |
| CliSuggest.DatesAfterLetterheadIgnored | src/cli.ts:251 | only the first 1000 characters are searched for a date |
| CliSuggest.SlashInReferenceSurvives | src/cli.ts:276 | a `/` captured in the reference is still in the suggested name |
| CliSuggest.FindFirstContained | src/cli.ts:209-216 | the `for` loop with `break` stops at the index of the first key the text contains, or finds none |
| CliSuggest.PushCompany | src/cli.ts:209-216 | the loop appends exactly `CompanySlot` |
| CliSuggest.PushDocType | src/cli.ts:242-247 | the loop appends exactly `DocTypeSlot` |
| CliSuggest.PutLetterheadDate | src/cli.ts:249-272 | the overwrite or `unshift` gives `WithLetterheadDate` |
| CliSuggest.PushReference | src/cli.ts:285-291 | the loop appends exactly the first long capture |
| CliSuggest.GenerateSmartFilename | src/cli.ts:166-301 | the suggested name is `SmartFilename` of the inputs |
| CliProcess.Stop | src/cli.ts:334-408 | the ladder stops without renaming; an outcome is unsuccessful exactly when it carries an error other than the missing text |
| CliProcess.SuggestionStop | src/cli.ts:369-408 | the rungs after the suggestion stop without renaming, and unsuccessfully exactly on an error |
| CliProcess.ModeStop | src/cli.ts:385-408 | preview, a declined dialog and a taken target stop without renaming; only the taken target is a failure |
| CliProcess.Processed | src/cli.ts:327-428 | without a rename the files and the ledger are unchanged; a rename moves exactly the source to the new path and records it |
| CliProcess.RenamedExactlyWhenAllChecksPass | src/cli.ts:334-427 | whatever the suggestion, a file is renamed iff it exists, has a supported format and 10 trimmed characters of text, its suggestion is valid and new, preview is off, the rename is wanted, the target is free, and `renameSync` succeeds |
| CliProcess.SilentWithoutExecuteNeverRenames | src/cli.ts:390-398 | silent without execute never renames and never touches the files |
| CliProcess.ErrorsAreFailures | src/cli.ts:336-426 | `success` is false exactly when an error other than "no text" is reported |
| CliProcess.RenameAndRecord | src/cli.ts:410-423 | a successful `renameSync` moves the file and records one operation; a failing one changes nothing |
| CliProcess.ProcessFile | src/cli.ts:327-428 | outcome, files and ledger afterwards are those of `Processed` for the suggestion `generateSmartFilename` makes |
| CliProcess.Screen | src/cli.ts:334-366 | the first three rungs, then the suggestion's: the stop is `Stop` of the files, and going on comes with the suggestion of `SmartFilename` |
| CliProcess.ScreenSuggestion | src/cli.ts:369-383 | an invalid or unchanged suggestion stops as `SuggestionStop` says |
| CliProcess.ScreenMode | src/cli.ts:385-408 | preview, the dialog (asked only when neither executing nor silent) and the target check stop as `ModeStop` says |
| Files.FileSystem.Exists | src/cli.ts:334 | `existsSync` answers membership |
| Files.FileSystem.Rename | src/cli.ts:411 | a rename that does not throw moves the source to the target; one that throws changes nothing |
| AiAnalysis.SanitizeString | src/ai-analysis.ts:292-301 | at most 50 characters; no `<>:"\|?*`, control character, whitespace, `/` or `\`; no `__`; no leading `_` |
| AiAnalysis.SanitizeKeepsCleanComponent | src/ai-analysis.ts:292-301 | a component already of the sanitized form is unchanged |
| AiAnalysis.OnlyTheCutApplies | src/ai-analysis.ts:293-300 | on a string of the sanitized form, only the 50-character cut changes anything |
| AiAnalysis.SanitizedCanEndWithUnderscore | src/ai-analysis.ts:299-300 | 49 `a`, `_`, `b` sanitizes to 50 characters ending in `_`: the cut comes after the edges are stripped |
| AiAnalysis.TextOr | src/ai-analysis.ts:259-260 | a falsy field gives the fallback, and a truthy field is usable iff it is a string |
| AiAnalysis.Strings | src/ai-analysis.ts:261-262 | the list is usable iff every element is a string, and then it keeps them all in order |
| AiAnalysis.KeywordsOf | src/ai-analysis.ts:261 | missing keywords are the empty list |
| AiAnalysis.Clamp | src/ai-analysis.ts:266 | the value is clamped into [0, 1] and kept when inside |
| AiAnalysis.ConfidenceOf | src/ai-analysis.ts:266 | a missing or falsy confidence is 0.5, a number is clamped, and any result is in [0, 1] |
| AiAnalysis.UsableKeywords | src/ai-analysis.ts:263 | the filter keeps exactly the keywords of 2 to 20 characters |
| AiAnalysis.UsableKeywordsDistribute | src/ai-analysis.ts:263 | the filter keeps the order |
| AiAnalysis.SanitizedAll | src/ai-analysis.ts:262 | each keyword is sanitized in its place |
| AiAnalysis.NormalizedKeywords | src/ai-analysis.ts:261-264 | at most five keywords, each 2 to 20 characters |
| AiAnalysis.NormalizedKeywordsAreSanitized | src/ai-analysis.ts:261-264 | every kept keyword is the sanitized form of a keyword of the reply |
| AiAnalysis.FewUsableKeywordsAllKept | src/ai-analysis.ts:261-264 | up to five usable keywords are all kept, in order |
| AiAnalysis.ReferenceOf | src/ai-analysis.ts:265 | a falsy reference is absent, and a present one is a sanitized component |
| AiAnalysis.CategoryOf | src/ai-analysis.ts:258 | a missing category is `Sonstiges` |
| AiAnalysis.SanitizedText | src/ai-analysis.ts:259-260 | a missing company or type is the empty string |
| AiAnalysis.Normalized | src/ai-analysis.ts:257-268 | building throws iff the reply is `null` or a field other than `confidence` has the wrong type; the analysis has at most five keywords, the clamped confidence, components of at most 50 characters, and the reply as `rawResponse` |
| AiAnalysis.NormalizedFields | src/ai-analysis.ts:257-268 | a buildable reply gives category, company, type, keywords and reference as the sanitized properties or their defaults |
| AiAnalysis.MissingCategoryIsSonstiges | src/ai-analysis.ts:258 | a reply without a category is filed under `Sonstiges` |
| AiAnalysis.FirstClosing | src/ai-analysis.ts:249 | the first position where only whitespace follows a closing fence |
| AiAnalysis.RemoveAll | src/ai-analysis.ts:249-251 | never longer; a text without the token is unchanged; a text starting with it loses at least the token |
| AiAnalysis.Unfenced | src/ai-analysis.ts:245-252 | a trimmed reply not starting with "```" is parsed as it is; "```json" and "```" openings are removed with their whitespace and the closing fence is dropped; never longer than the trimmed reply |
| AiAnalysis.DropClosing | src/ai-analysis.ts:249 | removing the closing fence leaves a prefix |
| AiAnalysis.FencedReplyIsUnwrapped | src/ai-analysis.ts:245-252 | a reply fenced as "```json", whitespace, JSON text and "```" is reduced to the JSON text |
| AiAnalysis.ParseAIResponse | src/ai-analysis.ts:242-287 | a parse failure gives null; a result has data and carries the reply; a parsed reply gives its normalised analysis exactly when that has a company, a type or a keyword |
| AiAnalysis.BuildableReplyIsAnalysed | src/ai-analysis.ts:242-287 | a reply that parses to a buildable object gives an analysis iff its sanitized company, type or keyword list is non-empty, and the analysis carries those sanitized values |
| AiAnalysis.FencedReplyParsesInside | src/ai-analysis.ts:248-254 | a fenced reply is judged by the JSON inside the fence |
| AiAnalysis.EmptyFieldsGiveNothing | src/ai-analysis.ts:271-276 | no company, no type and no keywords give null |
| AiAnalysis.OtherKeywords | src/ai-analysis.ts:329-331 | exactly the keywords that repeat neither company nor type |
| AiAnalysis.ExtraKeywords | src/ai-analysis.ts:329-334 | at most three keywords, none equal to company or type |
| AiAnalysis.NonEmpty | src/ai-analysis.ts:342 | exactly the non-empty components |
| AiAnalysis.BuildFilenameFromAI | src/ai-analysis.ts:306-344 | the name pushed together is `FilenameFromAI`, and it ends with the original extension |
| AiAnalysis.ComponentOrder | src/ai-analysis.ts:314-339 | timestamp if non-empty, company if non-empty and confident at 0.5, type if non-empty, then the extra keywords as a block, then a reference of at most 30 characters, each at its index in this order; at most seven components |
| AiAnalysis.UnconfidentCompanyLeftOut | src/ai-analysis.ts:319 | below confidence 0.5 the company is no component |
| AiAnalysis.FilenameShape | src/ai-analysis.ts:342-343 | the name ends with the extension, is the extension alone when no component is non-empty, and has no character other than `_`, the extension's and the components' |
| AiAnalysis.IsAIEnabled | src/ai-analysis.ts:349-351 | enabled iff a key of at least 10 characters is configured |
| AiAnalysis.AnalysisRequest | src/ai-analysis.ts:153-173 | no request without a usable key; the text sent is the first 2000 characters; the token limit is the configured one, or 500 when it is unset or 0 |
| AiAnalysis.AnalyzeDocumentWithAI | src/ai-analysis.ts:147-202 | null without a usable key or without a reply; with both, the parsed analysis of the reply |
| AiAnalysis.EnabledIffRequestSent | src/ai-analysis.ts:153-158 | a provider is called iff the AI is enabled |
| AiAnalysis.DateRequest | src/ai-analysis.ts:363-378 | a provider is asked iff there is a key and at least two dates; the text sent is the first 1500 characters |
| AiAnalysis.DateInReply | src/ai-analysis.ts:407 | the leftmost `DD.MM.YYYY` date in the trimmed reply; none iff there is none |
| AiAnalysis.SelectDocumentDateWithAI | src/ai-analysis.ts:356-426 | null without a key or dates; the only date when there is one; with two or more, the date found in the reply when it is one of the list, else null |
| Undo.Recorded | src/undo.ts:57-80 | exactly one operation is appended, with the time and the basenames; earlier operations are kept; `lastBatch` becomes now on the first operation or after a gap of more than 5000 ms, and is kept otherwise |
| Undo.AtOrAfterMembers | src/undo.ts:90 | the batch filter keeps exactly the operations stamped at or after the time |
| Undo.BeforeMembers | src/undo.ts:138 | the pruning filter keeps exactly the operations stamped before the time |
| Undo.AtOrAfterDistributes | src/undo.ts:90 | the batch filter distributes over concatenation, so it keeps the recorded order |
| Undo.BeforeDistributes | src/undo.ts:138 | the pruning filter distributes over concatenation, so it keeps the recorded order |
| Undo.FiltersPartition | src/undo.ts:90 | every operation lands in exactly one of them |
| Undo.LastBatch | src/undo.ts:85-91 | empty for an empty ledger, and never longer than the ledger |
| Undo.LastBatchMembers | src/undo.ts:85-91 | the last batch holds exactly the operations with `timestamp >= lastBatch` |
| Undo.Pruned | src/undo.ts:135-140 | `lastBatch` is kept, and exactly as many operations go as the last batch holds |
| Undo.PrunedMembers | src/undo.ts:135-140 | exactly the operations before `lastBatch` remain, whether their undo failed or not |
| Undo.LastBatchIsSuffix | src/undo.ts:85-91 | in a chronological ledger the last batch is a suffix, and pruning keeps the prefix before it |
| Undo.UndoStep | src/undo.ts:108-131 | a missing new path or a taken old path fails with its message and changes nothing; otherwise the file moves back and counts as a success |
| Undo.UndoFrom | src/undo.ts:107-132 | success plus failed is the number of operations handled, and there is one message per failure |
| Undo.Undone | src/undo.ts:96-143 | an empty batch gives 0, 0 and one message and changes nothing; otherwise success plus failed is the batch size with one message per failure; the ledger is pruned iff something succeeded, and left as it was otherwise |
| Undo.Stats | src/undo.ts:163-172 | total count, last-batch size, and the first batch operation's time iff the batch is not empty |
| Undo.ChainedRenamesUndoNewestFirst | src/undo.ts:106-108 | for A→B then B→C, undo moves C to B, then B to A; oldest first would fail |
| Undo.RecordedAfterGap | src/undo.ts:61-69 | a rename more than 5 s after the last one is the whole last batch |
| Undo.UndoOfOneRename | src/undo.ts:107-131 | a rename whose target is there and whose source is free is moved back and counted as the one success |
| Undo.UndoneOfOneRename | src/undo.ts:96-143 | a last batch of one such rename reports one success, no failure, moves the file back and prunes the ledger |
| Undo.RecordThenUndoRestores | src/undo.ts:57-143 | recording a rename after a gap and undoing it restores files and earlier operations |
| Undo.GapOfFiveSecondsJoinsBatch | src/undo.ts:64 | renames at 0, 2000 and 7000 ms form one batch begun at 0: a gap of exactly 5000 ms does not split |
| Undo.LongerGapStartsBatch | src/undo.ts:64 | a rename at 7001 ms after ones at 0 and 2000 ms is the whole last batch, begun at 7001 |
| Undo.Ledger.constructor | src/undo.ts:37 | the ledger starts empty |
| Undo.Ledger.RecordRename | src/undo.ts:57-80 | the state afterwards is `Recorded` of the state before |
| Undo.Ledger.UndoLastBatch | src/undo.ts:96-143 | the reverse loop's report, ledger and files are those of `Undone` |
| Security.InitialNotReserved | src/security.ts:122-125 | no device name starts with a letter other than C, P, A, N, L |
| Security.Replaced | src/security.ts:97-101 | control characters, `<>:"\|?*` and both slashes are gone |
| Security.ReplacedIsCharByChar | src/security.ts:97-101 | the four replacements are one pass over the name in order: a control or illegal character is deleted, `/` and `\` become `_`, every other character is kept |
| Security.ReplacedSplits | src/security.ts:97-101 | the replacements of a joined name are the replacements of its parts, joined |
| Security.ReplacedOne | src/security.ts:97-101 | what the replacements make of a single character |
| Security.Collapsed | src/security.ts:102-103 | only safe characters remain, with no `..` |
| Security.CollapsedSplits | src/security.ts:102-103 | the collapse works run by run: a name cut outside a whitespace run and outside a `.` run collapses as its two parts |
| Security.CollapsedSpaceRun | src/security.ts:102 | a whitespace run becomes one `_` |
| Security.CollapsedDotRun | src/security.ts:103 | a run of `.` becomes one `.` |
| Security.CollapsedKeepsChar | src/security.ts:102-103 | any other character is kept |
| Security.Stripped | src/security.ts:108 | neither end is `.` or `_` |
| Security.Cleaned | src/security.ts:97-108 | safe characters only, no `..`, and no `.` or `_` at the ends |
| Security.CleanedKeepsSafeName | src/security.ts:97-108 | a name of safe characters with no `..` and no `.` or `_` at either end is cleaned to itself |
| Security.StrippedKeepsClean | src/security.ts:108 | a name with no `.` or `_` at either end is not stripped |
| Security.ReplacedKeepsSafe | src/security.ts:97-101 | the replacements leave a name of safe characters unchanged |
| Security.CollapsedKeepsSafe | src/security.ts:102-103 | the collapse leaves a name of safe characters with no `..` unchanged |
| Security.Substring | src/security.ts:114 | `substring` clamps its bound |
| Security.Truncated | src/security.ts:111-115 | a name within 255 is kept; a longer one keeps its extension and the start of its base, and is cut to exactly 255 when the extension fits |
| Security.TruncatedFits | src/security.ts:111-115 | when the extension fits, the cut name fits |
| Security.Unreserved | src/security.ts:118-129 | never empty; an empty name becomes `unnamed`; a device-name base gets a `_` in front, any other name is kept |
| Security.SanitizeFilename | src/security.ts:92-132 | never empty, `unnamed` for empty input or a name that cleans to nothing, only safe characters, never a device name; at most 256 characters when the extension fits; a cleaned name within 255 characters is returned as it is, with a `_` in front when its base is a device name |
| Security.SanitizeFilenameKeepsCleanName | src/security.ts:92-132 | a name that is already clean, within 255 characters and no device name comes back unchanged |
| Security.Finalized | src/security.ts:111-129 | the steps after cleaning keep every guarantee; the result has at most 256 characters; an empty name becomes `unnamed`, and a name within 255 characters is kept, with a `_` in front when its base is a device name |
| Security.SanitizedNameCanExceedLimit | src/security.ts:111-129 | `CONX.` and 251 `a` sanitize to 256 characters |
| Security.SanitizeFilenameWithinLimit | src/security.ts:92-132 | the same guarantees, with at most 255 characters when the extension fits; a cleaned name shorter than 255 characters comes out as `SanitizeFilename` gives it |
| Security.ValidateApiKey | src/security.ts:138-161 | valid iff 10 to 200 characters of `[A-Za-z0-9_-]`; otherwise the first failure of missing, too short, too long, bad character |
| Security.MaskApiKey | src/security.ts:166-171 | `***` below 12 characters; otherwise the first 8, `...` and the last 4 |
| Security.MaskHidesTheMiddle | src/security.ts:166-171 | keys alike in their first 8 and last 4 characters mask alike |
| Security.ValidateTextLength | src/security.ts:176-184 | valid iff at most 10·1024·1024 characters |
| Security.CheckConfigPermissions | src/security.ts:210-239 | world-readable iff bit 0o004 is set; group-readable iff 0o004 is clear and 0o040 is set; Windows and a failing `stat` are secure |
| Security.PermissionExamples | src/security.ts:217-235 | modes 600 and 400 pass; 644 and 640 do not |
| Categories.FirstRelatedFrom | src/categories.ts:71-77 | the first category from an index on with a related company |
| Categories.CategoryForCompany | src/categories.ts:70-79 | null iff no company anywhere is related by substring either way; otherwise the first related category in table order |
| Categories.EmptyNameIsTelecommunication | src/categories.ts:73 | the empty name maps to `Telekommunikation` |
| Categories.ListedCompanyFindsCategory | src/categories.ts:70-79 | a name related to a listed company always finds a category |
| Categories.AllCategories | src/categories.ts:84-86 | the table itself: its 8 entries in table order |
| Categories.CategoryByFolder | src/categories.ts:91-98 | the entry with the folder, and null iff none has it |
| Categories.TableKeysDistinct | src/categories.ts:12-65 | no two entries share a folder or a name |
| Categories.ByFolderIsUnique | src/categories.ts:91-98 | each entry is found by its own folder |
| Config.Overlay | src/config.ts:46 | for each of the ten keys, the user's value when set, else the default |
| Config.LoadConfig | src/config.ts:41-52 | without a readable file the defaults; with one, the file laid over the defaults |
| Config.EmptyFileLoadsDefaults | src/config.ts:23-34 | a file without keys loads as `DEFAULT_CONFIG` |
| Config.SavedConfigLoadsBack | src/config.ts:41-52 | a file with every key loads back as that configuration |
| Config.MergeWithCLI | src/config.ts:92-99 | execute iff `--execute`, or no `--preview` and the config says execute; `silent` and `verbose` take a given flag; every other field is copied |
| Config.MergeIsIdempotent | src/config.ts:92-99 | merging twice with the same flags is merging once |
| Config.MergeWithoutFlags | src/config.ts:92-99 | no flags leave the configuration as it is |

## Left out

- Text extraction (`extractTextWithOCR`, `extractText`: PDF, Word and Pages parsers, OCR through an external process): the extracted text is an input of `CliProcess.Request`.
- The macOS notifications and the `osascript` dialog: the dialog's answer is an input; notifications have no effect on the outcome.
- `main`: argument parsing, console output, summaries and logging; the category lookup inside `generateSmartFilename` only logs, so it is not part of `CliSuggest`.
- NFC normalisation (`normalizeUnicode`): a Unicode library call, taken as the identity.
- The HTTP provider calls, the prompt texts and `JSON.parse`: the reply is an input, and the parser a function parameter that yields a `Json` value or `None` when it throws.
- Reading and writing the ledger and config files (`loadUndoState`, `saveUndoState`, `clearUndoHistory`, `saveConfig`, `configExists`, `getConfigPath`, `resetConfig`): the state is kept in memory. A corrupt file (`JSON.parse` failing) is the same as a missing one: `Undo.EmptyState`, `Config.Default`.
- `validateFilePath`, `secureCleanup` and `validateEnvironment`: they depend on `lstat`, file deletion, the process uid and the environment.
- `src/setup.ts`: an interactive wizard.
- The message texts of `validateFilename`, `processFile` and `validateApiKey`: they are the `NameError`, `ProcessError` and `ApiKeyError` constructors. Only `Undo.Message` keeps the source's wording; the text of an OS error caught by `undoLastBatch` is not modelled.
- String lengths count characters, not UTF-16 code units: a character outside the Basic Multilingual Plane counts as one where JavaScript counts two.
- Upper- and lower-casing (`toUpperCase`, `toLowerCase`, the `i` flag) is ASCII-only. That is exact for the device names, the extensions and the reference labels compared, since no other character folds to their ASCII letters without the `u` flag.
- `Paths.JoinPath` does not normalise `.` and `..` segments the way `path.join` does.
- A '/' in a suggested name is kept by both sanitizers and passes `validateFilename`, so `path.join` can place the target in a subdirectory (a company read from the text as `A/B`, say). `Files.FileSystem` has no directories: such a rename fails in the model only when its paths are in `locked`, while `renameSync` also fails when the subdirectory does not exist.
- `Paths.Basename` and `Paths.Dirname` split at the last '/' as it stands; Node first drops trailing separators (`path.basename("a/b/")` is `b`). The paths the tool passes are file paths, which do not end in '/'.
- `Files.FileSystem` knows paths, not contents, and `renameSync` failures are the paths in `locked`; permissions, devices and races are not modelled.
- AiAnalysis.ConfidenceOf: a confidence that is a string or another non-number is taken to give NaN (`None`), although JavaScript would coerce a numeric string to its number.
- AiAnalysis.AnalysisRequest: the configured token limit is a natural number; a negative `maxTokens`, which `|| 500` would pass through, is not modelled.
- Config.LoadConfig: a user value of the wrong type (a string for `silent`, say) is not modelled; the parsed file has typed, optional keys.
- CliSuggest.BirthDate: the creation date is given as local calendar fields; the time-zone conversion of `getFullYear`, `getMonth` and `getDate` is not modelled.
- CliSuggest.SmartFilename: states the shape of the name (extension, no illegal characters) rather than the exact string; the exact value is given by its definition and by `CliSuggest.GenerateSmartFilename`.
- CliSuggest.Suggestions: the ordering properties are stated by `CliSuggest.FirstSuggestionIsADate` and `CliSuggest.LetterheadDateReplacesCompany`, not in its own contract.

Behaviour of the code worth noting:
- A new batch starts only after a gap of more than 5000 ms (`src/undo.ts:61-64`, the `>5 seconds` comment), so renames at 0, 2000 and 7000 ms form one batch (`Undo.GapOfFiveSecondsJoinsBatch`).
- Pruning after an undo drops the whole last batch, including the operations whose undo failed (`src/undo.ts:138`, `Undo.Pruned`).
- "Rechnung Nr." matches no reference pattern, since the first needs "Rechnungs" (`CliSuggest.InvoiceLabelNeedsS`).
- Neither sanitizer is idempotent (`CliNames.SanitizeIsNotIdempotent`, `AiAnalysis.SanitizedCanEndWithUnderscore`).
- A document with too little text is skipped as a success without renaming (`src/cli.ts:352-355`).
- When the AI date selection fails, it returns null, although its log line says it uses the first date (`src/ai-analysis.ts:418-425`).

## Findings

| source | as written | input that shows it | evidently intended | confidence | as-written member | corrected member |
|---|---|---|---|---|---|---|
| src/security.ts:111-129 | the name is cut to 255 characters, and only afterwards is a `_` put in front of a device-name base | `CONX.` followed by 251 `a` is cut to `CON.` + 251 `a`, whose base is `CON`, and comes out as 256 characters | the sanitized name stays within `MAX_FILENAME_LENGTH` (255) | not executed | Security.SanitizedNameCanExceedLimit | Security.SanitizeFilenameWithinLimit |
