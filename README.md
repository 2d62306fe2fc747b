# textify-navigator: directory-to-text core, modelled in Dafny

textify-navigator turns a folder dropped into the browser into one plain-text
summary. `processDirectoryFiles` (src/services/fileService.ts) walks the dropped
entries depth first and drains each directory reader batch by batch. Every file
that reaches `processFile` is counted and its size added. The file is then
skipped if it is over 20 MiB or not text (as decided by `isTextFile`), or if
reading it fails. Otherwise its text becomes a `FileEntry`.
`generateOutputFile` renders the result as a three-counter header followed by
one fenced block per entry. src/utils/fileUtils.ts supplies the size cap, the
three classification lists, `isTextFile`, `readFileAsText`, `formatFilePath` and
`formatFileSize`.

The model has five modules (plus the `Wrappers` option/result types):

- `Strings` (strings.dfy): the JavaScript string operations the core uses
  (`includes`, `endsWith`, ASCII `toLowerCase`) and the decimal text `${n}`
  of a number. `formatFilePath` is a regular-expression replace, modelled
  directly in `FileUtils`. The prefix test `StartsWith` and the digit reader
  `ParseNat` are not used by the core; they only serve to state properties of
  it.
- `FileUtils` (file_utils.dfy): the constants and pure helpers of
  fileUtils.ts, as functions and predicates with lemmas.
- `FileService` (file_service.dfy): the traversal.
  - The browser's entry handles are a finite tree `Entry`. A directory carries
    the answers its reader gives; a file carries whether its handle resolves
    and what the `FileReader` delivers.
  - The specification functions are:
    - `Reached`: which files reach `processFile`, in order, with their raw paths.
    - `Outcome`: what `processFile` decides for one file.
    - `Advance`: what a sequence of files does to the result.
  - The imperative code keeps its own form. `ProcessingResult` is a class whose
    fields are updated in place. `DirectoryWalk` holds the shared result and
    the error list, and its methods `ProcessFile`, `ProcessEntry` and
    `ProcessEntries` are proved to perform exactly `Advance` over `Reached`.
  - `ReadAllEntries` is the batch-draining loop, proved equal to `DrainListing`.
- `OutputFile` (output_file.dfy): `GenerateOutputFile` is the appending loop of
  `generateOutputFile`, proved equal to `Render`. The header can be parsed back
  to the three counters, and every entry's block sits at a computable offset.
- `Scenarios` (scenarios.dfy): whole runs on small concrete trees.

## Model

| member | source | states |
|---|---|---|
| Strings.Includes | src/utils/fileUtils.ts:69 | `s.includes(sub)`, defined as an occurrence at some index; its use in the scan is characterised by FileUtils.IncludesAnyExactly, and Strings.MissingCharNotIncluded gives a way to refute it |
| Strings.EndsWith | src/utils/fileUtils.ts:75 | `s.endsWith(suffix)`, defined as equality of the tail; its use in the scan is characterised by FileUtils.EndsWithAnyExactly |
| Strings.ToLower | src/utils/fileUtils.ts:74 | `toLowerCase` on ASCII letters, defined character by character; FileUtils.ExtensionBeatsDenyList uses it on "Main.TS" |
| Strings.MissingCharNotIncluded | src/utils/fileUtils.ts:69 | a string cannot include a piece that holds a character the string lacks |
| FileUtils.IsTextFile | src/utils/fileUtils.ts:67-87 | the first matching rule decides, in the source's order (MIME allow-list, extension list, MIME deny-list, default text); characterised in both directions by FileUtils.NotTextExactly |
| FileUtils.IncludesAnyExactly | src/utils/fileUtils.ts:69 | the front-to-back `some(... includes ...)` scan succeeds exactly when some listed fragment occurs in the MIME type (both directions) |
| FileUtils.EndsWithAnyExactly | src/utils/fileUtils.ts:75 | the `some(... endsWith ...)` scan succeeds exactly when some listed suffix ends the name (both directions) |
| FileUtils.NotTextExactly | src/utils/fileUtils.ts:67-87 | a file is refused exactly when the deny-list matches its MIME type and neither the MIME allow-list nor the extension list matches; every other file is text |
| FileUtils.MimeRuleWins | src/utils/fileUtils.ts:69-71 | an allowed MIME type makes a file text whatever its name |
| FileUtils.EmptyMimeIsText | src/utils/fileUtils.ts:80-86 | a file with an empty MIME type is always text, since no excluded fragment occurs in "" |
| FileUtils.NothingInEmptyMime | src/utils/fileUtils.ts:55-62 | no non-empty fragment is found in an empty MIME type |
| FileUtils.ExtensionBeatsDenyList | src/utils/fileUtils.ts:73-82 | "clip.ts" declared as "video/mp2t" matches the deny-list yet is text, because the extension rule runs first; "Main.TS" is text too because the name is lower-cased |
| FileUtils.TypeScriptIsText | src/utils/fileUtils.ts:74-76 | any file whose lower-cased name ends in ".ts" passes the extension rule and is text, whatever MIME type it declares |
| FileUtils.TypeScriptExtension | src/utils/fileUtils.ts:29-50 | a lower-case name ending in ".ts" ends with one of the text extensions |
| FileUtils.TypeScriptIsProgramming | src/utils/fileUtils.ts:31-35 | ".ts" is among the programming extensions |
| FileUtils.EndsWithAnyConcat | src/utils/fileUtils.ts:29-50 | the scan of a concatenated list succeeds exactly when the scan of one of its parts does (both directions) |
| FileUtils.ReadFileAsText | src/utils/fileUtils.ts:92-110 | resolves exactly when the reader loads a non-empty text, and then with that text; an empty load rejects with "Failed to read file"; a read error rejects with a message containing the file's name; every rejection message is non-empty |
| FileUtils.FormatFilePath | src/utils/fileUtils.ts:115-118 | the result is a suffix of the path, everything removed is `/` or `\`, and the result does not start with a separator |
| FileUtils.FormatFilePathSplit | src/utils/fileUtils.ts:115-118 | a run of separators followed by a non-separator rest formats to exactly that rest |
| FileUtils.FormatFilePathIdempotent | src/utils/fileUtils.ts:115-118 | formatting twice equals formatting once |
| FileUtils.FormatFilePathIdentity | src/utils/fileUtils.ts:115-118 | a path not starting with a separator is unchanged, inner separators included |
| FileUtils.FormatFileSize | src/utils/fileUtils.ts:123-125 | below 1024 the text is 1 to 4 decimal digits that read back as the byte count, followed by " B"; the first digit is 0 only for a count of 0, and then it is the only digit, so 0 bytes give exactly "0 B" |
| Strings.NatToString | src/services/fileService.ts:167-169 | the `${n}` text of a count is non-empty and all digits; it starts with 0 only when n is 0, and then it is the single digit "0" |
| Strings.ParseNatToString | src/services/fileService.ts:167-169 | reading back the decimal text of n gives n |
| Strings.NatToStringInjective | src/services/fileService.ts:167-169 | distinct counts print differently |
| Strings.DigitRun | src/services/fileService.ts:167-169 | the reader side of the header round trip: the leading digit run is within bounds, all digits, and stops at a non-digit |
| Strings.DigitRunOfNumber | src/services/fileService.ts:167-169 | the digit run of a count's text followed by a non-digit is exactly that text |
| FileService.DirPath | src/services/fileService.ts:108 | a directory's path is its name at the root and "parent/name" below; characterised by FileService.ReachedWellPlaced and FileService.NestedFileEntryPath |
| FileService.FilePath | src/services/fileService.ts:94 | a file's raw path is "parent/name", so "/name" at the root; characterised by FileService.RootFileEntryPath and FileService.ReachedWellPlaced |
| FileService.Outcome | src/services/fileService.ts:43-83 | what `processFile` decides for one file, by the source's three checks in order; characterised in both directions by FileService.OutcomeDecision |
| FileService.Advance | src/services/fileService.ts:43-83 | the result after processing a sequence of files; characterised by FileService.AdvanceOne, FileService.AdvanceConcat and FileService.AdvanceConsistent |
| FileService.OutcomeDecision | src/services/fileService.ts:41-85 | a file yields an entry iff it is within the cap, is text and reads to a non-empty text. The entry has the stripped path, the text, the size, and the MIME type or "text/plain". An oversized file gets the size-limit error and is never classified or read. A non-text file is skipped with no error. A failed read is skipped with an error record filed under the raw path, with a non-empty message; when the reader failed, that message contains the file name |
| FileService.SizeLimitBoundary | src/utils/fileUtils.ts:8 | MAX_FILE_SIZE is 20971520; a text file of exactly that size is processed, and one byte more is skipped with "File exceeds maximum size limit" |
| FileService.OutcomesAt | src/services/fileService.ts:41-85 | the i-th outcome is the outcome of the i-th visited file |
| FileService.OutcomesConcat | src/services/fileService.ts:41-85 | outcomes are decided file by file, independent of neighbours |
| FileService.AdvanceOne | src/services/fileService.ts:43-83 | one file raises totalFiles by 1 and totalSize by its size, and raises exactly one of processedFiles (appending its entry) or skippedFiles; the error list grows only by that file's error record |
| FileService.SingleOutcome | src/services/fileService.ts:48-73 | one outcome adds its entry and one to processedFiles when processed; one to skippedFiles, and its error record if it has one, when skipped |
| FileService.OversizedStep | src/services/fileService.ts:43-55 | an oversized file is counted, its size added, and it is skipped with the size error and nothing else changes |
| FileService.NotTextStep | src/services/fileService.ts:43-62 | a non-text file within the cap is counted, its size added, and it is skipped with no error record |
| FileService.ReadStep | src/services/fileService.ts:43-75 | a successful read appends one entry (stripped path, text, size, type or "text/plain") and raises processedFiles; no error is recorded |
| FileService.ReadFailedStep | src/services/fileService.ts:43-83 | a failed read is skipped and records its message, or "Unknown error" when the message is empty |
| FileService.AdvanceNothing | src/services/fileService.ts:101-104 | processing no files changes neither the result nor the error list |
| FileService.SummariesConcat | src/services/fileService.ts:41-85 | entries, counts and errors of a concatenation are those of the parts, in order |
| FileService.EntriesConcat | src/services/fileService.ts:67-72 | entries are appended in processing order |
| FileService.ErrorsConcat | src/services/fileService.ts:49-52 | error records are appended in processing order |
| FileService.CountsConcat | src/services/fileService.ts:48-73 | processed and skipped counts add up across consecutive runs |
| FileService.SizeSumConcat | src/services/fileService.ts:44 | size totals add up across consecutive runs |
| FileService.AdvanceConcat | src/services/fileService.ts:152-154 | processing a then b is processing a + b, for the result and for the error list |
| FileService.CountsConserved | src/services/fileService.ts:43-83 | processed + skipped equals the number of files; there is one entry per processed file; there are no more error records than skipped files |
| FileService.AdvanceConsistent | src/services/fileService.ts:30-85 | processing keeps totalFiles == processedFiles + skippedFiles and |entries| == processedFiles |
| FileService.EntryPositions | src/services/fileService.ts:67-72 | every entry stands at the position of a processed outcome |
| FileService.EntriesOrigin | src/services/fileService.ts:58-73 | every entry was made from a visited file within the cap, classified as text, whose reader loaded exactly the entry's (non-empty) content, with stripped path, same size and non-empty type |
| FileService.DrainListing | src/services/fileService.ts:111-129 | the children a reader's answers deliver: all non-empty batches in order up to the first empty one, or nothing after an error; characterised by FileService.DrainListingStops and FileService.DrainedChildrenDelivered, and implemented by FileService.ReadAllEntries |
| FileService.DrainedChildrenDelivered | src/services/fileService.ts:116-124 | every drained child arrived in one of the reader's batches |
| FileService.DrainListingStops | src/services/fileService.ts:117-124 | after non-empty batches, an empty batch yields all entries received so far in order, and an error yields no listing |
| FileService.ReadAllEntries | src/services/fileService.ts:111-129 | the batch-draining loop returns exactly DrainListing of the reader's answers |
| FileService.DrainBatch | src/services/fileService.ts:118-120 | collecting a non-empty batch moves its entries from the remainder to the collected ones |
| FileService.DrainEnd | src/services/fileService.ts:121-124 | an empty batch resolves with the collected entries; an error rejects |
| FileService.Reached | src/services/fileService.ts:88-149 | the files that reach `processFile` under one entry, depth first, with their raw paths; characterised by FileService.ReachedWellPlaced and FileService.FailuresContributeNothing, and performed by FileService.DirectoryWalk.ProcessEntry |
| FileService.ReachedListing | src/services/fileService.ts:111-143 | the files reached under a directory's reader answers; characterised by FileService.ReachedListingDrained |
| FileService.ReachedAll | src/services/fileService.ts:135-137 | the files reached under a sequence of siblings, in order; characterised by FileService.ReachedAllConcat and FileService.ChildDone |
| FileService.ReachedAllConcat | src/services/fileService.ts:135-137 | siblings are walked in order: the files under xs + ys are those under xs, then those under ys |
| FileService.ReachedListingDrained | src/services/fileService.ts:132-139 | walking a listing batch by batch is walking its drained child list |
| FileService.ChildDone | src/services/fileService.ts:135-137 | after child i, the result is the result for the first i + 1 children |
| FileService.FailuresContributeNothing | src/services/fileService.ts:101-104 | a failed file handle, a failed listing (lines 140-143) or an entry that is neither file nor directory (lines 144-146) adds no file |
| FileService.SiblingsUnaffected | src/services/fileService.ts:140-143 | a sibling that contributes nothing leaves what its neighbours contribute unchanged |
| FileService.ReachedWellPlaced | src/services/fileService.ts:94 | every reached file's raw path ends with "/" and its name, and below a non-root path starts with that path and "/" (directory paths built at line 108) |
| FileService.RootFileEntryPath | src/services/fileService.ts:94 | a root file's raw path is "/name" and its entry path is the bare name |
| FileService.NestedFileEntryPath | src/services/fileService.ts:108 | a file inside a root directory gets the entry path "dir/name" |
| FileService.ProcessingResult.constructor | src/services/fileService.ts:30-36 | a new result has no entries and all four counters at 0 |
| FileService.ProcessingResult.Snapshot | src/services/fileService.ts:11-17 | the five fields of the result as one value, the form in which the methods' contracts state the new state |
| FileService.DirectoryWalk.constructor | src/services/fileService.ts:30-38 | a fresh all-zero result and an empty error list |
| FileService.DirectoryWalk.ProcessFile | src/services/fileService.ts:41-85 | the result's new value is Advance of the old value by this one file, and the error list grows by exactly its error record |
| FileService.DirectoryWalk.ProcessEntry | src/services/fileService.ts:88-149 | the result becomes Advance of the old value by the files reached under the entry, depth first, and the error list grows by their records |
| FileService.DirectoryWalk.ProcessEntries | src/services/fileService.ts:152-154 | the top-level entries are walked in order: the result is advanced by all files reached under them |
| FileService.ProcessDirectoryFiles | src/services/fileService.ts:27-160 | a fresh result equal to Advance from all-zero counters over the files reached under the items, in order |
| FileService.RunConsistent | src/services/fileService.ts:27-160 | after a whole run, from any starting path, totalFiles == processedFiles + skippedFiles, |entries| == processedFiles, and totalSize is the sum over every reached file, skipped ones included (this last clause holds by the definition of Advance; DirectoryWalk.ProcessFile proves that the in-place updates add every file's size) |
| OutputFile.Header | src/services/fileService.ts:166-169 | the title line and the three counter lines; characterised by OutputFile.HeaderRoundTrip and Scenarios.ZeroHeader |
| OutputFile.Block | src/services/fileService.ts:172-177 | one entry's block: path, size and type lines, then the fenced content; characterised by OutputFile.BlockShowsEntry |
| OutputFile.Render | src/services/fileService.ts:165-181 | the header followed by every entry's block in order; characterised by OutputFile.RenderCountsReadBack and OutputFile.BlockAt, and computed by OutputFile.GenerateOutputFile |
| OutputFile.GenerateOutputFile | src/services/fileService.ts:165-181 | the text is the header followed by the blocks of the entries in order (Render) |
| OutputFile.AppendEntry | src/services/fileService.ts:171-178 | one loop turn appends exactly the entry's block |
| OutputFile.BlocksSnoc | src/services/fileService.ts:171-178 | the blocks of one more entry are the previous blocks followed by its block |
| OutputFile.BlocksConcat | src/services/fileService.ts:171-178 | the blocks of a + b are the blocks of a followed by those of b |
| OutputFile.ConcatAppend | src/services/fileService.ts:171-178 | joining p + q is joining p followed by joining q |
| OutputFile.CountLineRoundTrip | src/services/fileService.ts:167-169 | a "Caption: n" line reads back as n, leaving exactly what followed it |
| OutputFile.HeaderRoundTrip | src/services/fileService.ts:166-169 | the header, whatever follows it, parses back to the three counters it was written from |
| OutputFile.RenderCountsReadBack | src/services/fileService.ts:165-169 | the counters of a result can be read back from the start of its summary text |
| OutputFile.RenderWithoutEntries | src/services/fileService.ts:165-170 | a result without entries renders as the header alone, with the header's length |
| OutputFile.BlockAt | src/services/fileService.ts:171-178 | entry k's block occurs right after the header and the blocks of entries 0..k-1 |
| OutputFile.BlockShowsEntry | src/services/fileService.ts:172-177 | a block opens with the "# FILE: path" line and ends with exactly the entry's content between fences |
| Scenarios.SrcFolderVisits | src/services/fileService.ts:88-149 | a folder "src" with a.ts and logo.png in one batch, then an empty batch: both files reach processFile in listing order, as "src/a.ts" and "src/logo.png" |
| Scenarios.SrcFolderResult | src/services/fileService.ts:27-160 | for that folder, a.ts (1 byte, "text/typescript") and logo.png (500 bytes, "image/png"): 2 files, 1 processed, 1 skipped, 501 bytes, the single entry ("src/a.ts", "x", 1, "text/typescript"), and no error record, whatever the image's reader would deliver |
| Scenarios.SrcFilesResult | src/services/fileService.ts:41-83 | folding those two visits from the all-zero result gives that summary and no error record |
| Scenarios.TypeScriptFileIsText | src/utils/fileUtils.ts:74-76 | "a.ts" passes the extension rule and is text |
| Scenarios.LogoIsNotText | src/utils/fileUtils.ts:67-87 | "logo.png" typed "image/png" matches the deny-list and neither allow rule, so it is not text |
| Scenarios.PngMimeDenied | src/utils/fileUtils.ts:55-62 | "image/png" contains the refused fragment "image/" |
| Scenarios.AllowedTypesHoldT | src/utils/fileUtils.ts:13-24 | every allowed MIME fragment contains a 't' |
| Scenarios.PngMimeNotAllowed | src/utils/fileUtils.ts:13-24 | "image/png" contains none of the allowed MIME fragments |
| Scenarios.LogoNotProgramming | src/utils/fileUtils.ts:31-35 | "logo.png" ends with none of the programming extensions |
| Scenarios.LogoNotConfigOrDocument | src/utils/fileUtils.ts:37-42 | "logo.png" ends with none of the configuration or document extensions |
| Scenarios.LogoNotAdditional | src/utils/fileUtils.ts:44-50 | "logo.png" ends with none of the additional extensions |
| Scenarios.NoListedSuffix | src/utils/fileUtils.ts:75 | a name ending with no listed suffix fails the scan |
| Scenarios.ZeroHeader | src/services/fileService.ts:166-169 | the header of an empty result, character for character |
| Scenarios.NothingDropped | src/services/fileService.ts:152-160 | dropping nothing gives the all-zero result, rendered as the zero header alone |

## Left out

- The user interface, `downloadTextFile` and the timestamped download file name: they are presentation and browser I/O.
- Promises, `async`/`await` and callbacks. The walk is sequential in the source (each child is awaited), so it is modelled as plain sequential calls. The console logging is left out.
- The browser objects are given as data. A `File` is its name, size and MIME type. A directory reader is the finite sequence of its answers. A `FileReader` is a load-or-error event. `File.name` and the entry's name are taken to be the same string.
- Running out of reader answers is treated as the end of the listing. A real reader always ends with an empty batch or an error.
- The `errors` list is a ghost field, because nothing reads it; console output is left out.
- `processFile`'s outer `.catch` (line 97) is left out: `processFile` never rejects.
- FormatFileSize: only the bytes branch (below 1024) is modelled. The KB and MB branches use floating-point division and `toFixed(1)`.
- Strings.ToLower: only ASCII letters are lower-cased. JavaScript's full Unicode case mapping is not modelled.
- Sizes and counters are unbounded naturals. JavaScript numbers are doubles, and the model does not capture their loss of precision above 2^53.
- `FileEntry.type` is called `mimeType`, because `type` is a keyword in Dafny.
