/**
 * The traversal of src/services/fileService.ts: `processDirectoryFiles`
 * with its inner `processFile`, `processEntry` and `readAllEntries`.
 *
 * The browser's entry handles are modelled as a finite tree (`Entry`). A
 * directory carries the successive answers its reader gives to
 * `readEntries`; a file carries whether `fileEntry.file` succeeds and what
 * the `FileReader` delivers. The specification is `Reached`: the files that
 * reach `processFile`, in the order they reach it, each with its raw path;
 * `Advance` says what processing them does to the result's counters and
 * entries. The methods of `DirectoryWalk` update a `ProcessingResult` in
 * place and are proved to perform exactly `Advance` over `Reached`.
 */
module FileService {
  import opened Wrappers
  import opened Strings
  import opened FileUtils

  /** One text file of the result. */
  datatype FileEntry = FileEntry(path: string, content: string, size: nat, mimeType: string)

  /** A diagnostic record: the raw path of a skipped file and why it was skipped. */
  datatype ProcessingError = ProcessingError(file: string, error: string)

  /** A file-system entry handle as the host hands it over. */
  datatype Entry =
    | FileNode(file: FileInfo, handleOk: bool, read: ReadEvent)
    | DirNode(name: string, listing: seq<Response>)
    | OtherNode(name: string)

  /** One answer of a directory reader's `readEntries`: a batch of entries, or the error callback. */
  datatype Response = Batch(items: seq<Entry>) | ListingFailed

  /** A file that reaches `processFile`, with the path the traversal built for it. */
  datatype Visit = Visit(file: FileInfo, read: ReadEvent, path: string)

  /** The value of a `ProcessingResult`. */
  datatype Summary = Summary(
    entries: seq<FileEntry>,
    totalFiles: nat,
    processedFiles: nat,
    skippedFiles: nat,
    totalSize: nat)

  const EMPTY: Summary := Summary([], 0, 0, 0, 0)

  const SIZE_LIMIT_MESSAGE: string := "File exceeds maximum size limit"

  /** The path of a directory: its own name at the root, otherwise appended to its parent's. */
  function DirPath(parent: string, name: string): string {
    if parent == "" then name else parent + "/" + name
  }

  /** The raw path of a file: always appended to its parent's, with a slash. */
  function FilePath(parent: string, name: string): string {
    parent + "/" + name
  }

  // ---------------------------------------------------------------------
  // One file: `processFile`
  // ---------------------------------------------------------------------

  /** What `processFile` makes of one file: an entry, or a skip with an optional error record. */
  datatype FileOutcome = Processed(entry: FileEntry) | Skipped(error: Option<ProcessingError>)

  /** The decision of `processFile` on one visited file; `OutcomeDecision` states what it means. */
  function Outcome(v: Visit): FileOutcome {
    if v.file.size > MAX_FILE_SIZE then
      Skipped(Some(ProcessingError(v.path, SIZE_LIMIT_MESSAGE)))
    else if !IsTextFile(v.file) then
      Skipped(None)
    else
      match ReadFileAsText(v.file, v.read)
      case Success(content) =>
        Processed(FileEntry(FormatFilePath(v.path), content, v.file.size,
                            if v.file.mime != "" then v.file.mime else "text/plain"))
      case Failure(message) =>
        Skipped(Some(ProcessingError(v.path, if message != "" then message else "Unknown error")))
  }

  /**
   * A file yields an entry exactly when it is within the size cap,
   * classified as text and read to a non-empty text; the entry carries the
   * stripped path, the text, the size and the MIME type or "text/plain". An
   * oversized file is skipped with the size error and never classified or
   * read; a non-text file is skipped with no error; a failed read is skipped
   * with a non-empty message, which names the file when the reader failed.
   */
  lemma OutcomeDecision(v: Visit)
    ensures var o := Outcome(v);
      o.Processed? <==> v.file.size <= MAX_FILE_SIZE && IsTextFile(v.file) && v.read.Loaded? && v.read.text != ""
    ensures var o := Outcome(v);
      o.Processed? ==>
        o.entry.path == FormatFilePath(v.path) && o.entry.content == v.read.text &&
        o.entry.size == v.file.size &&
        o.entry.mimeType == (if v.file.mime == "" then "text/plain" else v.file.mime)
    ensures v.file.size > MAX_FILE_SIZE ==>
      Outcome(v) == Skipped(Some(ProcessingError(v.path, SIZE_LIMIT_MESSAGE)))
    ensures v.file.size <= MAX_FILE_SIZE && !IsTextFile(v.file) ==> Outcome(v) == Skipped(None)
    ensures var o := Outcome(v);
      v.file.size <= MAX_FILE_SIZE && IsTextFile(v.file) && !(v.read.Loaded? && v.read.text != "") ==>
        o.Skipped? && o.error.Some? && o.error.value.file == v.path && o.error.value.error != ""
    ensures var o := Outcome(v);
      v.file.size <= MAX_FILE_SIZE && IsTextFile(v.file) && v.read.ReadErrored? ==>
        o.Skipped? && o.error.Some? && Includes(o.error.value.error, v.file.name)
  {
    if v.file.size <= MAX_FILE_SIZE && IsTextFile(v.file) {
      var r := ReadFileAsText(v.file, v.read);
      assert r.Success? <==> v.read.Loaded? && v.read.text != "";
    }
  }

  /**
   * The cap is inclusive: of two otherwise equal text files, the one of
   * exactly 20 MiB is read and kept and the one a byte larger is skipped
   * with the size error.
   */
  lemma SizeLimitBoundary(name: string, mime: string, read: ReadEvent, path: string)
    requires IsTextFile(FileInfo(name, MAX_FILE_SIZE, mime)) && read.Loaded? && read.text != ""
    ensures MAX_FILE_SIZE == 20971520
    ensures Outcome(Visit(FileInfo(name, MAX_FILE_SIZE, mime), read, path)).Processed?
    ensures Outcome(Visit(FileInfo(name, MAX_FILE_SIZE + 1, mime), read, path))
         == Skipped(Some(ProcessingError(path, SIZE_LIMIT_MESSAGE)))
  {
    OutcomeDecision(Visit(FileInfo(name, MAX_FILE_SIZE, mime), read, path));
  }

  // ---------------------------------------------------------------------
  // Many files: what processing a sequence of visits adds to the result
  // ---------------------------------------------------------------------

  /** The outcome of each visited file, in order. */
  function Outcomes(vs: seq<Visit>): (os: seq<FileOutcome>)
    ensures |os| == |vs|
  {
    if vs == [] then [] else [Outcome(vs[0])] + Outcomes(vs[1..])
  }

  /** The outcome at position `i` is the outcome of the `i`-th visit. */
  lemma {:induction false} OutcomesAt(vs: seq<Visit>, i: nat)
    requires i < |vs|
    ensures Outcomes(vs)[i] == Outcome(vs[i])
  {
    if i > 0 {
      OutcomesAt(vs[1..], i - 1);
    }
  }

  /** Outcomes are taken file by file: those of `a + b` are those of `a`, then those of `b`. */
  lemma {:induction false} OutcomesConcat(a: seq<Visit>, b: seq<Visit>)
    ensures Outcomes(a + b) == Outcomes(a) + Outcomes(b)
  {
    if a == [] {
      assert a + b == b;
    } else {
      assert (a + b)[0] == a[0] && (a + b)[1..] == a[1..] + b;
      OutcomesConcat(a[1..], b);
      SeqAssoc([Outcome(a[0])], Outcomes(a[1..]), Outcomes(b));
    }
  }

  function EntriesOf(os: seq<FileOutcome>): seq<FileEntry> {
    if os == [] then []
    else (match os[0] case Processed(e) => [e] case Skipped(_) => []) + EntriesOf(os[1..])
  }

  function ProcessedCount(os: seq<FileOutcome>): nat {
    if os == [] then 0 else (if os[0].Processed? then 1 else 0) + ProcessedCount(os[1..])
  }

  function SkippedCount(os: seq<FileOutcome>): nat {
    if os == [] then 0 else (if os[0].Skipped? then 1 else 0) + SkippedCount(os[1..])
  }

  function ErrorsOf(os: seq<FileOutcome>): seq<ProcessingError> {
    if os == [] then []
    else (match os[0] case Skipped(Some(err)) => [err] case _ => []) + ErrorsOf(os[1..])
  }

  /** Sizes of all visited files, processed and skipped alike. */
  function SizeSum(vs: seq<Visit>): nat {
    if vs == [] then 0 else vs[0].file.size + SizeSum(vs[1..])
  }

  /** The result after processing `vs`, one after another, starting from `s`. */
  function Advance(s: Summary, vs: seq<Visit>): Summary {
    var os := Outcomes(vs);
    Summary(
      s.entries + EntriesOf(os),
      s.totalFiles + |vs|,
      s.processedFiles + ProcessedCount(os),
      s.skippedFiles + SkippedCount(os),
      s.totalSize + SizeSum(vs))
  }

  /** The error records written while processing `vs`. */
  function ErrorsFor(vs: seq<Visit>): seq<ProcessingError> {
    ErrorsOf(Outcomes(vs))
  }

  /** Every file counted is either processed or skipped, and each processed file has one entry. */
  predicate Consistent(s: Summary) {
    s.totalFiles == s.processedFiles + s.skippedFiles && |s.entries| == s.processedFiles
  }

  /** Processing a single file moves every counter by that file's outcome alone. */
  lemma AdvanceOne(s: Summary, v: Visit)
    ensures var o := Outcome(v);
      Advance(s, [v]) == Summary(
        s.entries + (if o.Processed? then [o.entry] else []),
        s.totalFiles + 1,
        s.processedFiles + (if o.Processed? then 1 else 0),
        s.skippedFiles + (if o.Skipped? then 1 else 0),
        s.totalSize + v.file.size)
    ensures var o := Outcome(v);
      ErrorsFor([v]) == (if o.Skipped? && o.error.Some? then [o.error.value] else [])
  {
    var o := Outcome(v);
    assert [v][1..] == [];
    assert Outcomes([v]) == [o] + Outcomes([]);
    assert SizeSum([v]) == v.file.size + SizeSum([]);
    SingleOutcome(o);
  }

  /** What a single outcome contributes to the entries, the counters and the error list. */
  lemma SingleOutcome(o: FileOutcome)
    ensures EntriesOf([o]) == if o.Processed? then [o.entry] else []
    ensures ProcessedCount([o]) == (if o.Processed? then 1 else 0)
    ensures SkippedCount([o]) == (if o.Skipped? then 1 else 0)
    ensures ErrorsOf([o]) == if o.Skipped? && o.error.Some? then [o.error.value] else []
  {
    assert [o][1..] == [];
    assert EntriesOf([o]) == (if o.Processed? then [o.entry] else []) + EntriesOf([]);
    assert ErrorsOf([o]) == (if o.Skipped? && o.error.Some? then [o.error.value] else []) + ErrorsOf([]);
  }

  /** An oversized file is counted, its size added, and it is skipped with the size error. */
  lemma OversizedStep(s: Summary, v: Visit)
    requires v.file.size > MAX_FILE_SIZE
    ensures Advance(s, [v]) == s.(totalFiles := s.totalFiles + 1, skippedFiles := s.skippedFiles + 1,
                                  totalSize := s.totalSize + v.file.size)
    ensures ErrorsFor([v]) == [ProcessingError(v.path, SIZE_LIMIT_MESSAGE)]
  {
    AdvanceOne(s, v);
  }

  /** A file within the cap that is not text is counted and skipped, with no error record. */
  lemma NotTextStep(s: Summary, v: Visit)
    requires v.file.size <= MAX_FILE_SIZE && !IsTextFile(v.file)
    ensures Advance(s, [v]) == s.(totalFiles := s.totalFiles + 1, skippedFiles := s.skippedFiles + 1,
                                  totalSize := s.totalSize + v.file.size)
    ensures ErrorsFor([v]) == []
  {
    AdvanceOne(s, v);
  }

  /** A text file within the cap whose read succeeds adds one entry carrying what was read. */
  lemma ReadStep(s: Summary, v: Visit, text: string)
    requires v.file.size <= MAX_FILE_SIZE && IsTextFile(v.file)
    requires ReadFileAsText(v.file, v.read) == Success(text)
    ensures Advance(s, [v]) == s.(
      entries := s.entries + [FileEntry(FormatFilePath(v.path), text, v.file.size,
                                        if v.file.mime != "" then v.file.mime else "text/plain")],
      totalFiles := s.totalFiles + 1, processedFiles := s.processedFiles + 1,
      totalSize := s.totalSize + v.file.size)
    ensures ErrorsFor([v]) == []
  {
    AdvanceOne(s, v);
  }

  /** A text file within the cap whose read fails is skipped and its message recorded. */
  lemma ReadFailedStep(s: Summary, v: Visit, message: string)
    requires v.file.size <= MAX_FILE_SIZE && IsTextFile(v.file)
    requires ReadFileAsText(v.file, v.read) == Failure(message)
    ensures Advance(s, [v]) == s.(totalFiles := s.totalFiles + 1, skippedFiles := s.skippedFiles + 1,
                                  totalSize := s.totalSize + v.file.size)
    ensures ErrorsFor([v]) == [ProcessingError(v.path, if message != "" then message else "Unknown error")]
  {
    AdvanceOne(s, v);
  }

  lemma AdvanceNothing(s: Summary)
    ensures Advance(s, []) == s && ErrorsFor([]) == []
  {
    assert Outcomes([]) == [];
  }

  /** Every summary of `a + b` is the summary of `a` followed by, or added to, that of `b`. */
  lemma SummariesConcat(a: seq<FileOutcome>, b: seq<FileOutcome>)
    ensures EntriesOf(a + b) == EntriesOf(a) + EntriesOf(b)
    ensures ProcessedCount(a + b) == ProcessedCount(a) + ProcessedCount(b)
    ensures SkippedCount(a + b) == SkippedCount(a) + SkippedCount(b)
    ensures ErrorsOf(a + b) == ErrorsOf(a) + ErrorsOf(b)
  {
    EntriesConcat(a, b);
    ErrorsConcat(a, b);
    CountsConcat(a, b);
  }

  lemma {:induction false} EntriesConcat(a: seq<FileOutcome>, b: seq<FileOutcome>)
    ensures EntriesOf(a + b) == EntriesOf(a) + EntriesOf(b)
    decreases |a|
  {
    if a == [] {
      assert a + b == b;
    } else {
      assert (a + b)[0] == a[0] && (a + b)[1..] == a[1..] + b;
      EntriesConcat(a[1..], b);
      var head := match a[0] case Processed(e) => [e] case Skipped(_) => [];
      SeqAssoc(head, EntriesOf(a[1..]), EntriesOf(b));
    }
  }

  lemma {:induction false} ErrorsConcat(a: seq<FileOutcome>, b: seq<FileOutcome>)
    ensures ErrorsOf(a + b) == ErrorsOf(a) + ErrorsOf(b)
    decreases |a|
  {
    if a == [] {
      assert a + b == b;
    } else {
      assert (a + b)[0] == a[0] && (a + b)[1..] == a[1..] + b;
      ErrorsConcat(a[1..], b);
      var head := match a[0] case Skipped(Some(err)) => [err] case _ => [];
      SeqAssoc(head, ErrorsOf(a[1..]), ErrorsOf(b));
    }
  }

  lemma {:induction false} CountsConcat(a: seq<FileOutcome>, b: seq<FileOutcome>)
    ensures ProcessedCount(a + b) == ProcessedCount(a) + ProcessedCount(b)
    ensures SkippedCount(a + b) == SkippedCount(a) + SkippedCount(b)
    decreases |a|
  {
    if a == [] {
      assert a + b == b;
    } else {
      assert (a + b)[0] == a[0] && (a + b)[1..] == a[1..] + b;
      CountsConcat(a[1..], b);
    }
  }

  lemma SeqAssoc<T>(x: seq<T>, y: seq<T>, z: seq<T>)
    ensures (x + y) + z == x + (y + z)
  {
  }

  lemma {:induction false} SizeSumConcat(a: seq<Visit>, b: seq<Visit>)
    ensures SizeSum(a + b) == SizeSum(a) + SizeSum(b)
    decreases |a|
  {
    if a == [] {
      assert a + b == b;
    } else {
      assert (a + b)[0] == a[0] && (a + b)[1..] == a[1..] + b;
      SizeSumConcat(a[1..], b);
    }
  }

  /** Processing `a` and then `b` is processing `a + b`, for the result and the error list. */
  lemma AdvanceConcat(s: Summary, a: seq<Visit>, b: seq<Visit>)
    ensures Advance(Advance(s, a), b) == Advance(s, a + b)
    ensures ErrorsFor(a + b) == ErrorsFor(a) + ErrorsFor(b)
  {
    var oa, ob := Outcomes(a), Outcomes(b);
    OutcomesConcat(a, b);
    SummariesConcat(oa, ob);
    SizeSumConcat(a, b);
    var l, r := Advance(Advance(s, a), b), Advance(s, a + b);
    assert l.entries == r.entries;
    assert l.processedFiles == r.processedFiles;
    assert l.skippedFiles == r.skippedFiles;
    assert l.totalSize == r.totalSize;
  }

  /** Counter conservation: each visited file is counted once as processed or skipped. */
  lemma {:induction false} CountsConserved(os: seq<FileOutcome>)
    ensures ProcessedCount(os) + SkippedCount(os) == |os|
    ensures |EntriesOf(os)| == ProcessedCount(os)
    ensures |ErrorsOf(os)| <= SkippedCount(os)
  {
    if os != [] {
      CountsConserved(os[1..]);
    }
  }

  /** Processing any files keeps a consistent result consistent. */
  lemma AdvanceConsistent(s: Summary, vs: seq<Visit>)
    requires Consistent(s)
    ensures Consistent(Advance(s, vs))
  {
    CountsConserved(Outcomes(vs));
  }

  /** `e` is the entry made from `v`: a file within the cap, classified as text, read to `e.content`. */
  predicate MadeFrom(e: FileEntry, v: Visit) {
    v.file.size <= MAX_FILE_SIZE && IsTextFile(v.file) && v.read == Loaded(e.content) &&
    e.content != "" && e.path == FormatFilePath(v.path) && e.size == v.file.size &&
    e.mimeType != ""
  }

  /** Each entry stands at the position of a processed outcome. */
  lemma {:induction false} EntryPositions(os: seq<FileOutcome>)
    ensures forall e :: e in EntriesOf(os) ==> exists i :: 0 <= i < |os| && os[i] == Processed(e)
  {
    if os != [] {
      EntryPositions(os[1..]);
      forall e | e in EntriesOf(os) ensures exists i :: 0 <= i < |os| && os[i] == Processed(e) {
        if e in EntriesOf(os[1..]) {
          var i :| 0 <= i < |os[1..]| && os[1..][i] == Processed(e);
          assert os[i + 1] == os[1..][i];
        } else {
          assert os[0] == Processed(e);
        }
      }
    }
  }

  /** Every entry comes from a visited file that passed the size cap, the classifier and the read. */
  lemma EntriesOrigin(vs: seq<Visit>)
    ensures forall e :: e in EntriesOf(Outcomes(vs)) ==> exists v :: v in vs && MadeFrom(e, v)
  {
    EntryPositions(Outcomes(vs));
    forall e | e in EntriesOf(Outcomes(vs)) ensures exists v :: v in vs && MadeFrom(e, v) {
      var i :| 0 <= i < |vs| && Outcomes(vs)[i] == Processed(e);
      OutcomesAt(vs, i);
      OutcomeDecision(vs[i]);
      assert vs[i] in vs && MadeFrom(e, vs[i]);
    }
  }

  // ---------------------------------------------------------------------
  // Directory listings: `readAllEntries`
  // ---------------------------------------------------------------------

  /**
   * Draining a reader: batches are concatenated in the order received until
   * the first empty batch; an error before that loses the whole listing.
   * Running out of answers is read as the end of the listing.
   */
  function DrainListing(rs: seq<Response>): Option<seq<Entry>> {
    if rs == [] then Some([])
    else match rs[0]
      case ListingFailed => None
      case Batch(items) =>
        if items == [] then Some([])
        else match DrainListing(rs[1..])
          case None => None
          case Some(rest) => Some(items + rest)
  }

  /** Every drained child was delivered in one of the listing's batches. */
  lemma {:induction false} DrainedChildrenDelivered(rs: seq<Response>)
    requires DrainListing(rs).Some?
    ensures forall c :: c in DrainListing(rs).value ==>
      exists k :: 0 <= k < |rs| && rs[k].Batch? && c in rs[k].items
  {
    if rs != [] && rs[0].Batch? && rs[0].items != [] {
      DrainedChildrenDelivered(rs[1..]);
      forall c | c in DrainListing(rs).value
        ensures exists k :: 0 <= k < |rs| && rs[k].Batch? && c in rs[k].items
      {
        if c !in rs[0].items {
          var k :| 0 <= k < |rs[1..]| && rs[1..][k].Batch? && c in rs[1..][k].items;
          assert rs[k + 1] == rs[1..][k];
        }
      }
    }
  }

  /** The entries of all the batches among `rs`, in order. */
  function BatchItems(rs: seq<Response>): seq<Entry> {
    if rs == [] then []
    else (match rs[0] case Batch(items) => items case ListingFailed => []) + BatchItems(rs[1..])
  }

  /**
   * The listing is decided by the first answer that is not a non-empty
   * batch: an empty batch yields every entry received before it, an error
   * yields nothing.
   */
  lemma {:induction false} DrainListingStops(rs: seq<Response>, k: nat)
    requires k < |rs|
    requires forall j :: 0 <= j < k ==> rs[j].Batch? && rs[j].items != []
    ensures rs[k] == Batch([]) ==> DrainListing(rs) == Some(BatchItems(rs[..k]))
    ensures rs[k] == ListingFailed ==> DrainListing(rs) == None
    decreases k
  {
    if k > 0 {
      DrainListingStops(rs[1..], k - 1);
      assert rs[..k][1..] == rs[1..][..k - 1];
    }
  }

  /** The entries already collected, put in front of a listing's remainder. */
  function Prepend(entries: seq<Entry>, rest: Option<seq<Entry>>): Option<seq<Entry>> {
    match rest
    case None => None
    case Some(more) => Some(entries + more)
  }

  /** `readAllEntries`: request batches until an empty one arrives, collecting them in order. */
  method ReadAllEntries(listing: seq<Response>) returns (r: Option<seq<Entry>>)
    ensures r == DrainListing(listing)
  {
    var entries: seq<Entry> := [];
    var i := 0;
    DrainStart(listing);
    while i < |listing| && listing[i].Batch? && listing[i].items != []
      invariant 0 <= i <= |listing|
      invariant DrainListing(listing) == Prepend(entries, DrainListing(listing[i..]))
    {
      DrainBatch(listing, i, entries);
      entries := entries + listing[i].items;
      i := i + 1;
    }
    DrainEnd(listing, i, entries);
    if i < |listing| && listing[i].ListingFailed? {
      return None;
    }
    return Some(entries);
  }

  /** Before the first request, nothing has been collected. */
  lemma DrainStart(listing: seq<Response>)
    ensures DrainListing(listing) == Prepend([], DrainListing(listing[0..]))
  {
    assert listing[0..] == listing;
    if DrainListing(listing).Some? {
      assert [] + DrainListing(listing).value == DrainListing(listing).value;
    }
  }

  /** Collecting a non-empty batch moves its entries from the remainder to the collected ones. */
  lemma DrainBatch(listing: seq<Response>, i: nat, entries: seq<Entry>)
    requires i < |listing| && listing[i].Batch? && listing[i].items != []
    ensures Prepend(entries, DrainListing(listing[i..]))
         == Prepend(entries + listing[i].items, DrainListing(listing[i + 1..]))
  {
    var rest := listing[i..];
    assert rest[0] == listing[i] && rest[1..] == listing[i + 1..];
    if DrainListing(listing[i + 1..]).Some? {
      var more := DrainListing(listing[i + 1..]).value;
      SeqAssoc(entries, listing[i].items, more);
    }
  }

  /** When the loop stops, the remainder is an error (nothing) or an end of listing (no more entries). */
  lemma DrainEnd(listing: seq<Response>, i: nat, entries: seq<Entry>)
    requires i <= |listing|
    requires !(i < |listing| && listing[i].Batch? && listing[i].items != [])
    ensures Prepend(entries, DrainListing(listing[i..]))
         == if i < |listing| && listing[i].ListingFailed? then None else Some(entries)
  {
    if i < |listing| {
      assert listing[i..][0] == listing[i];
    }
    assert entries + [] == entries;
  }

  // ---------------------------------------------------------------------
  // The tree: which files reach `processFile`, in which order
  // ---------------------------------------------------------------------

  /**
   * The files of `e` that reach `processFile`, depth first. A file whose
   * handle fails, a directory whose listing fails and an entry that is
   * neither file nor directory contribute nothing.
   */
  function Reached(e: Entry, path: string): seq<Visit>
    decreases e
  {
    match e
    case FileNode(file, handleOk, read) =>
      if handleOk then [Visit(file, read, FilePath(path, file.name))] else []
    case DirNode(name, listing) =>
      if DrainListing(listing).None? then [] else ReachedListing(listing, DirPath(path, name))
    case OtherNode(_) => []
  }

  /** The files under the batches of a listing, up to its first empty batch or error. */
  function ReachedListing(rs: seq<Response>, path: string): seq<Visit>
    decreases rs
  {
    if rs == [] then []
    else match rs[0]
      case ListingFailed => []
      case Batch(items) =>
        if items == [] then [] else ReachedAll(items, path) + ReachedListing(rs[1..], path)
  }

  /** The files under a sequence of siblings, one sibling after another. */
  function ReachedAll(items: seq<Entry>, path: string): seq<Visit>
    decreases items
  {
    if items == [] then [] else Reached(items[0], path) + ReachedAll(items[1..], path)
  }

  /** Siblings are processed in order: the files under `xs + ys` are those under `xs`, then under `ys`. */
  lemma {:induction false} ReachedAllConcat(xs: seq<Entry>, ys: seq<Entry>, path: string)
    ensures ReachedAll(xs + ys, path) == ReachedAll(xs, path) + ReachedAll(ys, path)
    decreases |xs|
  {
    if xs == [] {
      assert xs + ys == ys;
    } else {
      assert (xs + ys)[0] == xs[0] && (xs + ys)[1..] == xs[1..] + ys;
      ReachedAllConcat(xs[1..], ys, path);
    }
  }

  lemma ReachedAllSnoc(xs: seq<Entry>, x: Entry, path: string)
    ensures ReachedAll(xs + [x], path) == ReachedAll(xs, path) + Reached(x, path)
  {
    ReachedAllConcat(xs, [x], path);
    assert [x][1..] == [];
  }

  /** One more sibling walked: the summary after `cs[..i]` advanced by `cs[i]` is the summary after `cs[..i+1]`. */
  lemma ChildDone(s0: Summary, e0: seq<ProcessingError>, cs: seq<Entry>, i: nat, path: string)
    requires i < |cs|
    ensures Advance(Advance(s0, ReachedAll(cs[..i], path)), Reached(cs[i], path)) == Advance(s0, ReachedAll(cs[..i + 1], path))
    ensures e0 + ErrorsFor(ReachedAll(cs[..i], path)) + ErrorsFor(Reached(cs[i], path)) == e0 + ErrorsFor(ReachedAll(cs[..i + 1], path))
  {
    assert cs[..i + 1] == cs[..i] + [cs[i]];
    ReachedAllSnoc(cs[..i], cs[i], path);
    AdvanceConcat(s0, ReachedAll(cs[..i], path), Reached(cs[i], path));
  }

  /** Walking a listing batch by batch is walking the drained child list. */
  lemma {:induction false} ReachedListingDrained(rs: seq<Response>, path: string)
    requires DrainListing(rs).Some?
    ensures ReachedListing(rs, path) == ReachedAll(DrainListing(rs).value, path)
    decreases rs
  {
    if rs != [] && rs[0].Batch? && rs[0].items != [] {
      ReachedListingDrained(rs[1..], path);
      ReachedAllConcat(rs[0].items, DrainListing(rs[1..]).value, path);
    }
  }

  /** Failure isolation: a failed handle, a failed listing or an unknown entry adds no file. */
  lemma FailuresContributeNothing(e: Entry, path: string)
    requires (e.FileNode? && !e.handleOk) || (e.DirNode? && DrainListing(e.listing).None?) || e.OtherNode?
    ensures Reached(e, path) == []
  {
  }

  /** A sibling that contributes nothing does not disturb what its neighbours contribute. */
  lemma SiblingsUnaffected(xs: seq<Entry>, bad: Entry, ys: seq<Entry>, path: string)
    requires Reached(bad, path) == []
    ensures ReachedAll(xs + [bad] + ys, path) == ReachedAll(xs + ys, path)
  {
    ReachedAllConcat(xs + [bad], ys, path);
    ReachedAllSnoc(xs, bad, path);
    ReachedAllConcat(xs, ys, path);
  }

  // ---------------------------------------------------------------------
  // Path shape
  // ---------------------------------------------------------------------

  /** Each path ends with a slash and the file's name and, below a non-root path, starts with it and a slash. */
  predicate WellPlaced(vs: seq<Visit>, path: string) {
    forall v :: v in vs ==>
      EndsWith(v.path, "/" + v.file.name) && (path != "" ==> StartsWith(v.path, path + "/"))
  }

  lemma StartsWithTrans(s: string, a: string, b: string)
    requires StartsWith(s, a + b)
    ensures StartsWith(s, a)
  {
    assert s[..|a|] == s[..|a + b|][..|a|];
  }

  lemma WellPlacedConcat(a: seq<Visit>, b: seq<Visit>, path: string)
    requires WellPlaced(a, path) && WellPlaced(b, path)
    ensures WellPlaced(a + b, path)
  {
  }

  /** The visits of a directory's subtree lie below the directory's own path. */
  lemma WellPlacedBelow(vs: seq<Visit>, path: string, name: string)
    requires WellPlaced(vs, DirPath(path, name))
    ensures WellPlaced(vs, path)
  {
    if path != "" {
      forall v | v in vs ensures StartsWith(v.path, path + "/") {
        assert DirPath(path, name) + "/" == (path + "/") + (name + "/");
        StartsWithTrans(v.path, path + "/", name + "/");
      }
    }
  }

  /** Path shape: every file reached below `path` has a path built from `path` and its own name. */
  lemma {:induction false} ReachedWellPlaced(e: Entry, path: string)
    ensures WellPlaced(Reached(e, path), path)
    decreases e
  {
    match e
    case FileNode(file, handleOk, read) =>
      var p := FilePath(path, file.name);
      assert p == path + ("/" + file.name);
      assert p == (path + "/") + file.name;
    case DirNode(name, listing) =>
      if DrainListing(listing).Some? {
        ReachedListingWellPlaced(listing, DirPath(path, name));
        WellPlacedBelow(ReachedListing(listing, DirPath(path, name)), path, name);
      }
    case OtherNode(_) =>
  }

  lemma {:induction false} ReachedListingWellPlaced(rs: seq<Response>, path: string)
    ensures WellPlaced(ReachedListing(rs, path), path)
    decreases rs
  {
    if rs != [] && rs[0].Batch? && rs[0].items != [] {
      ReachedAllWellPlaced(rs[0].items, path);
      ReachedListingWellPlaced(rs[1..], path);
      WellPlacedConcat(ReachedAll(rs[0].items, path), ReachedListing(rs[1..], path), path);
    }
  }

  lemma {:induction false} ReachedAllWellPlaced(items: seq<Entry>, path: string)
    ensures WellPlaced(ReachedAll(items, path), path)
    decreases items
  {
    if items != [] {
      ReachedWellPlaced(items[0], path);
      ReachedAllWellPlaced(items[1..], path);
      WellPlacedConcat(Reached(items[0], path), ReachedAll(items[1..], path), path);
    }
  }

  /** A root file keeps its bare name as its entry path. */
  lemma RootFileEntryPath(name: string)
    requires name == [] || !IsSeparator(name[0])
    ensures FormatFilePath(FilePath("", name)) == name
  {
    FormatFilePathSplit("/", name);
  }

  /** A file inside a root directory gets the path `dir/name`. */
  lemma NestedFileEntryPath(dir: string, name: string)
    requires dir != [] && !IsSeparator(dir[0])
    ensures FormatFilePath(FilePath(DirPath("", dir), name)) == dir + "/" + name
  {
    FormatFilePathIdentity(dir + "/" + name);
  }

  // ---------------------------------------------------------------------
  // The mutable state: `result` and `errors`
  // ---------------------------------------------------------------------

  /** The accumulator `processDirectoryFiles` builds up in place. */
  class ProcessingResult {
    var entries: seq<FileEntry>
    var totalFiles: nat
    var processedFiles: nat
    var skippedFiles: nat
    var totalSize: nat

    constructor ()
      ensures Snapshot() == EMPTY
    {
      entries, totalFiles, processedFiles, skippedFiles, totalSize := [], 0, 0, 0, 0;
    }

    function Snapshot(): Summary
      reads this
    {
      Summary(entries, totalFiles, processedFiles, skippedFiles, totalSize)
    }
  }

  /**
   * The state shared by the closures of `processDirectoryFiles`: the result
   * being built and the diagnostic error list, which nothing ever reads and
   * is therefore ghost here.
   */
  class DirectoryWalk {
    const result: ProcessingResult
    ghost var errors: seq<ProcessingError>

    constructor ()
      ensures fresh(result) && result.Snapshot() == EMPTY && errors == []
    {
      result := new ProcessingResult();
      errors := [];
    }

    /** `processFile`: count the file, then skip it or append its entry. */
    method ProcessFile(file: FileInfo, read: ReadEvent, filePath: string)
      modifies this, result
      ensures result.Snapshot() == Advance(old(result.Snapshot()), [Visit(file, read, filePath)])
      ensures errors == old(errors) + ErrorsFor([Visit(file, read, filePath)])
    {
      ghost var v := Visit(file, read, filePath);
      ghost var s0 := result.Snapshot();
      result.totalFiles := result.totalFiles + 1;
      result.totalSize := result.totalSize + file.size;

      if file.size > MAX_FILE_SIZE {
        result.skippedFiles := result.skippedFiles + 1;
        errors := errors + [ProcessingError(filePath, SIZE_LIMIT_MESSAGE)];
        OversizedStep(s0, v);
        assert result.Snapshot() == s0.(totalFiles := s0.totalFiles + 1, skippedFiles := s0.skippedFiles + 1,
                                        totalSize := s0.totalSize + file.size);
        return;
      }

      if !IsTextFile(file) {
        result.skippedFiles := result.skippedFiles + 1;
        NotTextStep(s0, v);
        assert result.Snapshot() == s0.(totalFiles := s0.totalFiles + 1, skippedFiles := s0.skippedFiles + 1,
                                        totalSize := s0.totalSize + file.size);
        return;
      }

      var content := ReadFileAsText(file, read);
      match content {
        case Success(text) =>
          var mimeType := if file.mime != "" then file.mime else "text/plain";
          result.entries := result.entries + [FileEntry(FormatFilePath(filePath), text, file.size, mimeType)];
          result.processedFiles := result.processedFiles + 1;
          ReadStep(s0, v, text);
          assert result.Snapshot() == s0.(entries := s0.entries + [FileEntry(FormatFilePath(filePath), text, file.size, mimeType)],
                                          totalFiles := s0.totalFiles + 1, processedFiles := s0.processedFiles + 1,
                                          totalSize := s0.totalSize + file.size);
        case Failure(message) =>
          result.skippedFiles := result.skippedFiles + 1;
          errors := errors + [ProcessingError(filePath, if message != "" then message else "Unknown error")];
          ReadFailedStep(s0, v, message);
          assert result.Snapshot() == s0.(totalFiles := s0.totalFiles + 1, skippedFiles := s0.skippedFiles + 1,
                                          totalSize := s0.totalSize + file.size);
      }
    }

    /** `processEntry`: process a file, or list a directory completely and then walk its children in order. */
    method ProcessEntry(entry: Entry, path: string)
      modifies this, result
      ensures result.Snapshot() == Advance(old(result.Snapshot()), Reached(entry, path))
      ensures errors == old(errors) + ErrorsFor(Reached(entry, path))
      decreases entry
    {
      ghost var s0, e0 := result.Snapshot(), errors;
      match entry {
        case FileNode(file, handleOk, read) =>
          if handleOk {
            ProcessFile(file, read, FilePath(path, file.name));
          } else {
            AdvanceNothing(s0);
          }
        case DirNode(name, listing) =>
          var newPath := DirPath(path, name);
          var children := ReadAllEntries(listing);
          if children.Some? {
            var cs := children.value;
            DrainedChildrenDelivered(listing);
            for i := 0 to |cs|
              invariant result.Snapshot() == Advance(s0, ReachedAll(cs[..i], newPath))
              invariant errors == e0 + ErrorsFor(ReachedAll(cs[..i], newPath))
            {
              var child := cs[i];
              assert child in cs;
              ghost var k :| 0 <= k < |listing| && listing[k].Batch? && child in listing[k].items;
              ProcessEntry(child, newPath);
              ChildDone(s0, e0, cs, i, newPath);
            }
            assert cs[..|cs|] == cs;
            ReachedListingDrained(listing, newPath);
          } else {
            AdvanceNothing(s0);
          }
        case OtherNode(_) =>
          AdvanceNothing(s0);
      }
    }

    /** The top-level loop of `processDirectoryFiles`: each item in turn, under `path`. */
    method ProcessEntries(items: seq<Entry>, path: string)
      modifies this, result
      ensures result.Snapshot() == Advance(old(result.Snapshot()), ReachedAll(items, path))
      ensures errors == old(errors) + ErrorsFor(ReachedAll(items, path))
    {
      ghost var s0, e0 := result.Snapshot(), errors;
      assert items[..0] == [];
      AdvanceNothing(s0);
      for i := 0 to |items|
        invariant result.Snapshot() == Advance(s0, ReachedAll(items[..i], path))
        invariant errors == e0 + ErrorsFor(ReachedAll(items[..i], path))
      {
        ProcessEntry(items[i], path);
        ChildDone(s0, e0, items, i, path);
      }
      assert items[..|items|] == items;
    }
  }

  /** `processDirectoryFiles`: walk the top-level entries in order from an empty result. */
  method ProcessDirectoryFiles(items: seq<Entry>) returns (result: ProcessingResult, ghost errors: seq<ProcessingError>)
    ensures fresh(result)
    ensures result.Snapshot() == Advance(EMPTY, ReachedAll(items, ""))
    ensures errors == ErrorsFor(ReachedAll(items, ""))
  {
    var walk := new DirectoryWalk();
    walk.ProcessEntries(items, "");
    result := walk.result;
    errors := walk.errors;
  }

  // ---------------------------------------------------------------------
  // Properties of a whole run
  // ---------------------------------------------------------------------

  /**
   * At the end of a run every counted file is processed or skipped, there
   * is one entry per processed file, and the total size covers every file
   * that reached `processFile`, skipped ones included. The run starts from
   * the path "", but this holds from any starting path. The size clause
   * holds by the definition of `Advance`; that the in-place updates add
   * every file's size is what `DirectoryWalk.ProcessFile` proves.
   */
  lemma RunConsistent(items: seq<Entry>, root: string)
    ensures Consistent(Advance(EMPTY, ReachedAll(items, root)))
    ensures Advance(EMPTY, ReachedAll(items, root)).totalSize == SizeSum(ReachedAll(items, root))
  {
    AdvanceConsistent(EMPTY, ReachedAll(items, root));
  }
}
