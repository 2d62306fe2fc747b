/**
 * Whole runs on small concrete trees: what `processDirectoryFiles` returns
 * for them and what `generateOutputFile` makes of that.
 */
module Scenarios {
  import opened Wrappers
  import opened Strings
  import opened FileUtils
  import opened FileService
  import opened OutputFile

  /** The TypeScript file of the example folder, which the browser types as "text/typescript". */
  const A_TS: FileInfo := FileInfo("a.ts", 1, "text/typescript")

  /** The image of the example folder. */
  const LOGO_PNG: FileInfo := FileInfo("logo.png", 500, "image/png")

  /**
   * A dropped folder `src` whose reader hands over a one-byte TypeScript
   * file and a 500-byte image in one batch, then an empty batch. What the
   * image's reader would deliver is left open: it is never read.
   */
  function SrcFolder(pngRead: ReadEvent): Entry {
    DirNode("src", [Batch([FileNode(A_TS, true, Loaded("x")), FileNode(LOGO_PNG, true, pngRead)]),
                    Batch([])])
  }

  // The walks below start from the root path `root`, which callers can only
  // pass as "": the verifier handles a path parameter far more cheaply than
  // the literal "" spelled out inside the statement.

  /** The two files of `src` reach `processFile` in listing order, with paths under `src`. */
  lemma SrcFolderVisits(pngRead: ReadEvent, root: string)
    requires root == ""
    ensures ReachedAll([SrcFolder(pngRead)], root)
         == [Visit(A_TS, Loaded("x"), "src/a.ts"), Visit(LOGO_PNG, pngRead, "src/logo.png")]
  {
    var dir := SrcFolder(pngRead);
    var items := dir.listing[0].items;
    assert dir.listing[1..] == [Batch([])];
    assert DrainListing(dir.listing[1..]) == Some([]);
    assert items + [] == items;
    assert DrainListing(dir.listing) == Some(items);
    assert DirPath(root, "src") == "src";
    assert ReachedListing(dir.listing[1..], "src") == [];
    assert ReachedListing(dir.listing, "src") == ReachedAll(items, "src") + [];
    assert FilePath("src", A_TS.name) == "src/a.ts";
    assert FilePath("src", LOGO_PNG.name) == "src/logo.png";
    assert Reached(items[0], "src") == [Visit(A_TS, Loaded("x"), "src/a.ts")];
    assert Reached(items[1], "src") == [Visit(LOGO_PNG, pngRead, "src/logo.png")];
    assert items[1..][1..] == [];
    assert ReachedAll(items[1..], "src") == Reached(items[1], "src") + [];
    assert ReachedAll(items, "src") == Reached(items[0], "src") + ReachedAll(items[1..], "src");
    assert ReachedAll([dir], root) == Reached(dir, root) + ReachedAll([], root);
  }

  // The classification lemmas below name the files' fields rather than the
  // constants: the verifier evaluates the predicates on a whole literal file
  // (every list, every fragment) far more slowly than it follows these proofs.

  /** A file named "a.ts", whatever its MIME type, is accepted as text by its ".ts" extension. */
  lemma TypeScriptFileIsText(f: FileInfo)
    requires f.name == "a.ts"
    ensures ExtensionAllowed(f) && IsTextFile(f)
  {
    assert ToLower(f.name) == "a.ts";
    TypeScriptIsText(f);
  }

  /** The image is refused: "image/png" holds the excluded "image/" and no allowed type, and no extension matches. */
  lemma LogoIsNotText(f: FileInfo)
    requires f.name == "logo.png" && f.mime == "image/png"
    ensures MimeDenied(f) && !MimeAllowed(f) && !ExtensionAllowed(f)
    ensures !IsTextFile(f)
  {
    PngMimeDenied(f.mime);
    PngMimeNotAllowed(f.mime);
    var name := ToLower(f.name);
    assert name == "logo.png";
    LogoNotProgramming(name);
    LogoNotConfigOrDocument(name);
    LogoNotAdditional(name);
    var p, c, d := PROGRAMMING_EXTENSIONS, CONFIG_EXTENSIONS, DOCUMENT_EXTENSIONS;
    EndsWithAnyConcat(name, p + c + d, ADDITIONAL_EXTENSIONS);
    EndsWithAnyConcat(name, p + c, d);
    EndsWithAnyConcat(name, p, c);
  }

  /** "image/png" starts with the first refused fragment, "image/". */
  lemma PngMimeDenied(mime: string)
    requires mime == "image/png"
    ensures IncludesAny(mime, EXCLUDED_FILE_TYPES)
  {
    assert OccursAt(mime, EXCLUDED_FILE_TYPES[0], 0);
    IncludesAnyExactly(mime, EXCLUDED_FILE_TYPES);
  }

  /** Every allowed MIME fragment contains a 't'. */
  lemma AllowedTypesHoldT()
    ensures forall i :: 0 <= i < |TEXT_FILE_TYPES| ==> 't' in TEXT_FILE_TYPES[i]
  {
  }

  /** "image/png" has no 't', so it contains none of the allowed fragments. */
  lemma PngMimeNotAllowed(mime: string)
    requires mime == "image/png"
    ensures !IncludesAny(mime, TEXT_FILE_TYPES)
  {
    AllowedTypesHoldT();
    forall i | 0 <= i < |TEXT_FILE_TYPES| ensures !Includes(mime, TEXT_FILE_TYPES[i]) {
      MissingCharNotIncluded(mime, TEXT_FILE_TYPES[i], 't');
    }
    IncludesAnyExactly(mime, TEXT_FILE_TYPES);
  }

  lemma LogoNotProgramming(name: string)
    requires name == "logo.png"
    ensures !EndsWithAny(name, PROGRAMMING_EXTENSIONS)
  {
    var p1, p2, p3, p4, p5 := PROGRAMMING_1, PROGRAMMING_2, PROGRAMMING_3, PROGRAMMING_4, PROGRAMMING_5;
    NoListedSuffix(name, p1);
    NoListedSuffix(name, p2);
    NoListedSuffix(name, p3);
    NoListedSuffix(name, p4);
    NoListedSuffix(name, p5);
    EndsWithAnyConcat(name, p1 + p2 + p3 + p4, p5);
    EndsWithAnyConcat(name, p1 + p2 + p3, p4);
    EndsWithAnyConcat(name, p1 + p2, p3);
    EndsWithAnyConcat(name, p1, p2);
  }

  lemma LogoNotConfigOrDocument(name: string)
    requires name == "logo.png"
    ensures !EndsWithAny(name, CONFIG_EXTENSIONS)
    ensures !EndsWithAny(name, DOCUMENT_EXTENSIONS)
  {
    NoListedSuffix(name, CONFIG_EXTENSIONS);
    NoListedSuffix(name, DOCUMENT_EXTENSIONS);
  }

  lemma LogoNotAdditional(name: string)
    requires name == "logo.png"
    ensures !EndsWithAny(name, ADDITIONAL_EXTENSIONS)
  {
    NoListedSuffix(name, ADDITIONAL_EXTENSIONS);
  }

  /** A name ending with none of the listed suffixes fails the scan. */
  lemma NoListedSuffix(name: string, suffixes: seq<string>)
    requires forall i :: 0 <= i < |suffixes| ==> !EndsWith(name, suffixes[i])
    ensures !EndsWithAny(name, suffixes)
  {
    EndsWithAnyExactly(name, suffixes);
  }

  /**
   * Processing `src`: both files are counted and their sizes summed; the
   * TypeScript file, accepted by its extension, becomes the one entry and
   * keeps its declared type; the image, refused by the deny-list, is
   * skipped without an error record and never read.
   */
  lemma SrcFolderResult(pngRead: ReadEvent, root: string)
    requires root == ""
    ensures Advance(EMPTY, ReachedAll([SrcFolder(pngRead)], root))
         == Summary([FileEntry("src/a.ts", "x", 1, "text/typescript")], 2, 1, 1, 501)
    ensures ErrorsFor(ReachedAll([SrcFolder(pngRead)], root)) == []
  {
    SrcFolderVisits(pngRead, root);
    SrcFilesResult(Visit(A_TS, Loaded("x"), "src/a.ts"), Visit(LOGO_PNG, pngRead, "src/logo.png"));
  }

  /** The two visits of `src`, folded in order from the empty result. */
  lemma SrcFilesResult(va: Visit, vp: Visit)
    requires va.file.name == "a.ts" && va.file.size == 1 && va.file.mime == "text/typescript"
    requires va.read == Loaded("x") && va.path == "src/a.ts"
    requires vp.file.name == "logo.png" && vp.file.size == 500 && vp.file.mime == "image/png"
    requires vp.path == "src/logo.png"
    ensures Advance(EMPTY, [va, vp]) == Summary([FileEntry("src/a.ts", "x", 1, "text/typescript")], 2, 1, 1, 501)
    ensures ErrorsFor([va, vp]) == []
  {
    assert [va, vp] == [va] + [vp];
    TypeScriptFileIsText(va.file);
    LogoIsNotText(vp.file);
    assert ReadFileAsText(va.file, va.read) == Success("x");
    FormatFilePathIdentity(va.path);
    ReadStep(EMPTY, va, "x");
    NotTextStep(Advance(EMPTY, [va]), vp);
    AdvanceConcat(EMPTY, [va], [vp]);
  }

  /** The header of a run that counted nothing, character for character. */
  lemma ZeroHeader()
    ensures Header(0, 0, 0) == "# Directory Content Summary\n" + "Total files: 0\n" + "Processed files: 0\n"
      + "Skipped files: 0\n" + "\n"
  {
    assert NatToString(0) == "0";
    assert CountLine(TOTAL_LABEL, 0) == "Total files: 0\n";
    assert CountLine(PROCESSED_LABEL, 0) == "Processed files: 0\n";
    assert CountLine(SKIPPED_LABEL, 0) == "Skipped files: 0\n";
  }

  /** Dropping nothing yields the empty result, whose summary text is the zero header alone. */
  lemma NothingDropped(root: string)
    requires root == ""
    ensures Advance(EMPTY, ReachedAll([], root)) == EMPTY
    ensures Render(EMPTY) == Header(0, 0, 0)
  {
    AdvanceNothing(EMPTY);
    RenderWithoutEntries(EMPTY);
  }
}
