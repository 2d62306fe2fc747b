/**
 * Classification and path helpers of src/utils/fileUtils.ts: the size cap,
 * the three constant lists, `isTextFile`, the observable outcome of
 * `readFileAsText`, `formatFilePath` and the bytes branch of
 * `formatFileSize`.
 */
module FileUtils {
  import opened Wrappers
  import opened Strings

  /** The largest size, in bytes, a file may have and still be read (20 MiB). */
  const MAX_FILE_SIZE: nat := 20 * 1024 * 1024

  /** MIME types (matched as substrings of the declared type) that mark a file as text. */
  const TEXT_FILE_TYPES: seq<string> := [
    "text/plain", "text/html", "text/css", "text/javascript",
    "application/javascript", "application/json", "application/xml",
    "text/markdown", "text/x-python", "text/x-java", "text/x-c",
    "text/x-c++", "text/x-typescript", "application/x-httpd-php",
    "text/csv", "text/tab-separated-values"
  ]

  /** Filename suffixes (matched against the lower-cased name) that mark a file as text. */
  const TEXT_FILE_EXTENSIONS: seq<string> :=
    PROGRAMMING_EXTENSIONS + CONFIG_EXTENSIONS + DOCUMENT_EXTENSIONS + ADDITIONAL_EXTENSIONS

  /**
   * The "Programming files" group, kept in five parts (the verifier reasons
   * slowly about one long literal list).
   */
  const PROGRAMMING_EXTENSIONS: seq<string> :=
    PROGRAMMING_1 + PROGRAMMING_2 + PROGRAMMING_3 + PROGRAMMING_4 + PROGRAMMING_5

  const PROGRAMMING_1: seq<string> := [".js", ".jsx", ".ts", ".tsx", ".html", ".htm", ".css", ".scss", ".sass"]
  const PROGRAMMING_2: seq<string> := [".less", ".json", ".xml", ".yml", ".yaml", ".md", ".markdown", ".txt"]
  const PROGRAMMING_3: seq<string> := [".rtf", ".csv", ".py", ".rb", ".java", ".c", ".cpp", ".cs", ".go", ".rs"]
  const PROGRAMMING_4: seq<string> := [".php", ".pl", ".sh", ".bash", ".zsh", ".ps1", ".swift", ".kt", ".kts"]
  const PROGRAMMING_5: seq<string> := [".gradle", ".sql", ".graphql", ".prisma"]

  const CONFIG_EXTENSIONS: seq<string> := [
    ".env", ".gitignore", ".eslintrc", ".prettierrc", ".babelrc", ".editorconfig",
    ".dockerignore", ".htaccess", ".ini", ".conf", ".cfg", ".toml"
  ]

  const DOCUMENT_EXTENSIONS: seq<string> := [".csv", ".tsv", ".log"]

  const ADDITIONAL_EXTENSIONS: seq<string> :=
    [".vue", ".svelte", ".jsx", ".dart", ".lua", ".r", ".perl", ".m", ".h"]
    + [".jsp", ".aspx", ".erb", ".haml", ".slim", ".pug", ".jade", ".ex", ".exs"]
    + [".hbs", ".twig", ".razor", ".elm", ".clj", ".scala", ".groovy"]
    + [".tf", ".nix", ".cmake", ".make", ".asm", ".s", ".bat", ".cmd"]
    + [".proto", ".sol", ".hs", ".erl", ".fs", ".fsx"]

  /** MIME fragments of binary formats that are refused unless an earlier rule accepted the file. */
  const EXCLUDED_FILE_TYPES: seq<string> := [
    "image/", "audio/", "video/", "font/",
    "application/zip", "application/x-zip-compressed",
    "application/x-7z-compressed", "application/x-rar-compressed",
    "application/pdf", "application/msword",
    "application/vnd.openxmlformats-officedocument",
    "application/vnd.ms-excel", "application/vnd.ms-powerpoint"
  ]

  /** What the core reads of a browser `File`: its name, byte size and declared MIME type. */
  datatype FileInfo = FileInfo(name: string, size: nat, mime: string)

  /** `fragments.some(t => mime.includes(t))`, scanning the list from the front. */
  predicate IncludesAny(mime: string, fragments: seq<string>) {
    fragments != [] && (Includes(mime, fragments[0]) || IncludesAny(mime, fragments[1..]))
  }

  /** `suffixes.some(ext => name.endsWith(ext))`, scanning the list from the front. */
  predicate EndsWithAny(name: string, suffixes: seq<string>) {
    suffixes != [] && (EndsWith(name, suffixes[0]) || EndsWithAny(name, suffixes[1..]))
  }

  /** The scan finds a fragment exactly when some listed fragment occurs in `mime`. */
  lemma {:induction false} IncludesAnyExactly(mime: string, fragments: seq<string>)
    ensures IncludesAny(mime, fragments) <==> exists i :: 0 <= i < |fragments| && Includes(mime, fragments[i])
  {
    if fragments != [] {
      IncludesAnyExactly(mime, fragments[1..]);
      if IncludesAny(mime, fragments[1..]) {
        var i :| 0 <= i < |fragments[1..]| && Includes(mime, fragments[1..][i]);
        assert fragments[1..][i] == fragments[i + 1];
      }
      if exists i :: 0 <= i < |fragments| && Includes(mime, fragments[i]) {
        var i :| 0 <= i < |fragments| && Includes(mime, fragments[i]);
        if i > 0 {
          assert fragments[i] == fragments[1..][i - 1];
        }
      }
    }
  }

  /** The scan finds a suffix exactly when some listed suffix ends `name`. */
  lemma {:induction false} EndsWithAnyExactly(name: string, suffixes: seq<string>)
    ensures EndsWithAny(name, suffixes) <==> exists i :: 0 <= i < |suffixes| && EndsWith(name, suffixes[i])
  {
    if suffixes != [] {
      EndsWithAnyExactly(name, suffixes[1..]);
      if EndsWithAny(name, suffixes[1..]) {
        var i :| 0 <= i < |suffixes[1..]| && EndsWith(name, suffixes[1..][i]);
        assert suffixes[1..][i] == suffixes[i + 1];
      }
      if exists i :: 0 <= i < |suffixes| && EndsWith(name, suffixes[i]) {
        var i :| 0 <= i < |suffixes| && EndsWith(name, suffixes[i]);
        if i > 0 {
          assert suffixes[i] == suffixes[1..][i - 1];
        }
      }
    }
  }

  /** Rule 1: the declared MIME type contains an allowed text type. */
  predicate MimeAllowed(f: FileInfo) {
    IncludesAny(f.mime, TEXT_FILE_TYPES)
  }

  /** Rule 2: the lower-cased name ends with an allowed extension. */
  predicate ExtensionAllowed(f: FileInfo) {
    EndsWithAny(ToLower(f.name), TEXT_FILE_EXTENSIONS)
  }

  /** Rule 3: the declared MIME type contains a refused binary fragment. */
  predicate MimeDenied(f: FileInfo) {
    IncludesAny(f.mime, EXCLUDED_FILE_TYPES)
  }

  /** `isTextFile`: the first rule that matches decides; a file no rule matches is text. */
  predicate IsTextFile(f: FileInfo) {
    if MimeAllowed(f) then true
    else if ExtensionAllowed(f) then true
    else if MimeDenied(f) then false
    else true
  }

  /** A file is refused exactly when the deny-list matches and neither allow rule does. */
  lemma NotTextExactly(f: FileInfo)
    ensures !IsTextFile(f) <==> MimeDenied(f) && !MimeAllowed(f) && !ExtensionAllowed(f)
  {
  }

  /** An allowed MIME type makes a file text whatever its name. */
  lemma MimeRuleWins(f: FileInfo)
    requires MimeAllowed(f)
    ensures IsTextFile(f)
    ensures forall name: string :: IsTextFile(FileInfo(name, f.size, f.mime))
  {
  }

  /** Only an empty fragment can be found in an empty MIME type. */
  lemma NothingInEmptyMime(fragments: seq<string>)
    requires forall i :: 0 <= i < |fragments| ==> fragments[i] != ""
    ensures !IncludesAny("", fragments)
  {
    IncludesAnyExactly("", fragments);
  }

  /** A file without a declared MIME type is always text (browsers often leave it empty). */
  lemma EmptyMimeIsText(f: FileInfo)
    requires f.mime == ""
    ensures IsTextFile(f)
  {
    assert forall i :: 0 <= i < |EXCLUDED_FILE_TYPES| ==> EXCLUDED_FILE_TYPES[i] != "" by {
      forall i | 0 <= i < |EXCLUDED_FILE_TYPES| ensures EXCLUDED_FILE_TYPES[i] != "" {
        assert EXCLUDED_FILE_TYPES[i] in EXCLUDED_FILE_TYPES;
      }
    }
    NothingInEmptyMime(EXCLUDED_FILE_TYPES);
  }

  /**
   * The extension rule is consulted before the deny-list: a TypeScript file
   * that the browser reports as an MPEG transport stream is still text, and
   * the comparison ignores the case of the name.
   */
  lemma ExtensionBeatsDenyList(size: nat)
    ensures MimeDenied(FileInfo("clip.ts", size, "video/mp2t"))
    ensures IsTextFile(FileInfo("clip.ts", size, "video/mp2t"))
    ensures IsTextFile(FileInfo("Main.TS", size, "video/mp2t"))
  {
    assert OccursAt("video/mp2t", EXCLUDED_FILE_TYPES[2], 0);
    IncludesAnyExactly("video/mp2t", EXCLUDED_FILE_TYPES);
    assert ToLower("clip.ts") == "clip.ts";
    assert ToLower("Main.TS") == "main.ts";
    TypeScriptIsText(FileInfo("clip.ts", size, "video/mp2t"));
    TypeScriptIsText(FileInfo("Main.TS", size, "video/mp2t"));
  }

  /** A file whose lower-cased name ends in ".ts" is text, whatever MIME type it declares. */
  lemma TypeScriptIsText(f: FileInfo)
    requires EndsWith(ToLower(f.name), ".ts")
    ensures ExtensionAllowed(f) && IsTextFile(f)
  {
    TypeScriptExtension(ToLower(f.name));
  }

  /** A lower-case name ending in ".ts" passes the extension rule. */
  lemma TypeScriptExtension(lower: string)
    requires EndsWith(lower, ".ts")
    ensures EndsWithAny(lower, TEXT_FILE_EXTENSIONS)
  {
    TypeScriptIsProgramming(lower);
    var p, c, d, x := PROGRAMMING_EXTENSIONS, CONFIG_EXTENSIONS, DOCUMENT_EXTENSIONS, ADDITIONAL_EXTENSIONS;
    EndsWithAnyConcat(lower, p, c);
    EndsWithAnyConcat(lower, p + c, d);
    EndsWithAnyConcat(lower, p + c + d, x);
  }

  /** ".ts" is the third of the programming extensions. */
  lemma TypeScriptIsProgramming(lower: string)
    requires EndsWith(lower, ".ts")
    ensures EndsWithAny(lower, PROGRAMMING_EXTENSIONS)
  {
    EndsWithAnyAt(lower, PROGRAMMING_1, 2);
    var p1, p2, p3, p4 := PROGRAMMING_1, PROGRAMMING_2, PROGRAMMING_3, PROGRAMMING_4;
    EndsWithAnyConcat(lower, p1, p2);
    EndsWithAnyConcat(lower, p1 + p2, p3);
    EndsWithAnyConcat(lower, p1 + p2 + p3, p4);
    EndsWithAnyConcat(lower, p1 + p2 + p3 + p4, PROGRAMMING_5);
  }

  /** A name ending with the `i`-th listed suffix passes the scan. */
  lemma EndsWithAnyAt(name: string, suffixes: seq<string>, i: nat)
    requires i < |suffixes| && EndsWith(name, suffixes[i])
    ensures EndsWithAny(name, suffixes)
  {
    EndsWithAnyExactly(name, suffixes);
  }

  /** The scan of `a + b` succeeds exactly when the scan of `a` or the scan of `b` does. */
  lemma {:induction false} EndsWithAnyConcat(name: string, a: seq<string>, b: seq<string>)
    ensures EndsWithAny(name, a + b) <==> EndsWithAny(name, a) || EndsWithAny(name, b)
    decreases |a|
  {
    if a == [] {
      assert a + b == b;
    } else {
      assert (a + b)[0] == a[0] && (a + b)[1..] == a[1..] + b;
      EndsWithAnyConcat(name, a[1..], b);
    }
  }

  /** The browser's reading of a file: `FileReader` either loads a text or signals an error. */
  datatype ReadEvent = Loaded(text: string) | ReadErrored

  /**
   * `readFileAsText`: resolves with the loaded text when it is non-empty;
   * an empty (falsy) result and a read error both reject, the latter with a
   * message naming the file.
   */
  function ReadFileAsText(file: FileInfo, event: ReadEvent): (r: Result<string, string>)
    ensures r.Success? <==> event.Loaded? && event.text != ""
    ensures r.Success? ==> r.value == event.text
    ensures event.Loaded? && event.text == "" ==> r == Failure("Failed to read file")
    ensures event.ReadErrored? ==> r.Failure? && Includes(r.error, file.name)
    ensures r.Failure? ==> r.error != ""
  {
    match event
    case Loaded(text) =>
      if text != "" then Success(text) else Failure("Failed to read file")
    case ReadErrored =>
      var prefix := "Error reading file: ";
      assert OccursAt(prefix + file.name, file.name, |prefix|);
      Failure(prefix + file.name)
  }

  predicate IsSeparator(c: char) {
    c == '/' || c == '\\'
  }

  /**
   * `formatFilePath`: removes the maximal leading run of `/` and `\`
   * characters, so that the result is a suffix of the input that does not
   * start with a separator, and everything removed was a separator.
   */
  function FormatFilePath(path: string): (r: string)
    ensures |r| <= |path| && r == path[|path| - |r|..]
    ensures forall i :: 0 <= i < |path| - |r| ==> IsSeparator(path[i])
    ensures r == [] || !IsSeparator(r[0])
    decreases |path|
  {
    if path != [] && IsSeparator(path[0]) then FormatFilePath(path[1..]) else path
  }

  /** Stripping is determined by the split into a run of separators and the rest. */
  lemma {:induction false} FormatFilePathSplit(seps: string, rest: string)
    requires forall i :: 0 <= i < |seps| ==> IsSeparator(seps[i])
    requires rest == [] || !IsSeparator(rest[0])
    ensures FormatFilePath(seps + rest) == rest
    decreases |seps|
  {
    if seps != [] {
      assert (seps + rest)[1..] == seps[1..] + rest;
      FormatFilePathSplit(seps[1..], rest);
    } else {
      assert seps + rest == rest;
    }
  }

  /** Formatting twice changes nothing more than formatting once. */
  lemma FormatFilePathIdempotent(path: string)
    ensures FormatFilePath(FormatFilePath(path)) == FormatFilePath(path)
  {
  }

  /** A path that does not start with a separator is left as it is, inner separators included. */
  lemma FormatFilePathIdentity(path: string)
    requires path == [] || !IsSeparator(path[0])
    ensures FormatFilePath(path) == path
  {
  }

  /** `formatFileSize` below 1024: the decimal digits of the count followed by " B". */
  function FormatFileSize(bytes: nat): (r: string)
    requires bytes < 1024
    ensures 3 <= |r| <= 6 && r[|r| - 2..] == " B"
    ensures forall i :: 0 <= i < |r| - 2 ==> IsDigit(r[i])
    ensures ParseNat(r[..|r| - 2]) == bytes
    ensures r[0] == '0' ==> bytes == 0
    ensures |r| > 3 ==> r[0] != '0'
  {
    ParseNatToString(bytes);
    var digits := NatToString(bytes);
    assert |digits| <= 4 by {
      assert bytes / 10 / 10 == bytes / 100 && bytes / 100 / 10 == bytes / 1000;
      assert |NatToString(bytes / 1000)| == 1;
      assert |NatToString(bytes / 100)| <= 2;
      assert |NatToString(bytes / 10)| <= 3;
    }
    assert (digits + " B")[..|digits|] == digits;
    digits + " B"
  }
}
