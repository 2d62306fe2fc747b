/**
 * `generateOutputFile`: the text summary of a processing result, a
 * three-count header followed by one fenced block per entry.
 */
module OutputFile {
  import opened Wrappers
  import opened Strings
  import opened FileService

  const TITLE: string := "# Directory Content Summary\n"
  const TOTAL_LABEL: string := "Total files: "
  const PROCESSED_LABEL: string := "Processed files: "
  const SKIPPED_LABEL: string := "Skipped files: "

  /** One `Caption: n` line of the header. */
  function CountLine(caption: string, n: nat): string {
    caption + NatToString(n) + "\n"
  }

  /** The header: title, the three counters, then a blank line. */
  function Header(total: nat, processed: nat, skipped: nat): string {
    TITLE + CountLine(TOTAL_LABEL, total) + CountLine(PROCESSED_LABEL, processed)
      + CountLine(SKIPPED_LABEL, skipped) + "\n"
  }

  /** The block of one entry: path, size in bytes and type, then the content between fences. */
  function Block(e: FileEntry): string {
    FileLine(e.path) + SizeLine(e.size) + TypeLine(e.mimeType) + Fenced(e.content)
  }

  /** A blank line before the block, then the line naming the entry's path. */
  function FileLine(path: string): string {
    "\n\n# FILE: " + path + "\n"
  }

  function SizeLine(size: nat): string {
    "# SIZE: " + NatToString(size) + " bytes\n"
  }

  function TypeLine(mimeType: string): string {
    "# TYPE: " + mimeType + "\n"
  }

  /** The content between an opening and a closing code fence. */
  function Fenced(content: string): string {
    "```\n" + content + "\n```\n"
  }

  /** The blocks of `es`, in order. */
  function Blocks(es: seq<FileEntry>): string {
    Concat(Map(Block, es))
  }

  /** `f` applied to each element of `xs`, in order. */
  function Map<A, B>(f: A -> B, xs: seq<A>): (ys: seq<B>)
    ensures |ys| == |xs|
    ensures forall i :: 0 <= i < |xs| ==> ys[i] == f(xs[i])
  {
    seq(|xs|, i requires 0 <= i < |xs| => f(xs[i]))
  }

  /** The strings of `parts` joined end to end. */
  function Concat(parts: seq<string>): string {
    if parts == [] then "" else Concat(parts[..|parts| - 1]) + parts[|parts| - 1]
  }

  /** The whole text produced for a result. */
  function Render(s: Summary): string {
    Header(s.totalFiles, s.processedFiles, s.skippedFiles) + Blocks(s.entries)
  }

  /** `generateOutputFile`: the header, then each entry's block appended piece by piece. */
  method GenerateOutputFile(result: ProcessingResult) returns (output: string)
    ensures output == Render(result.Snapshot())
  {
    output := "# Directory Content Summary\n";
    output := output + "Total files: " + NatToString(result.totalFiles) + "\n";
    output := output + "Processed files: " + NatToString(result.processedFiles) + "\n";
    output := output + "Skipped files: " + NatToString(result.skippedFiles) + "\n\n";
    HeaderText(output, result.totalFiles, result.processedFiles, result.skippedFiles);

    var entries := result.entries;
    var i := 0;
    while i < |entries|
      invariant 0 <= i <= |entries|
      invariant output == Header(result.totalFiles, result.processedFiles, result.skippedFiles)
                          + Blocks(entries[..i])
    {
      output := AppendEntry(output, entries[i]);
      BlocksSnoc(entries, i);
      SeqAssoc(Header(result.totalFiles, result.processedFiles, result.skippedFiles),
                  Blocks(entries[..i]), Block(entries[i]));
      i := i + 1;
    }
    assert entries[..i] == entries;
  }

  /** The `forEach` callback of `generateOutputFile`: append one entry's block. */
  method AppendEntry(text: string, entry: FileEntry) returns (output: string)
    ensures output == text + Block(entry)
  {
    output := text;
    output := output + "\n\n# FILE: " + entry.path + "\n";
    output := output + "# SIZE: " + NatToString(entry.size) + " bytes\n";
    output := output + "# TYPE: " + entry.mimeType + "\n";
    output := output + "```\n";
    output := output + entry.content;
    output := output + "\n```\n";
    AppendBlock(text, output, entry);
  }

  /** The four header statements build exactly the header. */
  lemma HeaderText(text: string, total: nat, processed: nat, skipped: nat)
    requires text == "# Directory Content Summary\n" + "Total files: " + NatToString(total) + "\n"
      + "Processed files: " + NatToString(processed) + "\n" + "Skipped files: " + NatToString(skipped) + "\n\n"
    ensures text == Header(total, processed, skipped)
  {
  }

  /** The six appends of one loop turn add exactly the entry's block. */
  lemma AppendBlock(before: string, after: string, e: FileEntry)
    requires after == before + "\n\n# FILE: " + e.path + "\n" + "# SIZE: " + NatToString(e.size) + " bytes\n"
      + "# TYPE: " + e.mimeType + "\n" + "```\n" + e.content + "\n```\n"
    ensures after == before + Block(e)
  {
  }

  /** The blocks of the first `i + 1` entries are those of the first `i` and then entry `i`'s. */
  lemma BlocksSnoc(es: seq<FileEntry>, i: nat)
    requires i < |es|
    ensures Blocks(es[..i + 1]) == Blocks(es[..i]) + Block(es[i])
  {
    var parts := Map(Block, es[..i + 1]);
    assert parts[..i] == Map(Block, es[..i]);
    assert parts[i] == Block(es[i]);
  }

  // ---------------------------------------------------------------------
  // Reading the counters back
  // ---------------------------------------------------------------------

  /** Read `caption`, a run of digits and a newline from the front of `s`: the number and what follows. */
  function ReadCountLine(caption: string, s: string): Option<(nat, string)> {
    if !StartsWith(s, caption) then None
    else
      var after := s[|caption|..];
      var k := DigitRun(after);
      if k == 0 || k == |after| || after[k] != '\n' then None
      else Some((ParseNat(after[..k]), after[k + 1..]))
  }

  /** Read the three counters of a header from the front of `out`. */
  function ParseHeader(out: string): Option<(nat, nat, nat)> {
    if !StartsWith(out, TITLE) then None
    else match ReadCountLine(TOTAL_LABEL, out[|TITLE|..])
      case None => None
      case Some((total, r1)) =>
        match ReadCountLine(PROCESSED_LABEL, r1)
        case None => None
        case Some((processed, r2)) =>
          match ReadCountLine(SKIPPED_LABEL, r2)
          case None => None
          case Some((skipped, r3)) =>
            if StartsWith(r3, "\n") then Some((total, processed, skipped)) else None
  }

  /** A count line reads back as its number, leaving exactly what followed it. */
  lemma CountLineRoundTrip(caption: string, n: nat, rest: string)
    ensures ReadCountLine(caption, CountLine(caption, n) + rest) == Some((n, rest))
  {
    var digits := NatToString(n);
    var s := CountLine(caption, n) + rest;
    assert s == caption + (digits + ("\n" + rest));
    assert s[..|caption|] == caption;
    var after := s[|caption|..];
    assert after == digits + ("\n" + rest);
    DigitRunOfNumber(n, "\n" + rest);
    var k := DigitRun(after);
    assert after[..k] == digits;
    assert after[k] == '\n';
    assert after[k + 1..] == rest;
    ParseNatToString(n);
  }

  /** The header reads back as the three counters it was written from, whatever follows it. */
  lemma HeaderRoundTrip(total: nat, processed: nat, skipped: nat, rest: string)
    ensures ParseHeader(Header(total, processed, skipped) + rest) == Some((total, processed, skipped))
  {
    var l1, l2, l3 := CountLine(TOTAL_LABEL, total), CountLine(PROCESSED_LABEL, processed),
                      CountLine(SKIPPED_LABEL, skipped);
    var tail := l1 + (l2 + (l3 + ("\n" + rest)));
    HeaderAssoc(TITLE, l1, l2, l3, "\n", rest);
    SplitAfter(TITLE, tail);
    CountLineRoundTrip(TOTAL_LABEL, total, l2 + (l3 + ("\n" + rest)));
    CountLineRoundTrip(PROCESSED_LABEL, processed, l3 + ("\n" + rest));
    CountLineRoundTrip(SKIPPED_LABEL, skipped, "\n" + rest);
    SplitAfter("\n", rest);
  }

  /** Re-bracketing the header's five pieces and what follows them. */
  lemma HeaderAssoc(a: string, b: string, c: string, d: string, e: string, f: string)
    ensures a + b + c + d + e + f == a + (b + (c + (d + (e + f))))
  {
  }

  /** `x + y` starts with `x`, and what follows `x` is `y`. */
  lemma SplitAfter(x: string, y: string)
    ensures StartsWith(x + y, x) && (x + y)[|x|..] == y
  {
    assert (x + y)[..|x|] == x;
  }

  /** The counters of a result can be read back from the front of its summary text. */
  lemma RenderCountsReadBack(s: Summary)
    ensures ParseHeader(Render(s)) == Some((s.totalFiles, s.processedFiles, s.skippedFiles))
  {
    HeaderRoundTrip(s.totalFiles, s.processedFiles, s.skippedFiles, Blocks(s.entries));
  }

  /** A result with no entries renders as the header alone. */
  lemma RenderWithoutEntries(s: Summary)
    requires s.entries == []
    ensures Render(s) == Header(s.totalFiles, s.processedFiles, s.skippedFiles)
    ensures |Render(s)| == |TITLE| + |CountLine(TOTAL_LABEL, s.totalFiles)|
      + |CountLine(PROCESSED_LABEL, s.processedFiles)| + |CountLine(SKIPPED_LABEL, s.skippedFiles)| + 1
  {
    assert Map(Block, s.entries) == [];
  }

  // ---------------------------------------------------------------------
  // The blocks
  // ---------------------------------------------------------------------

  /** The blocks of `a + b` are those of `a` followed by those of `b`. */
  lemma BlocksConcat(a: seq<FileEntry>, b: seq<FileEntry>)
    ensures Blocks(a + b) == Blocks(a) + Blocks(b)
  {
    assert Map(Block, a + b) == Map(Block, a) + Map(Block, b);
    ConcatAppend(Map(Block, a), Map(Block, b));
  }

  /** Joining `p + q` is joining `p`, then joining `q`. */
  lemma {:induction false} ConcatAppend(p: seq<string>, q: seq<string>)
    ensures Concat(p + q) == Concat(p) + Concat(q)
    decreases |q|
  {
    if q == [] {
      assert p + q == p;
    } else {
      var init, last := q[..|q| - 1], q[|q| - 1];
      assert (p + q)[..|p + q| - 1] == p + init;
      assert (p + q)[|p + q| - 1] == last;
      ConcatAppend(p, init);
      SeqAssoc(Concat(p), Concat(init), last);
    }
  }

  /** Each entry's block sits in the text right after the header and the blocks of the entries before it. */
  lemma BlockAt(s: Summary, k: nat)
    requires k < |s.entries|
    ensures OccursAt(Render(s), Block(s.entries[k]),
                     |Header(s.totalFiles, s.processedFiles, s.skippedFiles)| + |Blocks(s.entries[..k])|)
  {
    var es := s.entries;
    var h, before, b, after := Header(s.totalFiles, s.processedFiles, s.skippedFiles),
                              Blocks(es[..k]), Block(es[k]), Blocks(es[k + 1..]);
    assert es[..k + 1] + es[k + 1..] == es;
    BlocksConcat(es[..k + 1], es[k + 1..]);
    BlocksSnoc(es, k);
    SeqAssoc(h, before + b, after);
    SeqAssoc(h, before, b);
    OccursInMiddle(h + before, b, after);
  }

  /** `y` occurs in `x + y + z` right after `x`. */
  lemma OccursInMiddle(x: string, y: string, z: string)
    ensures OccursAt(x + y + z, y, |x|)
  {
    assert (x + y + z)[|x|..|x| + |y|] == y;
  }

  /** A block opens with the line naming the entry's path and closes with exactly its content, fenced. */
  lemma BlockShowsEntry(e: FileEntry)
    ensures StartsWith(Block(e), FileLine(e.path))
    ensures EndsWith(Block(e), Fenced(e.content))
  {
    var a, b, c, d := FileLine(e.path), SizeLine(e.size), TypeLine(e.mimeType), Fenced(e.content);
    SplitAfter(a, b + c + d);
    SeqAssoc(a, b, c);
    SeqAssoc(a, b + c, d);
    assert (a + b + c + d)[|a + b + c|..] == d;
  }
}
