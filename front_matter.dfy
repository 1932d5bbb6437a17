/**
 * Documents with a YAML front-matter block: a `---` line, the YAML lines,
 * another `---` line, then the page content. The YAML library is not part
 * of the model: loading and dumping are function parameters.
 */
module FrontMatters {
  import opened Wrappers
  import opened PyBytes
  import Paths

  /** The separator line `---`. */
  const Separator: Bytes := [0x2D, 0x2D, 0x2D]

  /** How a document is published; each member is serialised as its string value. */
  datatype DocumentOutputMode = Visible | Hidden | NoIndex | Never
  {
    function Value(): string
    {
      match this
      case Visible => "visible"
      case Hidden => "hidden"
      case NoIndex => "no-index"
      case Never => "never"
    }
  }

  /** Enum lookup by value: `DocumentOutputMode(s)`, `None` where Python raises. */
  function ParseDocumentOutputMode(s: string): (r: Option<DocumentOutputMode>)
    ensures r.Some? ==> r.value.Value() == s
    ensures r.None? ==> forall m: DocumentOutputMode :: m.Value() != s
  {
    if s == "visible" then Some(Visible)
    else if s == "hidden" then Some(Hidden)
    else if s == "no-index" then Some(NoIndex)
    else if s == "never" then Some(Never)
    else None
  }

  /** Every mode is read back from its own value. */
  lemma OutputModeRoundTrip(m: DocumentOutputMode)
    ensures ParseDocumentOutputMode(m.Value()) == Some(m)
  {
  }

  /**
   * The recognised front-matter keys; `extra` holds the keys the model
   * does not know, which are kept.
   */
  datatype FrontMatter = FrontMatter(
    display: Option<DocumentOutputMode>,
    title: Option<string>,
    layout: Option<string>,
    documentationOf: Option<string>,
    redirectFrom: Option<seq<string>>,
    extra: map<string, string>)

  /** `FrontMatter()`: every field unset. */
  const DefaultFrontMatter: FrontMatter := FrontMatter(None, None, None, None, None, map[])

  datatype Markdown = Markdown(path: Option<Paths.Path>, frontMatter: Option<FrontMatter>, content: Bytes)

  /** The page generated for a source file that has no markdown of its own. */
  function MakeDefault(sourcePath: Paths.Path): (md: Markdown)
    ensures md.path.None? && md.content == []
    ensures md.frontMatter.Some? && md.frontMatter.value.documentationOf == Some(sourcePath)
    ensures md.frontMatter.value.(documentationOf := None) == DefaultFrontMatter
  {
    Markdown(None, Some(DefaultFrontMatter.(documentationOf := Some(sourcePath))), [])
  }

  /** A line that is `---` once trailing whitespace is stripped. */
  predicate IsSeparatorLine(line: Bytes)
  {
    RStrip(line) == Separator
  }

  /** Trailing spaces, tabs and the like after `---` still make a separator. */
  lemma SeparatorTrailingWhitespace(ws: Bytes)
    requires forall i :: 0 <= i < |ws| ==> IsAsciiWhitespace(ws[i])
    ensures IsSeparatorLine(Separator + ws)
  {
    RStripTrailingWhitespace(Separator, ws);
  }

  /** The first separator line at index `from` or later. */
  function FindSeparator(lines: seq<Bytes>, from: nat): (r: Option<nat>)
    ensures r.Some? ==> from <= r.value < |lines| && IsSeparatorLine(lines[r.value])
    ensures r.Some? ==> forall j :: from <= j < r.value ==> !IsSeparatorLine(lines[j])
    ensures r.None? ==> forall j :: from <= j < |lines| ==> !IsSeparatorLine(lines[j])
    decreases |lines| - from
  {
    if from >= |lines| then None
    else if IsSeparatorLine(lines[from]) then Some(from)
    else FindSeparator(lines, from + 1)
  }

  /** Line `i` closes the block opened by line 0: the first separator after it. */
  predicate ClosingAt(lines: seq<Bytes>, i: int)
  {
    1 <= i < |lines| && IsSeparatorLine(lines[0]) && IsSeparatorLine(lines[i]) &&
    forall j :: 1 <= j < i ==> !IsSeparatorLine(lines[j])
  }

  /** The lines open with a separator and a later line is a separator too. */
  predicate HasBlock(lines: seq<Bytes>)
  {
    |lines| > 0 && IsSeparatorLine(lines[0]) &&
    exists i :: 1 <= i < |lines| && IsSeparatorLine(lines[i])
  }

  /**
   * The split of a document into raw front matter and content: the YAML
   * lines between the opening and the first closing separator, and the
   * lines after it, each joined with LF. Without a block, nothing is split.
   */
  function SplitRaw(content: Bytes): (r: (Option<Bytes>, Bytes))
    ensures r.0.None? ==> r.1 == content
    ensures r.0.Some? <==> HasBlock(SplitLines(content))
    ensures r.0.Some? ==> exists i :: (ClosingAt(SplitLines(content), i) &&
      r.0.value == JoinLines(SplitLines(content)[1..i]) &&
      r.1 == JoinLines(SplitLines(content)[i + 1..]))
  {
    var lines := SplitLines(content);
    if |lines| == 0 || !IsSeparatorLine(lines[0]) then (None, content)
    else
      match FindSeparator(lines, 1)
      case None => (None, content)
      case Some(i) =>
        assert ClosingAt(lines, i);
        (Some(JoinLines(lines[1..i])), JoinLines(lines[i + 1..]))
  }

  /** `split_front_matter_raw`: the line walk with its early exits. */
  method SplitFrontMatterRaw(content: Bytes) returns (frontMatter: Option<Bytes>, rest: Bytes)
    ensures (frontMatter, rest) == SplitRaw(content)
  {
    var lines := SplitLines(content);
    if |lines| == 0 || !IsSeparatorLine(lines[0]) {
      return None, content;
    }
    var i := 0;
    while i < |lines|
      invariant i <= |lines|
      invariant forall j :: 1 <= j < i ==> !IsSeparatorLine(lines[j])
    {
      if i != 0 && IsSeparatorLine(lines[i]) {
        break;
      }
      i := i + 1;
    }
    if i == |lines| {
      assert FindSeparator(lines, 1).None?;
      return None, content;
    }
    assert FindSeparator(lines, 1) == Some(i);
    frontMatter := Some(JoinLines(lines[1..i]));
    rest := JoinLines(lines[i + 1..]);
  }

  /** The lines of a document from line `k` on are the lines of its tail from offset `n`. */
  lemma {:induction false} SplitLinesSuffix(s: Bytes, k: nat) returns (n: nat)
    requires k <= |SplitLines(s)|
    ensures n <= |s| && SplitLines(s[n..]) == SplitLines(s)[k..]
    decreases |s|
  {
    if k == 0 {
      n := 0;
      assert s[0..] == s;
    } else {
      var i := LineEnd(s);
      if i == |s| {
        n := |s|;
        assert SplitLines(s[|s|..]) == [];
      } else {
        var m := i + BreakLength(s, i);
        var u := s[m..];
        assert SplitLines(s) == [s[..i]] + SplitLines(u);
        var n' := SplitLinesSuffix(u, k - 1);
        n := m + n';
        assert u[n'..] == s[n..];
      }
    }
  }

  /**
   * The content after a front-matter block is a tail of the document with
   * CR LF and CR turned into LF and one final line break dropped; the
   * metadata holds no CR.
   */
  lemma SplitRawNormalises(content: Bytes)
    requires SplitRaw(content).0.Some?
    ensures exists n :: (0 <= n <= |content| &&
      SplitRaw(content).1 == DropFinalNewline(NormalizeNewlines(content[n..])))
    ensures NoCR(SplitRaw(content).0.value)
  {
    var lines := SplitLines(content);
    var i :| ClosingAt(lines, i) && SplitRaw(content).0.value == JoinLines(lines[1..i]) &&
      SplitRaw(content).1 == JoinLines(lines[i + 1..]);
    var n := SplitLinesSuffix(content, i + 1);
    JoinSplitLines(content[n..]);
    JoinLinesNoCR(lines[1..i]);
  }

  /** Joining lines that hold no line break gives bytes without CR. */
  lemma {:induction false} JoinLinesNoCR(lines: seq<Bytes>)
    requires forall k :: 0 <= k < |lines| ==> NoLineBreak(lines[k])
    ensures NoCR(JoinLines(lines))
    decreases |lines|
  {
    if |lines| > 1 {
      JoinLinesNoCR(lines[1..]);
      var r := JoinLines(lines[1..]);
      assert JoinLines(lines) == lines[0] + [LF] + r;
      assert forall i :: 0 <= i < |lines[0]| ==> (lines[0] + [LF] + r)[i] == lines[0][i];
      assert forall i :: |lines[0]| < i < |lines[0]| + 1 + |r| ==>
        (lines[0] + [LF] + r)[i] == r[i - |lines[0]| - 1];
    }
  }

  /** What `yaml.safe_load` followed by validation makes of a metadata block. */
  datatype Loaded =
    | Falsy                      // empty or null YAML
    | Validated(value: FrontMatter)
    | Invalid(message: string)   // loading or validation raises

  /**
   * `split_front_matter`: the raw split, then the metadata loaded; an
   * empty block gives the default front matter, not `None`.
   */
  function SplitFrontMatter(content: Bytes, load: Bytes -> Loaded): (r: Result<(Option<FrontMatter>, Bytes), string>)
    ensures r.Success? ==> r.value.1 == SplitRaw(content).1
    ensures r.Success? && r.value.0.None? <==> SplitRaw(content).0.None?
    ensures r.Failure? <==> SplitRaw(content).0.Some? && load(SplitRaw(content).0.value).Invalid?
    ensures SplitRaw(content).0.Some? && load(SplitRaw(content).0.value).Validated? ==>
      r == Success((Some(load(SplitRaw(content).0.value).value), SplitRaw(content).1))
    ensures SplitRaw(content).0.Some? && load(SplitRaw(content).0.value).Invalid? ==>
      r == Failure(load(SplitRaw(content).0.value).message)
  {
    var (raw, rest) := SplitRaw(content);
    match raw
    case None => Success((None, rest))
    case Some(block) =>
      match load(block)
      case Falsy => Success((Some(DefaultFrontMatter), rest))
      case Validated(fm) => Success((Some(fm), rest))
      case Invalid(message) => Failure(message)
  }

  /** An empty block yields the default front matter. */
  lemma EmptyBlockIsDefault(content: Bytes, load: Bytes -> Loaded)
    requires SplitRaw(content).0.Some? && load(SplitRaw(content).0.value).Falsy?
    ensures SplitFrontMatter(content, load) == Success((Some(DefaultFrontMatter), SplitRaw(content).1))
  {
  }

  /** `Markdown.load`: the document read from a stream, with its optional path. */
  function Load(content: Bytes, path: Option<Paths.Path>, load: Bytes -> Loaded): (r: Result<Markdown, string>)
    ensures r.Success? <==> SplitFrontMatter(content, load).Success?
    ensures r.Success? ==> (r.value.path == path &&
      (r.value.frontMatter, r.value.content) == SplitFrontMatter(content, load).value)
  {
    match SplitFrontMatter(content, load)
    case Success((fm, rest)) => Success(Markdown(path, fm, rest))
    case Failure(message) => Failure(message)
  }

  /** The bytes `merge_front_matter` writes. */
  function Merged(frontMatter: Option<FrontMatter>, content: Bytes, dump: FrontMatter -> Bytes): (r: Bytes)
    ensures frontMatter.None? ==> r == content
    ensures frontMatter.Some? ==> |r| >= 4 && r[..4] == Separator + [LF]
    ensures |r| >= |content| && r[|r| - |content|..] == content
  {
    match frontMatter
    case None => content
    case Some(fm) => Separator + [LF] + dump(fm) + Separator + [LF] + content
  }

  /** A binary output stream: everything written to it, in order. */
  class ByteStream {
    var written: Bytes

    constructor()
      ensures written == []
    {
      written := [];
    }

    method Write(b: Bytes)
      modifies this
      ensures written == old(written) + b
    {
      written := written + b;
    }
  }

  /** `merge_front_matter`: the block, if there is one, then the content. */
  method MergeFrontMatter(fp: ByteStream, frontMatter: Option<FrontMatter>, content: Bytes,
                          dump: FrontMatter -> Bytes)
    modifies fp
    ensures fp.written == old(fp.written) + Merged(frontMatter, content, dump)
  {
    if frontMatter.Some? {
      fp.Write(Separator);
      fp.Write([LF]);
      fp.Write(dump(frontMatter.value));
      fp.Write(Separator);
      fp.Write([LF]);
    }
    fp.Write(content);
  }

  /** `Markdown.dump_merged`. */
  method DumpMerged(md: Markdown, fp: ByteStream, dump: FrontMatter -> Bytes)
    modifies fp
    ensures fp.written == old(fp.written) + Merged(md.frontMatter, md.content, dump)
  {
    MergeFrontMatter(fp, md.frontMatter, md.content, dump);
  }

  lemma SeparatorIsSeparatorLine()
    ensures IsSeparatorLine(Separator) && NoLineBreak(Separator)
  {
    SeparatorTrailingWhitespace([]);
    assert Separator + [] == Separator;
  }

  /** The lines of a merged document: separator, YAML lines, separator, content lines. */
  lemma MergedLines(fm: FrontMatter, content: Bytes, dump: FrontMatter -> Bytes, yamlLines: seq<Bytes>)
    requires dump(fm) == Unlines(yamlLines)
    requires forall k :: 0 <= k < |yamlLines| ==> NoLineBreak(yamlLines[k])
    ensures SplitLines(Merged(Some(fm), content, dump)) ==
      [Separator] + (yamlLines + ([Separator] + SplitLines(content)))
  {
    SeparatorIsSeparatorLine();
    var open, d, closing := Separator + [LF], dump(fm), Separator + [LF] + content;
    calc {
      Merged(Some(fm), content, dump);
      ((open + d) + Separator) + [LF] + content;
      { AppendAssoc((open + d) + Separator, [LF], content); }
      ((open + d) + Separator) + ([LF] + content);
      { AppendAssoc(open + d, Separator, [LF] + content); }
      (open + d) + (Separator + ([LF] + content));
      { AppendAssoc(Separator, [LF], content); }
      (open + d) + closing;
      { AppendAssoc(open, d, closing); }
      open + (Unlines(yamlLines) + closing);
    }
    SplitLinesFirst(Separator, Unlines(yamlLines) + closing);
    SplitUnlines(yamlLines, closing);
    SplitLinesFirst(Separator, content);
  }

  /** In such lines the block closes right after the YAML lines. */
  lemma MergedBlock(yamlLines: seq<Bytes>, rest: seq<Bytes>)
    requires forall k :: 0 <= k < |yamlLines| ==> !IsSeparatorLine(yamlLines[k])
    ensures var lines := [Separator] + (yamlLines + ([Separator] + rest));
      IsSeparatorLine(lines[0]) &&
      FindSeparator(lines, 1) == Some(|yamlLines| + 1) &&
      lines[1..|yamlLines| + 1] == yamlLines &&
      lines[|yamlLines| + 2..] == rest
  {
    SeparatorIsSeparatorLine();
    var lines := [Separator] + (yamlLines + ([Separator] + rest));
    var i := |yamlLines| + 1;
    assert lines[i] == Separator;
    assert forall j :: 1 <= j < i ==> lines[j] == yamlLines[j - 1];
    assert lines[1..i] == yamlLines;
    assert lines[i + 1..] == rest;
  }

  /**
   * Splitting what was merged gives back the YAML lines and the content,
   * when the dump is a sequence of LF-terminated lines none of which is a
   * separator, and the content has no CR and does not end in LF.
   */
  lemma SplitAfterMerge(fm: FrontMatter, content: Bytes, dump: FrontMatter -> Bytes, yamlLines: seq<Bytes>)
    requires dump(fm) == Unlines(yamlLines)
    requires forall k :: 0 <= k < |yamlLines| ==> NoLineBreak(yamlLines[k])
    requires forall k :: 0 <= k < |yamlLines| ==> !IsSeparatorLine(yamlLines[k])
    requires NoCR(content) && (|content| == 0 || content[|content| - 1] != LF)
    ensures SplitRaw(Merged(Some(fm), content, dump)) == (Some(JoinLines(yamlLines)), content)
  {
    MergedLines(fm, content, dump, yamlLines);
    MergedBlock(yamlLines, SplitLines(content));
    JoinSplitLinesNormalised(content);
  }

  /**
   * With a YAML library that reads back what it dumped, loading a merged
   * document gives back its front matter and content.
   */
  lemma LoadAfterMerge(fm: FrontMatter, content: Bytes, dump: FrontMatter -> Bytes,
                       load: Bytes -> Loaded, yamlLines: seq<Bytes>)
    requires dump(fm) == Unlines(yamlLines)
    requires forall k :: 0 <= k < |yamlLines| ==> NoLineBreak(yamlLines[k])
    requires forall k :: 0 <= k < |yamlLines| ==> !IsSeparatorLine(yamlLines[k])
    requires load(JoinLines(yamlLines)) == Validated(fm)
    requires NoCR(content) && (|content| == 0 || content[|content| - 1] != LF)
    ensures Load(Merged(Some(fm), content, dump), None, load) == Success(Markdown(None, Some(fm), content))
  {
    SplitAfterMerge(fm, content, dump, yamlLines);
  }
}
