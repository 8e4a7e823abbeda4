/**
 * `fix_css_selectors` of fix_css.py as a transformation of the file's content:
 * locate the `apply_styles` method, rewrite its selector openings, double the
 * lone closing braces inside its `setStyleSheet(f"""` blocks, and splice the
 * method back. Reading and writing the file are left to the caller: `None`
 * means the file is left as it was.
 */
module CssFix {
  import opened Wrappers
  import opened Text
  import opened Selectors

  const StartMarker: string := "def apply_styles(self):"
  const NextMethodMarker: string := "\n    def "
  const OpenMarker: string := "setStyleSheet(f\"\"\""
  const CloseMarker: string := "        \"\"\")"

  // ---------------- region ----------------

  /**
   * The method region `content[start..stop]`: `start` is the first occurrence of
   * the start marker, `stop` the first `"\n    def "` after the marker, or the
   * end of the content when there is none.
   */
  function Region(content: string): (r: Option<(nat, nat)>)
    ensures r.None? <==> forall i: nat :: !OccursAt(content, StartMarker, i)
    ensures r.Some? ==>
      var (start, stop) := r.value;
      && OccursAt(content, StartMarker, start)
      && (forall i: nat :: i < start ==> !OccursAt(content, StartMarker, i))
      && start + |StartMarker| <= stop <= |content|
      && (stop == |content| || OccursAt(content, NextMethodMarker, stop))
      && (forall i: nat :: start + |StartMarker| <= i < stop ==> !OccursAt(content, NextMethodMarker, i))
  {
    var start := Find(content, StartMarker, 0);
    if start == -1 then None
    else
      var next := Find(content, NextMethodMarker, start + |StartMarker|);
      Some((start, if next == -1 then |content| else next))
  }

  // ---------------- closing-brace lines ----------------

  /** The part of `line` before `$`: all of it, or all but a final newline. */
  function WithoutFinalNewline(line: string): string {
    if |line| > 0 && line[|line| - 1] == '\n' then line[..|line| - 1] else line
  }

  /** `re.match(r'^\s+\}$', line)`: whitespace, then one `}`, then the end (or a final newline). */
  predicate IsLoneBrace(line: string) {
    var core := WithoutFinalNewline(line);
    |core| >= 2 && core[|core| - 1] == '}' && forall x :: 0 <= x < |core| - 1 ==> IsSpace(core[x])
  }

  /** `in_css_block` after a line, given its value before the line. */
  function NextFlag(inBlock: bool, line: string): bool {
    if Contains(line, OpenMarker) then true
    else if inBlock && Contains(line, CloseMarker) then false
    else inBlock
  }

  /** `in_css_block` as the loop sees it when it reaches line `n`. */
  function FlagBefore(lines: seq<string>, n: nat): bool
    requires n <= |lines|
  {
    if n == 0 then false else NextFlag(FlagBefore(lines, n - 1), lines[n - 1])
  }

  /** The loop takes its brace-doubling branch on line `i`. */
  predicate Doubled(lines: seq<string>, i: nat)
    requires i < |lines|
  {
    && !Contains(lines[i], OpenMarker)
    && !(FlagBefore(lines, i) && Contains(lines[i], CloseMarker))
    && FlagBefore(lines, i)
    && IsLoneBrace(lines[i])
  }

  /** The lines the loop produces: one per input line. */
  function BracePass(lines: seq<string>): (r: seq<string>)
    ensures |r| == |lines|
  {
    seq(|lines|, i requires 0 <= i < |lines| => if Doubled(lines, i) then DoubleBraces(lines[i]) else lines[i])
  }

  /** The line loop of fix_css.py, with its one-bit state `in_css_block`. */
  method FixClosingBraces(lines: seq<string>) returns (fixedLines: seq<string>)
    ensures fixedLines == BracePass(lines)
  {
    fixedLines := [];
    var inCssBlock := false;
    for i := 0 to |lines|
      invariant inCssBlock == FlagBefore(lines, i)
      invariant fixedLines == BracePass(lines)[..i]
    {
      var line := lines[i];
      assert BracePass(lines)[..i + 1] == BracePass(lines)[..i] + [BracePass(lines)[i]];
      assert BracePass(lines)[i] == if Doubled(lines, i) then DoubleBraces(line) else line;
      if Contains(line, OpenMarker) {
        inCssBlock := true;
        fixedLines := fixedLines + [line];
      } else if inCssBlock && Contains(line, CloseMarker) {
        inCssBlock := false;
        fixedLines := fixedLines + [line];
      } else if inCssBlock && IsLoneBrace(line) {
        fixedLines := fixedLines + [DoubleBraces(line)];
      } else {
        fixedLines := fixedLines + [line];
      }
    }
  }

  /** Nothing but whitespace and closing braces. */
  predicate BlankOrBraces(s: string) {
    forall x :: 0 <= x < |s| ==> IsSpace(s[x]) || s[x] == '}'
  }

  /** Text made of whitespace and closing braces holds neither block marker. */
  lemma NoMarkerIn(s: string)
    requires BlankOrBraces(s)
    ensures !Contains(s, OpenMarker) && !Contains(s, CloseMarker)
  {
    forall i: nat
      ensures !OccursAt(s, OpenMarker, i)
    {
      if i + |OpenMarker| <= |s| {
        assert s[i..i + |OpenMarker|][0] == s[i] != OpenMarker[0];
      }
    }
    forall i: nat
      ensures !OccursAt(s, CloseMarker, i)
    {
      if i + |CloseMarker| <= |s| {
        assert s[i..i + |CloseMarker|][8] == s[i + 8] != CloseMarker[8];
      }
    }
    ContainsIff(s, OpenMarker);
    ContainsIff(s, CloseMarker);
  }

  /** A lone closing-brace line is whitespace, one `}` and possibly the final newline `$` allows. */
  lemma LoneBraceParts(line: string) returns (blank: string, tail: string)
    requires IsLoneBrace(line)
    ensures line == blank + "}" + tail
    ensures blank != [] && AllIn(Space, blank, 0, |blank|) && (tail == [] || tail == "\n")
  {
    var n := if line[|line| - 1] == '\n' then |line| - 1 else |line|;
    blank, tail := line[..n - 1], line[n..];
    assert line == blank + "}" + tail;
    forall x | 0 <= x < |blank| ensures IsSpace(blank[x]) {
      assert blank[x] == line[x];
    }
  }

  /** Whitespace, some closing braces, and possibly a newline: what a lone brace becomes. */
  lemma BracedLine(blank: string, braces: string, tail: string)
    requires AllIn(Space, blank, 0, |blank|) && (tail == [] || tail == "\n")
    requires braces == "}" || braces == "}}"
    ensures BlankOrBraces(blank + braces + tail)
    ensures IsLoneBrace(blank + braces + tail) <==> blank != [] && braces == "}"
  {
    var line := blank + braces + tail;
    forall x | 0 <= x < |line| ensures IsSpace(line[x]) || line[x] == '}' {
      if x < |blank| {
        assert line[x] == blank[x];
      }
    }
    var core := WithoutFinalNewline(line);
    assert core == blank + braces;
    if braces == "}}" {
      assert |core| >= 2 && core[|core| - 2] == '}' && !IsSpace('}');
      assert !(forall x :: 0 <= x < |core| - 1 ==> IsSpace(core[x]));
      assert !IsLoneBrace(line);
    } else if blank != [] {
      forall x | 0 <= x < |core| - 1 ensures IsSpace(core[x]) {
        assert core[x] == blank[x];
      }
    }
  }

  /** Doubling the braces of whitespace, one `}` and a tail doubles that one brace. */
  lemma DoubleLoneBrace(blank: string, tail: string)
    requires AllIn(Space, blank, 0, |blank|) && (tail == [] || tail == "\n")
    ensures DoubleBraces(blank + "}" + tail) == blank + "}}" + tail
  {
    assert '}' !in blank by {
      forall x | 0 <= x < |blank| ensures blank[x] != '}' {
        assert IsSpace(blank[x]);
      }
    }
    DoubleBracesNoBrace(blank);
    DoubleBracesNoBrace(tail);
    DoubleBracesAppend(blank + "}", tail);
    DoubleBracesAppend(blank, "}");
    assert DoubleBraces("}") == "}}";
  }

  /** A lone closing-brace line is made of whitespace and closing braces only. */
  lemma LoneBraceBlank(line: string)
    requires IsLoneBrace(line)
    ensures BlankOrBraces(line)
  {
    var blank, tail := LoneBraceParts(line);
    BracedLine(blank, "}", tail);
  }

  /** Doubling a lone closing-brace line gives whitespace and closing braces that are no longer a lone brace. */
  lemma LoneBraceDoubling(line: string)
    requires IsLoneBrace(line)
    ensures BlankOrBraces(DoubleBraces(line)) && !IsLoneBrace(DoubleBraces(line))
  {
    var blank, tail := LoneBraceParts(line);
    DoubleLoneBrace(blank, tail);
    BracedLine(blank, "}}", tail);
  }

  /** On a line without a newline, doubling a lone closing brace appends one `}`. */
  lemma LoneBraceGrows(line: string)
    requires IsLoneBrace(line) && '\n' !in line
    ensures DoubleBraces(line) == line + "}"
  {
    var blank, tail := LoneBraceParts(line);
    DoubleLoneBrace(blank, tail);
    assert tail == [];
    assert blank + "}}" == line + "}";
  }

  /** The loop doubles line `i` exactly when it is a lone closing brace inside a CSS block. */
  lemma DoubledIff(lines: seq<string>, i: nat)
    requires i < |lines|
    ensures Doubled(lines, i) <==> FlagBefore(lines, i) && IsLoneBrace(lines[i])
  {
    if IsLoneBrace(lines[i]) {
      LoneBraceBlank(lines[i]);
      NoMarkerIn(lines[i]);
    }
  }

  /**
   * The brace pass changes line `i` exactly when it is a lone closing brace
   * inside a CSS block, and then writes the same line with `}}`. Lines outside
   * the blocks, the marker lines themselves and a `}` without leading
   * whitespace are copied.
   */
  lemma BracePassAt(lines: seq<string>, i: nat)
    requires i < |lines| && '\n' !in lines[i]
    ensures BracePass(lines)[i] != lines[i] <==> FlagBefore(lines, i) && IsLoneBrace(lines[i])
    ensures BracePass(lines)[i] != lines[i] ==> BracePass(lines)[i] == lines[i] + "}"
  {
    DoubledIff(lines, i);
    if IsLoneBrace(lines[i]) {
      LoneBraceGrows(lines[i]);
      assert lines[i] + "}" != lines[i] by {
        assert |lines[i] + "}"| == |lines[i]| + 1;
      }
    }
  }

  /** Neither a lone brace line nor its doubled form moves `in_css_block`. */
  lemma LoneBraceKeepsFlag(inBlock: bool, line: string)
    requires IsLoneBrace(line)
    ensures NextFlag(inBlock, line) == inBlock
    ensures NextFlag(inBlock, DoubleBraces(line)) == inBlock
  {
    LoneBraceBlank(line);
    NoMarkerIn(line);
    LoneBraceDoubling(line);
    NoMarkerIn(DoubleBraces(line));
  }

  /** A line of the brace pass moves `in_css_block` exactly as the line it came from. */
  lemma BracePassLineFlag(lines: seq<string>, i: nat, inBlock: bool)
    requires i < |lines|
    ensures NextFlag(inBlock, BracePass(lines)[i]) == NextFlag(inBlock, lines[i])
  {
    if Doubled(lines, i) {
      assert BracePass(lines)[i] == DoubleBraces(lines[i]);
      LoneBraceKeepsFlag(inBlock, lines[i]);
    } else {
      assert BracePass(lines)[i] == lines[i];
    }
  }

  /** The brace pass leaves every `in_css_block` value as it was. */
  lemma {:induction false} BracePassKeepsFlags(lines: seq<string>, n: nat)
    requires n <= |lines|
    ensures FlagBefore(BracePass(lines), n) == FlagBefore(lines, n)
  {
    if n > 0 {
      BracePassKeepsFlags(lines, n - 1);
      BracePassLineFlag(lines, n - 1, FlagBefore(lines, n - 1));
    }
  }

  /** The brace pass is idempotent: a doubled `}}` line is not a lone brace any more. */
  lemma BracePassIdempotent(lines: seq<string>)
    ensures BracePass(BracePass(lines)) == BracePass(lines)
  {
    var once := BracePass(lines);
    forall i | 0 <= i < |lines|
      ensures BracePass(once)[i] == once[i]
    {
      BracePassKeepsFlags(lines, i);
      if Doubled(lines, i) {
        LoneBraceDoubling(lines[i]);
        assert !Doubled(once, i);
      } else {
        assert !Doubled(once, i);
      }
    }
  }

  /** The brace pass writes no newline into a line. */
  lemma BracePassNoNewlines(lines: seq<string>)
    requires forall k :: 0 <= k < |lines| ==> '\n' !in lines[k]
    ensures forall k :: 0 <= k < |lines| ==> '\n' !in BracePass(lines)[k]
  {
    forall k | 0 <= k < |lines|
      ensures '\n' !in BracePass(lines)[k]
    {
      DoubleBracesNoNewline(lines[k]);
    }
  }

  /** The brace pass on text: split on newlines, fix the lines, join them again. */
  function FixBraceLines(text: string): string {
    Join(BracePass(Split(text)))
  }

  /** The text's lines after the brace pass are the fixed lines: one output line per input line. */
  lemma FixBraceLinesSplit(text: string)
    ensures Split(FixBraceLines(text)) == BracePass(Split(text))
    ensures |Split(FixBraceLines(text))| == |Split(text)|
  {
    BracePassNoNewlines(Split(text));
    SplitJoin(BracePass(Split(text)));
  }

  /** Fixing the closing braces of a text twice is the same as fixing them once. */
  lemma FixBraceLinesIdempotent(text: string)
    ensures FixBraceLines(FixBraceLines(text)) == FixBraceLines(text)
  {
    FixBraceLinesSplit(text);
    BracePassIdempotent(Split(text));
  }

  /** The whole rewrite of the method region. */
  function FixRegion(region: string): string {
    FixBraceLines(SubAll(CssPatterns, region))
  }

  // ---------------- the whole fixer ----------------

  /** The fixer's loop over its selector patterns: one `re.sub` per pattern, in order. */
  method SubstituteSelectors(patterns: seq<Pattern>, text: string) returns (fixedText: string)
    ensures fixedText == SubAll(patterns, text)
  {
    fixedText := text;
    for k := 0 to |patterns|
      invariant fixedText == SubAll(patterns[..k], text)
    {
      assert patterns[..k + 1][..k] == patterns[..k];
      fixedText := Sub(patterns[k], fixedText);
    }
    assert patterns[..|patterns|] == patterns;
  }

  /** Putting a middle between two pieces keeps both pieces at the ends. */
  lemma SpliceKeepsEnds(before: string, middle: string, after: string)
    ensures (before + middle + after)[..|before|] == before
    ensures (before + middle + after)[|before + middle + after| - |after|..] == after
  {
  }

  /**
   * What `fix_css_selectors` makes of the file's content: `None` when the start
   * marker is missing (nothing is written), otherwise the new content, in which
   * only the method region has changed.
   */
  function FixedContent(content: string): (r: Option<string>)
    ensures r.None? <==> forall i: nat :: !OccursAt(content, StartMarker, i)
    ensures r.Some? ==>
      && Region(content).Some?
      && var (start, stop) := Region(content).value;
      && |r.value| == start + |FixRegion(content[start..stop])| + (|content| - stop)
      && r.value[..start] == content[..start]
      && r.value[|r.value| - (|content| - stop)..] == content[stop..]
  {
    match Region(content)
    case None => None
    case Some((start, stop)) =>
      var fixed := FixRegion(content[start..stop]);
      SpliceKeepsEnds(content[..start], fixed, content[stop..]);
      Some(content[..start] + fixed + content[stop..])
  }

  /** The selector rewrites, then the closing-brace pass over the region's lines. */
  method FixMethodRegion(methodContent: string) returns (fixedMethod: string)
    ensures fixedMethod == FixRegion(methodContent)
  {
    fixedMethod := SubstituteSelectors(CssPatterns, methodContent);
    var lines := Split(fixedMethod);
    var fixedLines := FixClosingBraces(lines);
    fixedMethod := Join(fixedLines);
  }

  /** The fixed content once the region is known. */
  lemma FixedContentAt(content: string, start: nat, stop: nat)
    requires start == Find(content, StartMarker, 0)
    requires var next := Find(content, NextMethodMarker, start + |StartMarker|);
      stop == if next == -1 then |content| else next
    ensures Region(content) == Some((start, stop)) && start <= stop <= |content|
    ensures FixedContent(content) == Some(content[..start] + FixRegion(content[start..stop]) + content[stop..])
  {
  }

  /** `fix_css_selectors` on the file's content, step by step as the script does it. */
  method FixCssSelectors(content: string) returns (result: Option<string>)
    ensures result == FixedContent(content)
  {
    var startIdx := Find(content, StartMarker, 0);
    if startIdx == -1 {
      assert Region(content).None?;
      return None;
    }
    var nextIdx := Find(content, NextMethodMarker, startIdx + |StartMarker|);
    if nextIdx == -1 {
      nextIdx := |content|;
    }
    var methodContent := content[startIdx..nextIdx];

    var fixedMethod := FixMethodRegion(methodContent);
    result := Some(content[..startIdx] + fixedMethod + content[nextIdx..]);
    FixedContentAt(content, startIdx, nextIdx);
  }
}
