/**
 * The six selector substitutions of the CSS fixer. Every pattern has the shape
 *
 *     (\s+)(WIDGET#[a-zA-Z][a-zA-Z0-9_-]*PSEUDO)\s+\{([^{])   ->   \1\2 {{\3
 *
 * where WIDGET is a literal type name (possibly empty) and PSEUDO is nothing,
 * `:[a-zA-Z]+` or `::[a-zA-Z]+`. No part of that shape can give back characters
 * to the next part (each run is followed by a character outside its class), so
 * `re.sub` is the left-to-right scanner `SubFrom` below: at each position try the
 * one possible match; on success emit the replacement and resume after it,
 * otherwise copy one character.
 */
module Selectors {
  import opened Wrappers
  import opened Text

  predicate IsAsciiLetter(c: char) {
    'a' <= c <= 'z' || 'A' <= c <= 'Z'
  }

  /** `[a-zA-Z0-9_-]` */
  predicate IsIdentChar(c: char) {
    IsAsciiLetter(c) || '0' <= c <= '9' || c == '_' || c == '-'
  }

  /** The character classes the patterns repeat greedily. */
  datatype CharClass = Space | Letter | Ident

  predicate InClass(k: CharClass, c: char) {
    match k
    case Space => IsSpace(c)
    case Letter => IsAsciiLetter(c)
    case Ident => IsIdentChar(c)
  }

  /** End of the longest run of `k` characters starting at `i` (a greedy `*`). */
  function RunEnd(k: CharClass, s: string, i: nat): (j: nat)
    requires i <= |s|
    ensures i <= j <= |s|
    ensures forall x :: i <= x < j ==> InClass(k, s[x])
    ensures j == |s| || !InClass(k, s[j])
    decreases |s| - i
  {
    if i < |s| && InClass(k, s[i]) then RunEnd(k, s, i + 1) else i
  }

  /** What may follow the id of a selector. */
  datatype Pseudo =
    | NoPseudo     // nothing
    | PseudoState  // `:[a-zA-Z]+`, e.g. `:hover`
    | SubControl   // `::[a-zA-Z]+`, e.g. `::chunk`

  datatype Pattern = Pattern(widget: string, pseudo: Pseudo)

  /** The six patterns, in the order the fixer applies them. */
  const CssPatterns: seq<Pattern> := [
    Pattern("", NoPseudo),
    Pattern("QPushButton", NoPseudo),
    Pattern("QPushButton", PseudoState),
    Pattern("QProgressBar", NoPseudo),
    Pattern("QProgressBar", SubControl),
    Pattern("QCheckBox", NoPseudo)
  ]

  /** `[a-zA-Z]+` at `i`: where it ends, if at least one letter is there. */
  function Letters(s: string, i: nat): (r: Option<nat>)
    requires i <= |s|
  {
    var e := RunEnd(Letter, s, i);
    if e > i then Some(e) else None
  }

  /** `WIDGET#[a-zA-Z][a-zA-Z0-9_-]*` read from index `j`: where the id ends, if it is there. */
  function IdEnd(widget: string, s: string, j: nat): (r: Option<nat>)
    requires j <= |s|
    ensures r.Some? ==> j + |widget| + 2 <= r.value <= |s|
  {
    var h := j + |widget|;
    if !OccursAt(s, widget + "#", j) || h + 1 >= |s| || !IsAsciiLetter(s[h + 1]) then None
    else Some(RunEnd(Ident, s, h + 2))
  }

  /** The pseudo-state or sub-control suffix read from index `k`: where it ends, if it is there. */
  function PseudoEnd(pseudo: Pseudo, s: string, k: nat): (r: Option<nat>)
    requires k <= |s|
    ensures r.Some? ==> k <= r.value <= |s|
  {
    match pseudo
    case NoPseudo => Some(k)
    case PseudoState => if k < |s| && s[k] == ':' then Letters(s, k + 1) else None
    case SubControl => if k + 1 < |s| && s[k] == ':' && s[k + 1] == ':' then Letters(s, k + 2) else None
  }

  /** Group 2 of pattern `p` read from index `j`: where the selector ends, if it is there. */
  function SelectorEnd(p: Pattern, s: string, j: nat): (r: Option<nat>)
    requires j <= |s|
    ensures r.Some? ==> j + |p.widget| + 2 <= r.value <= |s|
  {
    match IdEnd(p.widget, s, j)
    case None => None
    case Some(k) => PseudoEnd(p.pseudo, s, k)
  }

  /**
   * One match of a pattern: group 1 and group 2 span `[start, selectorEnd)`, the
   * opening brace is at `end - 2` and group 3 is the single character at `end - 1`.
   */
  datatype Match = Match(selectorEnd: nat, end: nat)

  /** The match of `p` that starts at `i`, if there is one. */
  function MatchAt(p: Pattern, s: string, i: nat): (r: Option<Match>)
    requires i <= |s|
    ensures r.Some? ==> i < |s| && IsSpace(s[i])
    ensures r.Some? ==> i < r.value.selectorEnd < r.value.end - 1 && r.value.end <= |s|
    ensures r.Some? ==> forall x :: r.value.selectorEnd <= x < r.value.end - 2 ==> IsSpace(s[x])
    ensures r.Some? ==> s[r.value.end - 2] == '{' && s[r.value.end - 1] != '{'
  {
    var j := RunEnd(Space, s, i);
    if j == i then None
    else match SelectorEnd(p, s, j)
      case None => None
      case Some(m) =>
        var w := RunEnd(Space, s, m);
        if w == m || w + 1 >= |s| || s[w] != '{' || s[w + 1] == '{' then None
        else Some(Match(m, w + 2))
  }

  /** Every character of `s[a..b]` is in class `k`. */
  predicate AllIn(k: CharClass, s: string, a: nat, b: nat) {
    a <= b <= |s| && forall x :: a <= x < b ==> InClass(k, s[x])
  }

  /** The widget of a pattern is a type name: letters only. */
  predicate LiteralWidget(p: Pattern) {
    forall x :: 0 <= x < |p.widget| ==> IsAsciiLetter(p.widget[x])
  }

  /** The fixer's six patterns all name their widget by a type name. */
  lemma CssPatternsLiteral()
    ensures forall p :: p in CssPatterns ==> LiteralWidget(p)
  {
  }

  /** PSEUDO spans exactly `s[k..e]`. */
  predicate PseudoShape(pseudo: Pseudo, s: string, k: nat, e: nat) {
    match pseudo
    case NoPseudo => k == e
    case PseudoState => k + 1 < e <= |s| && s[k] == ':' && AllIn(Letter, s, k + 1, e)
    case SubControl => k + 2 < e <= |s| && s[k] == ':' && s[k + 1] == ':' && AllIn(Letter, s, k + 2, e)
  }

  /** Group 2, `WIDGET#[a-zA-Z][a-zA-Z0-9_-]*PSEUDO`, spans exactly `s[j..e]`. */
  ghost predicate SelectorShape(p: Pattern, s: string, j: nat, e: nat) {
    var h := j + |p.widget|;
    h + 1 < e <= |s| && OccursAt(s, p.widget + "#", j) && IsAsciiLetter(s[h + 1])
    && exists k :: h + 2 <= k <= e && AllIn(Ident, s, h + 2, k) && PseudoShape(p.pseudo, s, k, e)
  }

  /**
   * `(\s+)(SELECTOR)\s+\{([^{])` spans exactly `s[i..m.end]`, with group 2
   * ending at `m.selectorEnd`: the regular expression read as a shape, with no
   * greedy runs in it.
   */
  ghost predicate MatchShape(p: Pattern, s: string, i: nat, m: Match) {
    m.selectorEnd + 3 <= m.end <= |s|
    && (exists j :: i < j && AllIn(Space, s, i, j) && SelectorShape(p, s, j, m.selectorEnd))
    && AllIn(Space, s, m.selectorEnd, m.end - 2)
    && s[m.end - 2] == '{' && s[m.end - 1] != '{'
  }

  /** A run of `k` characters that something outside `k` (or the end) stops is what `RunEnd` finds. */
  lemma {:induction false} RunEndAt(k: CharClass, s: string, i: nat, j: nat)
    requires AllIn(k, s, i, j) && (j == |s| || !InClass(k, s[j]))
    ensures RunEnd(k, s, i) == j
    decreases j - i
  {
    if i < j {
      RunEndAt(k, s, i + 1, j);
    }
  }

  /** What `SelectorEnd` reads has the selector's shape. */
  lemma SelectorEndSound(p: Pattern, s: string, j: nat, e: nat)
    requires j <= |s| && SelectorEnd(p, s, j) == Some(e)
    ensures SelectorShape(p, s, j, e)
  {
    var h := j + |p.widget|;
    var k := IdEnd(p.widget, s, j).value;
    assert k == RunEnd(Ident, s, h + 2) && AllIn(Ident, s, h + 2, k);
    assert PseudoShape(p.pseudo, s, k, e);
  }

  /** What `MatchAt` finds has the shape of the pattern. */
  lemma MatchAtSound(p: Pattern, s: string, i: nat)
    requires i <= |s| && MatchAt(p, s, i).Some?
    ensures MatchShape(p, s, i, MatchAt(p, s, i).value)
  {
    var m := MatchAt(p, s, i).value;
    var j := RunEnd(Space, s, i);
    assert SelectorEnd(p, s, j) == Some(m.selectorEnd) && m.end - 2 == RunEnd(Space, s, m.selectorEnd);
    SelectorEndSound(p, s, j, m.selectorEnd);
    assert AllIn(Space, s, i, j);
  }

  /** A suffix of the pseudo's shape that a non-letter stops is what `PseudoEnd` reads. */
  lemma PseudoEndAt(pseudo: Pseudo, s: string, k: nat, e: nat)
    requires k <= e < |s| && PseudoShape(pseudo, s, k, e) && !IsAsciiLetter(s[e])
    ensures PseudoEnd(pseudo, s, k) == Some(e)
    ensures k == e || s[k] == ':'
  {
    match pseudo {
      case NoPseudo =>
      case PseudoState => RunEndAt(Letter, s, k + 1, e);
      case SubControl => RunEndAt(Letter, s, k + 2, e);
    }
  }

  /** An id of the pattern's shape that a non-ident character stops is what `IdEnd` reads. */
  lemma IdEndAt(widget: string, s: string, j: nat, k: nat)
    requires j + |widget| + 2 <= k < |s| && OccursAt(s, widget + "#", j)
    requires IsAsciiLetter(s[j + |widget| + 1]) && AllIn(Ident, s, j + |widget| + 2, k) && !IsIdentChar(s[k])
    ensures IdEnd(widget, s, j) == Some(k)
  {
    RunEndAt(Ident, s, j + |widget| + 2, k);
  }

  /** A selector of the pattern's shape that whitespace stops is what `SelectorEnd` reads. */
  lemma SelectorEndAt(p: Pattern, s: string, j: nat, e: nat)
    requires e < |s| && SelectorShape(p, s, j, e) && IsSpace(s[e])
    ensures SelectorEnd(p, s, j) == Some(e)
  {
    var h := j + |p.widget|;
    var k :| h + 2 <= k <= e && AllIn(Ident, s, h + 2, k) && PseudoShape(p.pseudo, s, k, e);
    PseudoEndAt(p.pseudo, s, k, e);
    IdEndAt(p.widget, s, j, k);
  }

  /** The group 1 run of a match of the pattern's shape ends where its selector begins. */
  lemma LeadingSpaceEnd(p: Pattern, s: string, i: nat, e: nat) returns (j: nat)
    requires LiteralWidget(p)
    requires exists j :: i < j && AllIn(Space, s, i, j) && SelectorShape(p, s, j, e)
    ensures i < j && RunEnd(Space, s, i) == j && SelectorShape(p, s, j, e)
  {
    j :| i < j && AllIn(Space, s, i, j) && SelectorShape(p, s, j, e);
    assert !IsSpace(s[j]) by {
      assert s[j..j + |p.widget| + 1] == p.widget + "#";
      assert s[j] == (p.widget + "#")[0];
    }
    RunEndAt(Space, s, i, j);
  }

  /** The whitespace before the opening brace of a match of the pattern's shape ends at the brace. */
  lemma BraceSpaceEnd(s: string, e: nat, end: nat)
    requires e + 3 <= end <= |s| && AllIn(Space, s, e, end - 2) && s[end - 2] == '{'
    ensures RunEnd(Space, s, e) == end - 2
  {
    RunEndAt(Space, s, e, end - 2);
  }

  /** `MatchAt` read off the ends of its parts. */
  lemma MatchAtParts(p: Pattern, s: string, i: nat, j: nat, m: Match)
    requires i < j <= |s| && RunEnd(Space, s, i) == j && SelectorEnd(p, s, j) == Some(m.selectorEnd)
    requires m.selectorEnd + 3 <= m.end <= |s| && RunEnd(Space, s, m.selectorEnd) == m.end - 2
    requires s[m.end - 2] == '{' && s[m.end - 1] != '{'
    ensures MatchAt(p, s, i) == Some(m)
  {
  }

  /** The match `MatchAt` finds once group 1 is known to end at `j`. */
  lemma MatchAtAfterSpace(p: Pattern, s: string, i: nat, j: nat, m: Match)
    requires i < j <= |s| && RunEnd(Space, s, i) == j && SelectorShape(p, s, j, m.selectorEnd)
    requires m.selectorEnd + 3 <= m.end <= |s| && AllIn(Space, s, m.selectorEnd, m.end - 2)
    requires s[m.end - 2] == '{' && s[m.end - 1] != '{'
    ensures MatchAt(p, s, i) == Some(m)
  {
    SelectorEndAt(p, s, j, m.selectorEnd);
    BraceSpaceEnd(s, m.selectorEnd, m.end);
    MatchAtParts(p, s, i, j, m);
  }

  /** Every occurrence of the pattern's shape at `i` is the match `MatchAt` finds there. */
  lemma MatchAtComplete(p: Pattern, s: string, i: nat, m: Match)
    requires i <= |s| && LiteralWidget(p) && MatchShape(p, s, i, m)
    ensures MatchAt(p, s, i) == Some(m)
  {
    var j := LeadingSpaceEnd(p, s, i, m.selectorEnd);
    MatchAtAfterSpace(p, s, i, j, m);
  }

  /** The text `\1\2 {{\3` that replaces a match. */
  function Replacement(s: string, i: nat, m: Match): string
    requires i <= m.selectorEnd < m.end <= |s|
  {
    s[i..m.selectorEnd] + " {{" + [s[m.end - 1]]
  }

  /** `re.sub(p, r'\1\2 {{\3', s[i..])`, scanning from index `i`. */
  function SubFrom(p: Pattern, s: string, i: nat): (r: string)
    requires i <= |s|
    ensures (forall x :: i <= x < |s| ==> s[x] != '{') ==> r == s[i..]
    decreases |s| - i
  {
    if i == |s| then []
    else match MatchAt(p, s, i)
      case Some(m) => Replacement(s, i, m) + SubFrom(p, s, m.end)
      case None => [s[i]] + SubFrom(p, s, i + 1)
  }

  /** Where the pattern matches nowhere, `re.sub` returns the text unchanged. */
  lemma {:induction false} SubFromNoMatch(p: Pattern, s: string, i: nat)
    requires i <= |s|
    requires forall x :: i <= x < |s| ==> MatchAt(p, s, x).None?
    ensures SubFrom(p, s, i) == s[i..]
    decreases |s| - i
  {
    if i < |s| {
      SubFromNoMatch(p, s, i + 1);
      assert s[i..] == [s[i]] + s[i + 1..];
    }
  }

  /** `re.sub(p, r'\1\2 {{\3', s)`. */
  function Sub(p: Pattern, s: string): string {
    SubFrom(p, s, 0)
  }

  /** The patterns `ps` applied one after the other, as the fixer's `for` loop does. */
  function SubAll(ps: seq<Pattern>, s: string): string
    decreases |ps|
  {
    if ps == [] then s else Sub(ps[|ps| - 1], SubAll(ps[..|ps| - 1], s))
  }

  /** A greedy run is decided by the characters it covers and the one that stops it. */
  lemma {:induction false} RunEndAgree(k: CharClass, s: string, t: string, i: nat)
    requires i <= |s| && i <= |t|
    requires RunEnd(k, s, i) < |t| && !InClass(k, t[RunEnd(k, s, i)])
    requires forall x :: i <= x < RunEnd(k, s, i) ==> x < |t| && t[x] == s[x]
    ensures RunEnd(k, t, i) == RunEnd(k, s, i)
    decreases |s| - i
  {
    if i < |s| && InClass(k, s[i]) {
      RunEndAgree(k, s, t, i + 1);
    }
  }

  /** An id read from `j` is read again from any text that agrees with it up to the id's end and stops it there. */
  lemma IdEndAgree(widget: string, s: string, t: string, j: nat, k: nat)
    requires j <= |s| && j <= |t|
    requires IdEnd(widget, s, j) == Some(k)
    requires k < |t| && !IsIdentChar(t[k])
    requires forall x :: j <= x < k ==> t[x] == s[x]
    ensures IdEnd(widget, t, j) == Some(k)
  {
    var h := j + |widget|;
    assert t[j..h + 1] == s[j..h + 1];
    RunEndAgree(Ident, s, t, h + 2);
  }

  /** A suffix read from `k` is read again from any text that agrees with it up to the suffix's end and stops it there. */
  lemma PseudoEndAgree(pseudo: Pseudo, s: string, t: string, k: nat, e: nat)
    requires k <= |s| && k <= |t|
    requires PseudoEnd(pseudo, s, k) == Some(e)
    requires e < |t| && IsSpace(t[e])
    requires forall x :: k <= x < e ==> t[x] == s[x]
    ensures PseudoEnd(pseudo, t, k) == Some(e)
  {
    match pseudo {
      case NoPseudo =>
      case PseudoState =>
        RunEndAgree(Letter, s, t, k + 1);
      case SubControl =>
        RunEndAgree(Letter, s, t, k + 2);
    }
  }

  /** A selector read from `j` is found again in any text that agrees up to its end and has a space there. */
  lemma SelectorEndAgree(p: Pattern, s: string, t: string, j: nat, e: nat)
    requires j <= |s| && j <= |t|
    requires SelectorEnd(p, s, j) == Some(e)
    requires e < |t| && IsSpace(t[e])
    requires forall x :: j <= x < e ==> t[x] == s[x]
    ensures SelectorEnd(p, t, j) == Some(e)
  {
    var k := IdEnd(p.widget, s, j).value;
    assert k <= e;
    assert !IsIdentChar(t[k]) by {
      if k < e {
        assert PseudoEnd(p.pseudo, s, k).Some?;
        assert t[k] == s[k] == ':';
      }
    }
    IdEndAgree(p.widget, s, t, j, k);
    PseudoEndAgree(p.pseudo, s, t, k, e);
  }

  /** The text after one replacement agrees with the old text up to the selector's end, then reads ` {{`. */
  lemma ReplacedText(s: string, i: nat, m: Match) returns (t: string)
    requires i <= m.selectorEnd < m.end <= |s|
    ensures t == s[..i] + Replacement(s, i, m) + s[m.end..]
    ensures |t| >= m.selectorEnd + 4
    ensures forall x :: 0 <= x < m.selectorEnd ==> t[x] == s[x]
    ensures t[m.selectorEnd] == ' ' && t[m.selectorEnd + 1] == '{' && t[m.selectorEnd + 2] == '{'
  {
    t := s[..i] + Replacement(s, i, m) + s[m.end..];
    assert t == s[..m.selectorEnd] + " {{" + [s[m.end - 1]] + s[m.end..];
  }

  /**
   * A selector opening once rewritten is not rewritten again: where a pattern
   * matched, the same pattern no longer matches the replaced text, because the
   * brace is now followed by a second brace.
   */
  lemma RewrittenSelectorStable(p: Pattern, s: string, i: nat)
    requires i <= |s| && MatchAt(p, s, i).Some?
    ensures var m := MatchAt(p, s, i).value;
      MatchAt(p, s[..i] + Replacement(s, i, m) + s[m.end..], i).None?
  {
    var m := MatchAt(p, s, i).value;
    var e := m.selectorEnd;
    var t := ReplacedText(s, i, m);
    var j := RunEnd(Space, s, i);
    assert SelectorEnd(p, s, j) == Some(e) && j < e && !IsSpace(t[j]);
    RunEndAgree(Space, s, t, i);
    SelectorEndAgree(p, s, t, j, e);
    assert RunEnd(Space, t, e + 1) == e + 1;
    assert RunEnd(Space, t, e) == e + 1;
  }
}
