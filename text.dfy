/**
 * The few Python string operations the CSS fixer relies on, with the meaning
 * CPython gives them: `str.find`, `str.split('\n')`, `'\n'.join(...)`,
 * `str.replace('}', '}}')` and the `\s` character class of `re` on str patterns.
 */
module Text {

  /** `\s` in a str pattern: exactly the characters for which `str.isspace()` holds. */
  predicate IsSpace(c: char) {
    || ('\t' <= c <= '\r')
    || ('\U{1c}' <= c <= '\U{1f}')
    || c == ' '
    || c == '\U{85}'
    || c == '\U{a0}'
    || c == '\U{1680}'
    || ('\U{2000}' <= c <= '\U{200a}')
    || c == '\U{2028}'
    || c == '\U{2029}'
    || c == '\U{202f}'
    || c == '\U{205f}'
    || c == '\U{3000}'
  }

  /** `pat` occurs in `s` starting at index `i`. */
  predicate OccursAt(s: string, pat: string, i: nat) {
    i + |pat| <= |s| && s[i..i + |pat|] == pat
  }

  /**
   * `s.find(pat, from)`: the lowest index at or after `from` where `pat` occurs,
   * or -1 when there is none (also when `from` lies beyond the end of `s`).
   */
  function Find(s: string, pat: string, from: nat): (r: int)
    ensures r == -1 || (from <= r && OccursAt(s, pat, r))
    ensures forall i: nat :: from <= i && (r == -1 || i < r) ==> !OccursAt(s, pat, i)
    decreases |s| - from
  {
    if from + |pat| > |s| then -1
    else if OccursAt(s, pat, from) then from
    else Find(s, pat, from + 1)
  }

  /** `pat` occurs in `s` at index `i` or later. */
  predicate ContainsFrom(s: string, pat: string, i: nat)
    decreases |s| - i
  {
    i + |pat| <= |s| && (OccursAt(s, pat, i) || ContainsFrom(s, pat, i + 1))
  }

  /** `pat in s`. */
  predicate Contains(s: string, pat: string) {
    ContainsFrom(s, pat, 0)
  }

  lemma {:induction false} ContainsFromIff(s: string, pat: string, i: nat)
    ensures ContainsFrom(s, pat, i) <==> exists j: nat :: i <= j && OccursAt(s, pat, j)
    decreases |s| - i
  {
    if i + |pat| <= |s| {
      ContainsFromIff(s, pat, i + 1);
      if exists j: nat :: i <= j && OccursAt(s, pat, j) {
        var j: nat :| i <= j && OccursAt(s, pat, j);
        if j > i {
          assert i + 1 <= j;
        }
      }
    } else {
      forall j: nat | i <= j
        ensures !OccursAt(s, pat, j)
      {
      }
    }
  }

  /** `pat in s` holds exactly when `pat` occurs somewhere in `s`. */
  lemma ContainsIff(s: string, pat: string)
    ensures Contains(s, pat) <==> exists i: nat :: OccursAt(s, pat, i)
  {
    ContainsFromIff(s, pat, 0);
  }

  /** `s.split('\n')`: the pieces between newlines; there is always at least one. */
  function Split(s: string): (lines: seq<string>)
    ensures |lines| >= 1
    ensures forall k :: 0 <= k < |lines| ==> '\n' !in lines[k]
  {
    if s == [] then [[]]
    else
      var rest := Split(s[1..]);
      if s[0] == '\n' then [[]] + rest else [[s[0]] + rest[0]] + rest[1..]
  }

  /** `'\n'.join(lines)`. */
  function Join(lines: seq<string>): string
    requires |lines| >= 1
  {
    if |lines| == 1 then lines[0] else lines[0] + "\n" + Join(lines[1..])
  }

  /** Joining the pieces of a split gives back the string. */
  lemma {:induction false} JoinSplit(s: string)
    ensures Join(Split(s)) == s
  {
    if s != [] {
      var rest := Split(s[1..]);
      JoinSplit(s[1..]);
      if s[0] != '\n' && |rest| > 1 {
        assert Join(rest) == rest[0] + "\n" + Join(rest[1..]);
        var lines := [[s[0]] + rest[0]] + rest[1..];
        assert lines[1..] == rest[1..];
        assert Join(lines) == [s[0]] + rest[0] + "\n" + Join(rest[1..]);
      }
      assert s == [s[0]] + s[1..];
    }
  }

  /** Splitting a string that starts with a newline-free `line` extends the first piece by `line`. */
  lemma {:induction false} SplitAfterLine(line: string, t: string)
    requires '\n' !in line
    ensures Split(line + t) == [line + Split(t)[0]] + Split(t)[1..]
  {
    if line != [] {
      SplitAfterLine(line[1..], t);
      assert (line + t)[1..] == line[1..] + t;
      assert (line + t)[0] == line[0];
      assert [line[0]] + (line[1..] + Split(t)[0]) == line + Split(t)[0];
    } else {
      var lines := Split(t);
      assert line + t == t;
      assert line + lines[0] == lines[0];
      assert lines == [lines[0]] + lines[1..];
    }
  }

  /** Splitting the join of newline-free lines gives back the lines. */
  lemma {:induction false} SplitJoin(lines: seq<string>)
    requires |lines| >= 1
    requires forall k :: 0 <= k < |lines| ==> '\n' !in lines[k]
    ensures Split(Join(lines)) == lines
  {
    if |lines| == 1 {
      SplitAfterLine(lines[0], []);
      assert lines[0] + [] == lines[0];
    } else {
      var t := "\n" + Join(lines[1..]);
      SplitJoin(lines[1..]);
      assert t[0] == '\n' && t[1..] == Join(lines[1..]);
      assert Split(t) == [[]] + lines[1..];
      assert Join(lines) == lines[0] + t;
      SplitAfterLine(lines[0], t);
      assert lines[0] + [] == lines[0];
    }
  }

  /** `s.replace('}', '}}')`: every closing brace doubled, nothing else touched. */
  function DoubleBraces(s: string): string {
    if s == [] then []
    else (if s[0] == '}' then "}}" else [s[0]]) + DoubleBraces(s[1..])
  }

  /** Text without a closing brace is left as it is. */
  lemma {:induction false} DoubleBracesNoBrace(s: string)
    requires '}' !in s
    ensures DoubleBraces(s) == s
  {
    if s != [] {
      assert s[0] != '}' && '}' !in s[1..];
      DoubleBracesNoBrace(s[1..]);
    }
  }

  /** Doubling braces writes no newline. */
  lemma {:induction false} DoubleBracesNoNewline(s: string)
    requires '\n' !in s
    ensures '\n' !in DoubleBraces(s)
  {
    if s != [] {
      assert '\n' !in s[1..];
      DoubleBracesNoNewline(s[1..]);
      var head := if s[0] == '}' then "}}" else [s[0]];
      assert DoubleBraces(s) == head + DoubleBraces(s[1..]);
      assert '\n' !in head;
    }
  }

  /** Doubling braces works piece by piece. */
  lemma {:induction false} DoubleBracesAppend(a: string, b: string)
    ensures DoubleBraces(a + b) == DoubleBraces(a) + DoubleBraces(b)
  {
    if a != [] {
      var head := if a[0] == '}' then "}}" else [a[0]];
      assert DoubleBraces(a + b) == head + DoubleBraces(a[1..] + b) by {
        assert (a + b)[0] == a[0] && (a + b)[1..] == a[1..] + b;
      }
      DoubleBracesAppend(a[1..], b);
      assert DoubleBraces(a) == head + DoubleBraces(a[1..]);
    } else {
      assert a + b == b;
    }
  }
}
