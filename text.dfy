/**
 * The parts of Python's `str` that the backend relies on: `isspace`,
 * `strip`, `splitlines`, `split(sep)`, `sep.join(...)` and the decimal
 * formatting of an `int` inside an f-string.
 */
module Text {

  /** Python's `str.isspace()` for one character. */
  predicate IsSpace(c: char) {
    ('\U{0009}' <= c <= '\U{000D}') || ('\U{001C}' <= c <= '\U{0020}') ||
    c == '\U{0085}' || c == '\U{00A0}' || c == '\U{1680}' ||
    ('\U{2000}' <= c <= '\U{200A}') ||
    c == '\U{2028}' || c == '\U{2029}' || c == '\U{202F}' || c == '\U{205F}' || c == '\U{3000}'
  }

  /** The line boundaries `str.splitlines()` splits on (`\r\n` is handled by SplitLines). */
  predicate IsLineBreak(c: char) {
    c == '\n' || c == '\r' || c == '\U{000B}' || c == '\U{000C}' ||
    c == '\U{001C}' || c == '\U{001D}' || c == '\U{001E}' ||
    c == '\U{0085}' || c == '\U{2028}' || c == '\U{2029}'
  }

  /** A string is truthy in Python exactly when it is not empty. */
  predicate NonEmpty(s: string) {
    s != []
  }

  predicate NoLineBreak(s: string) {
    forall i :: 0 <= i < |s| ==> !IsLineBreak(s[i])
  }

  /** Neither end of `s` is whitespace. */
  predicate IsStripped(s: string) {
    s == [] || (!IsSpace(s[0]) && !IsSpace(s[|s| - 1]))
  }

  /** `t` occurs in `s` starting at index `i`. */
  predicate OccursAt(s: string, t: string, i: int) {
    0 <= i && i + |t| <= |s| && s[i..i + |t|] == t
  }

  /** Python's `t in s`. */
  predicate Contains(s: string, t: string) {
    exists i | 0 <= i <= |s| - |t| :: OccursAt(s, t, i)
  }

  lemma ContainsTransitive(a: string, b: string, c: string)
    requires Contains(a, b) && Contains(b, c)
    ensures Contains(a, c)
  {
    var i :| 0 <= i <= |a| - |b| && OccursAt(a, b, i);
    var j :| 0 <= j <= |b| - |c| && OccursAt(b, c, j);
    forall k | 0 <= k < |c| ensures a[i + j + k] == c[k] {
      assert c[k] == b[j + k];
      assert b[j + k] == a[i + j + k];
    }
    assert a[i + j..i + j + |c|] == c;
    assert OccursAt(a, c, i + j);
  }

  lemma ContainsNoLineBreak(s: string, t: string)
    requires Contains(s, t) && NoLineBreak(s)
    ensures NoLineBreak(t)
  {
    var i :| 0 <= i <= |s| - |t| && OccursAt(s, t, i);
    forall k | 0 <= k < |t| ensures !IsLineBreak(t[k]) {
      assert t[k] == s[i + k];
    }
  }

  // ---------------------------------------------------------------- strip

  /** `s.lstrip()`: the suffix of `s` left after its leading whitespace. */
  function TrimStart(s: string): (r: string)
    ensures |r| <= |s| && r == s[|s| - |r|..]
    ensures r == [] || !IsSpace(r[0])
    ensures forall i :: 0 <= i < |s| - |r| ==> IsSpace(s[i])
    decreases |s|
  {
    if s != [] && IsSpace(s[0]) then
      var r := TrimStart(s[1..]);
      assert forall i :: 1 <= i < |s| - |r| ==> s[i] == s[1..][i - 1];
      r
    else s
  }

  /** `s.rstrip()`: the prefix of `s` left before its trailing whitespace. */
  function TrimEnd(s: string): (r: string)
    ensures |r| <= |s| && r == s[..|r|]
    ensures r == [] || !IsSpace(r[|r| - 1])
    ensures forall i :: |r| <= i < |s| ==> IsSpace(s[i])
    decreases |s|
  {
    if s != [] && IsSpace(s[|s| - 1]) then TrimEnd(s[..|s| - 1]) else s
  }

  /** `s.strip()`. */
  function Strip(s: string): string {
    TrimEnd(TrimStart(s))
  }

  /** What strip leaves is a piece of the input with no whitespace at either end. */
  lemma StripShape(s: string)
    ensures IsStripped(Strip(s))
    ensures Contains(s, Strip(s))
  {
    StripEnds(s);
    StripOccurs(s);
  }

  /** Neither end of strip's result is whitespace. */
  lemma StripEnds(s: string)
    ensures IsStripped(Strip(s))
  {
    var u := TrimStart(s);
    var r := TrimEnd(u);
    if r != [] {
      assert r[0] == u[..|r|][0] == u[0];
    }
  }

  /** Strip's result sits in the input right after the leading whitespace. */
  lemma StripOccurs(s: string)
    ensures OccursAt(s, Strip(s), |s| - |TrimStart(s)|)
  {
    PrefixOfSuffixOccurs(s, TrimStart(s), Strip(s));
  }

  /** A prefix of a suffix of `s` occurs in `s` where the suffix starts. */
  lemma PrefixOfSuffixOccurs(s: string, u: string, r: string)
    requires |u| <= |s| && u == s[|s| - |u|..]
    requires |r| <= |u| && r == u[..|r|]
    ensures OccursAt(s, r, |s| - |u|)
  {
    var k := |s| - |u|;
    assert s[k..][..|r|] == s[k..k + |r|];
  }

  /** `s.strip()` returns `s` exactly when `s` has no whitespace at either end. */
  lemma StripFixpoint(s: string)
    ensures Strip(s) == s <==> IsStripped(s)
  {
    StripShape(s);
    if IsStripped(s) && s != [] {
      assert TrimStart(s) == s;
    }
  }

  /** `not s.strip()` holds exactly for whitespace-only strings (and ""). */
  lemma StripBlank(s: string)
    ensures Strip(s) == [] <==> forall i :: 0 <= i < |s| ==> IsSpace(s[i])
  {
  }

  // --------------------------------------------------------------- split

  /** `s.find(t, k)`: the first occurrence of `t` at or after `k`, or -1. */
  function FindFrom(s: string, t: string, k: nat): (r: int)
    requires |t| > 0 && k <= |s|
    ensures r == -1 || (k <= r && OccursAt(s, t, r))
    ensures forall j :: k <= j && (r == -1 || j < r) ==> !OccursAt(s, t, j)
    decreases |s| - k
  {
    if k + |t| > |s| then -1
    else if s[k..k + |t|] == t then k
    else FindFrom(s, t, k + 1)
  }

  /** `s.split(sep)`: the pieces between the non-overlapping, leftmost occurrences of `sep`. */
  function SplitOn(s: string, sep: string): (r: seq<string>)
    requires |sep| > 0
    ensures |r| > 0
    decreases |s|
  {
    var i := FindFrom(s, sep, 0);
    if i < 0 then [s] else [s[..i]] + SplitOn(s[i + |sep|..], sep)
  }

  /** `sep.join(ps)`. */
  function Join(ps: seq<string>, sep: string): string {
    if ps == [] then ""
    else if |ps| == 1 then ps[0]
    else ps[0] + sep + Join(ps[1..], sep)
  }

  /** Every piece `split` returns lies inside the input and holds no separator. */
  lemma SplitOnPieces(s: string, sep: string)
    requires |sep| > 0
    ensures forall p :: p in SplitOn(s, sep) ==> Contains(s, p) && !Contains(p, sep)
  {
    SplitOnInside(s, sep);
    SplitOnClean(s, sep);
  }

  /** Every piece lies inside the input. */
  lemma {:induction false} SplitOnInside(s: string, sep: string)
    requires |sep| > 0
    ensures forall p :: p in SplitOn(s, sep) ==> Contains(s, p)
    decreases |s|
  {
    var i := FindFrom(s, sep, 0);
    if i < 0 {
      assert OccursAt(s, s, 0);
    } else {
      var head, rest := s[..i], s[i + |sep|..];
      var tail := SplitOn(rest, sep);
      assert SplitOn(s, sep) == [head] + tail;
      SplitOnInside(rest, sep);
      PrefixOfSuffixOccurs(s, s, head);
      PrefixOfSuffixOccurs(s, rest, rest);
      forall p | p in tail ensures Contains(s, p) {
        ContainsTransitive(s, rest, p);
      }
    }
  }

  /** No piece holds the separator. */
  lemma {:induction false} SplitOnClean(s: string, sep: string)
    requires |sep| > 0
    ensures forall p :: p in SplitOn(s, sep) ==> !Contains(p, sep)
    decreases |s|
  {
    var i := FindFrom(s, sep, 0);
    if i >= 0 {
      var rest := s[i + |sep|..];
      assert SplitOn(s, sep) == [s[..i]] + SplitOn(rest, sep);
      SplitOnClean(rest, sep);
      BeforeFirstOccurrence(s, sep, i);
    }
  }

  /** The text before the first occurrence of `sep` holds no `sep`. */
  lemma BeforeFirstOccurrence(s: string, sep: string, i: int)
    requires |sep| > 0 && 0 <= i <= |s|
    requires forall j :: 0 <= j < i ==> !OccursAt(s, sep, j)
    ensures !Contains(s[..i], sep)
  {
    var head := s[..i];
    forall j | 0 <= j <= |head| - |sep| ensures !OccursAt(head, sep, j) {
      assert !OccursAt(s, sep, j);
      assert head[j..j + |sep|] == s[j..j + |sep|];
    }
  }


  /** Joining what `split` returns gives back the input: `sep.join(s.split(sep)) == s`. */
  lemma {:induction false} JoinSplitOn(s: string, sep: string)
    requires |sep| > 0
    ensures Join(SplitOn(s, sep), sep) == s
    decreases |s|
  {
    var i := FindFrom(s, sep, 0);
    if i >= 0 {
      var rest := s[i + |sep|..];
      JoinSplitOn(rest, sep);
      assert SplitOn(s, sep) == [s[..i]] + SplitOn(rest, sep);
      assert s == s[..i] + sep + rest;
    }
  }

  /** Splitting a string that holds no separator gives the string alone. */
  lemma SplitOnAbsent(s: string, sep: string)
    requires |sep| > 0 && !Contains(s, sep)
    ensures SplitOn(s, sep) == [s]
  {
  }

  /** No occurrence of `sep` in `p + sep` begins inside `p`. */
  predicate Separable(p: string, sep: string) {
    forall j :: 0 <= j < |p| ==> !OccursAt(p + sep, sep, j)
  }

  /** A separable piece holds no separator. */
  lemma SeparableAbsent(p: string, sep: string)
    requires |sep| > 0 && Separable(p, sep)
    ensures !Contains(p, sep)
  {
    if Contains(p, sep) {
      var j :| 0 <= j <= |p| - |sep| && OccursAt(p, sep, j);
      assert (p + sep)[j..j + |sep|] == p[j..j + |sep|];
      assert OccursAt(p + sep, sep, j);
    }
  }

  /** In `p + sep + rest` with `p` separable, the first separator is the one after `p`. */
  lemma FindAfterPiece(p: string, sep: string, rest: string)
    requires |sep| > 0 && Separable(p, sep)
    ensures FindFrom(p + sep + rest, sep, 0) == |p|
  {
    var s := p + sep + rest;
    forall j | 0 <= j < |p| ensures !OccursAt(s, sep, j) {
      assert !OccursAt(p + sep, sep, j);
      assert (p + sep)[j..j + |sep|] == s[j..j + |sep|];
    }
    assert s[|p|..|p| + |sep|] == sep;
    assert OccursAt(s, sep, |p|);
  }

  /** Splitting a join recovers the pieces when no separator can be read across a piece. */
  lemma {:induction false} SplitOnJoin(ps: seq<string>, sep: string)
    requires |ps| > 0 && |sep| > 0
    requires forall k :: 0 <= k < |ps| ==> Separable(ps[k], sep)
    ensures SplitOn(Join(ps, sep), sep) == ps
  {
    var p := ps[0];
    if |ps| == 1 {
      SeparableAbsent(p, sep);
      SplitOnAbsent(p, sep);
    } else {
      var rest := Join(ps[1..], sep);
      var s := p + sep + rest;
      assert Join(ps, sep) == s;
      FindAfterPiece(p, sep, rest);
      assert s[..|p|] == p && s[|p| + |sep|..] == rest;
      SplitOnJoin(ps[1..], sep);
    }
  }

  // ---------------------------------------------------------- splitlines

  /** Index of the first line boundary at or after `k`, or `|s|`. */
  function FirstBreak(s: string, k: nat): (r: nat)
    requires k <= |s|
    ensures k <= r <= |s|
    ensures r < |s| ==> IsLineBreak(s[r])
    ensures forall j :: k <= j < r ==> !IsLineBreak(s[j])
    decreases |s| - k
  {
    if k == |s| || IsLineBreak(s[k]) then k else FirstBreak(s, k + 1)
  }

  /** `s.splitlines()`: `\r\n` is one boundary and a final boundary opens no empty line. */
  function SplitLines(s: string): (r: seq<string>)
    ensures forall k :: 0 <= k < |r| ==> NoLineBreak(r[k])
    decreases |s|
  {
    if s == [] then []
    else
      var i := FirstBreak(s, 0);
      if i == |s| then [s]
      else
        var next := if s[i] == '\r' && i + 1 < |s| && s[i + 1] == '\n' then i + 2 else i + 1;
        [s[..i]] + SplitLines(s[next..])
  }

  /** Lines each terminated by `"\n"`, as `text += line + "\n"` builds them. */
  function Terminated(lines: seq<string>): string {
    if lines == [] then "" else lines[0] + "\n" + Terminated(lines[1..])
  }

  lemma {:induction false} TerminatedSnoc(lines: seq<string>, line: string)
    ensures Terminated(lines + [line]) == Terminated(lines) + line + "\n"
  {
    if lines != [] {
      assert (lines + [line])[1..] == lines[1..] + [line];
      TerminatedSnoc(lines[1..], line);
    }
  }

  /** A line without boundary followed by `"\n"` is the first line `splitlines` returns. */
  lemma SplitLinesCons(l: string, rest: string)
    requires NoLineBreak(l)
    ensures SplitLines(l + "\n" + rest) == [l] + SplitLines(rest)
  {
    var s := l + "\n" + rest;
    forall j | 0 <= j < |l| ensures !IsLineBreak(s[j]) {
      assert s[j] == l[j];
    }
    assert s[|l|] == '\n';
    assert FirstBreak(s, 0) == |l|;
    assert s[..|l|] == l && s[|l| + 1..] == rest;
  }

  /** `splitlines` undoes `"\n"`-termination of lines that hold no boundary (empty lines included). */
  lemma {:induction false} SplitLinesTerminated(lines: seq<string>)
    requires forall k :: 0 <= k < |lines| ==> NoLineBreak(lines[k])
    ensures SplitLines(Terminated(lines)) == lines
  {
    if lines != [] {
      SplitLinesCons(lines[0], Terminated(lines[1..]));
      SplitLinesTerminated(lines[1..]);
      assert lines == [lines[0]] + lines[1..];
    }
  }

  /** `splitlines` undoes a `"\n".join` of non-empty lines that hold no boundary. */
  lemma {:induction false} SplitLinesJoin(lines: seq<string>)
    requires forall k :: 0 <= k < |lines| ==> lines[k] != [] && NoLineBreak(lines[k])
    ensures SplitLines(Join(lines, "\n")) == lines
  {
    if lines != [] {
      var l := lines[0];
      if |lines| == 1 {
        assert FirstBreak(l, 0) == |l|;
      } else {
        SplitLinesCons(l, Join(lines[1..], "\n"));
        SplitLinesJoin(lines[1..]);
        assert lines == [l] + lines[1..];
      }
    }
  }

  // ------------------------------------------------------------- numbers

  function DigitChar(d: nat): char
    requires d < 10
  {
    "0123456789"[d]
  }

  /** `str(n)` for a non-negative `int`. */
  function Decimal(n: nat): string
    decreases n
  {
    if n < 10 then [DigitChar(n)] else Decimal(n / 10) + [DigitChar(n % 10)]
  }
}
