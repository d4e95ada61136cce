/**
 * The Python `str` operations the core relies on, over `seq<char>`:
 * `strip`, `splitlines`, `startswith`, `endswith`, `find`, `"\n".join`
 * and `lower` (the last one restricted to Latin and Cyrillic letters).
 */
module Text {

  /** The characters for which Python's `str.isspace` holds, i.e. what `strip()` removes. */
  const SpaceChars: set<char> := {
    ' ', '\t', '\n', '\U{B}', '\U{C}', '\r', '\U{1C}', '\U{1D}', '\U{1E}', '\U{1F}',
    '\U{85}', '\U{A0}', '\U{1680}', '\U{2000}', '\U{2001}', '\U{2002}', '\U{2003}',
    '\U{2004}', '\U{2005}', '\U{2006}', '\U{2007}', '\U{2008}', '\U{2009}', '\U{200A}',
    '\U{2028}', '\U{2029}', '\U{202F}', '\U{205F}', '\U{3000}'
  }

  /** The line boundaries recognised by Python's `str.splitlines` (`\r\n` counts as one). */
  const LineBreakChars: set<char> := {
    '\n', '\r', '\U{B}', '\U{C}', '\U{1C}', '\U{1D}', '\U{1E}', '\U{85}', '\U{2028}', '\U{2029}'
  }

  predicate IsSpace(c: char) { c in SpaceChars }

  predicate IsLineBreak(c: char) { c in LineBreakChars }

  lemma LineBreakIsSpace(c: char)
    ensures IsLineBreak(c) ==> IsSpace(c)
  {
  }

  predicate AllSpace(s: string) { forall i :: 0 <= i < |s| ==> IsSpace(s[i]) }

  /** No whitespace at either end (the empty string included). */
  predicate Trimmed(s: string) { s == [] || (!IsSpace(s[0]) && !IsSpace(s[|s| - 1])) }

  predicate StartsWith(s: string, p: string) { |p| <= |s| && s[..|p|] == p }

  predicate EndsWith(s: string, p: string) { |p| <= |s| && s[|s| - |p|..] == p }

  /** Index of the first non-whitespace character at or after `i`, or `|s|`. */
  function SkipSpace(s: string, i: nat): (k: nat)
    requires i <= |s|
    ensures i <= k <= |s| && (k == |s| || !IsSpace(s[k]))
    ensures forall j :: i <= j < k ==> IsSpace(s[j])
    decreases |s| - i
  {
    if i < |s| && IsSpace(s[i]) then SkipSpace(s, i + 1) else i
  }

  /** Length of `s[..n]` without its trailing whitespace. */
  function KeepUntilSpace(s: string, n: nat): (k: nat)
    requires n <= |s|
    ensures k <= n && (k == 0 || !IsSpace(s[k - 1]))
    ensures forall j :: k <= j < n ==> IsSpace(s[j])
    decreases n
  {
    if n > 0 && IsSpace(s[n - 1]) then KeepUntilSpace(s, n - 1) else n
  }

  function TrimStart(s: string): (r: string)
    ensures |r| <= |s| && r == s[|s| - |r|..]
    ensures r == [] || !IsSpace(r[0])
    ensures AllSpace(s[..|s| - |r|])
  {
    s[SkipSpace(s, 0)..]
  }

  function TrimEnd(s: string): (r: string)
    ensures |r| <= |s| && r == s[..|r|]
    ensures r == [] || !IsSpace(r[|r| - 1])
    ensures AllSpace(s[|r|..])
  {
    s[..KeepUntilSpace(s, |s|)]
  }

  /** Python's `str.strip()` with no argument. */
  function Strip(s: string): (r: string)
    ensures Trimmed(r)
  {
    var a := TrimStart(s);
    var r := TrimEnd(a);
    assert r != [] ==> r[0] == a[0];
    r
  }

  lemma {:induction false} TrimEndOfTrimmedStart(s: string)
    requires s == [] || !IsSpace(s[0])
    ensures TrimEnd(s) == [] <==> s == []
  {
  }

  /** `strip()` yields the empty string exactly for all-whitespace input. */
  lemma StripEmptyIffBlank(s: string)
    ensures Strip(s) == [] <==> AllSpace(s)
  {
    var a := TrimStart(s);
    assert s == s[..|s| - |a|] + a;
    TrimEndOfTrimmedStart(a);
  }

  /** `strip()` leaves a string with no surrounding whitespace alone. */
  lemma StripOfTrimmed(s: string)
    requires Trimmed(s)
    ensures Strip(s) == s
  {
  }

  /** Index of the first line boundary in `s`, or `|s|` when there is none. */
  function FirstBreak(s: string): (i: nat)
    ensures i <= |s|
    ensures forall j :: 0 <= j < i ==> !IsLineBreak(s[j])
    ensures i < |s| ==> IsLineBreak(s[i])
  {
    if s == [] then 0
    else if IsLineBreak(s[0]) then 0
    else 1 + FirstBreak(s[1..])
  }

  /** Width of the boundary at index `i`: two for `\r\n`, one otherwise. */
  function BreakWidth(s: string, i: nat): (w: nat)
    requires i < |s|
    ensures 1 <= w && i + w <= |s|
  {
    if s[i] == '\r' && i + 1 < |s| && s[i + 1] == '\n' then 2 else 1
  }

  /**
   * Python's `str.splitlines()`: the pieces between line boundaries, with
   * no final empty piece after a trailing boundary.
   */
  function SplitLines(s: string): seq<string>
    decreases |s|
  {
    if s == [] then []
    else
      var i := FirstBreak(s);
      if i == |s| then [s]
      else [s[..i]] + SplitLines(s[i + BreakWidth(s, i)..])
  }

  /** `"\n".join(lines)`. */
  function JoinLines(lines: seq<string>): string
  {
    if lines == [] then ""
    else if |lines| == 1 then lines[0]
    else lines[0] + "\n" + JoinLines(lines[1..])
  }

  /** Every string of `ls` is blank. */
  predicate AllBlank(ls: seq<string>) { forall k :: 0 <= k < |ls| ==> AllSpace(ls[k]) }

  lemma AllBlankCons(l: string, ls: seq<string>)
    ensures AllBlank([l] + ls) <==> AllSpace(l) && AllBlank(ls)
  {
    assert forall k :: 0 <= k < |ls| ==> ([l] + ls)[k + 1] == ls[k];
    assert ([l] + ls)[0] == l;
  }

  /** Every piece of `SplitLines(s)` is blank exactly when `s` is: boundaries are whitespace. */
  lemma {:induction false} SplitLinesBlankIffBlank(s: string)
    ensures AllBlank(SplitLines(s)) <==> AllSpace(s)
    decreases |s|
  {
    if s != [] {
      var i := FirstBreak(s);
      if i < |s| {
        var rest := s[i + BreakWidth(s, i)..];
        SplitLinesBlankIffBlank(rest);
        SplitLinesBlankStep(s, i, rest);
      } else {
        assert s[..i] == s;
        AllBlankCons(s, []);
        assert SplitLines(s) == [s] + [];
      }
    }
  }

  lemma SplitLinesBlankStep(s: string, i: nat, rest: string)
    requires s != [] && i == FirstBreak(s) && i < |s| && rest == s[i + BreakWidth(s, i)..]
    requires AllBlank(SplitLines(rest)) <==> AllSpace(rest)
    ensures AllBlank(SplitLines(s)) <==> AllSpace(s)
  {
    assert SplitLines(s) == [s[..i]] + SplitLines(rest);
    BlankAroundBreak(s, i);
    AllBlankCons(s[..i], SplitLines(rest));
  }

  /** Cutting out a line boundary keeps the blankness of a string: it is blank iff both sides are. */
  lemma BlankAroundBreak(s: string, i: nat)
    requires i < |s| && IsLineBreak(s[i])
    ensures AllSpace(s) <==> AllSpace(s[..i]) && AllSpace(s[i + BreakWidth(s, i)..])
  {
    var w := BreakWidth(s, i);
    LineBreakIsSpace(s[i]);
    if w == 2 { assert s[i + 1] == '\n'; }
    assert AllSpace(s[i..i + w]);
    assert s == s[..i] + s[i..i + w] + s[i + w..];
    BlankConcat(s[..i] + s[i..i + w], s[i + w..]);
    BlankConcat(s[..i], s[i..i + w]);
  }

  lemma BlankConcat(a: string, b: string)
    ensures AllSpace(a + b) <==> AllSpace(a) && AllSpace(b)
  {
    assert forall i :: 0 <= i < |a| ==> (a + b)[i] == a[i];
    assert forall i :: 0 <= i < |b| ==> (a + b)[|a| + i] == b[i];
  }

  predicate NoLineBreak(s: string) { forall i :: 0 <= i < |s| ==> !IsLineBreak(s[i]) }

  /** `splitlines` undoes `"\n".join` on non-empty lines that hold no line boundary. */
  lemma {:induction false} SplitLinesOfJoin(lines: seq<string>)
    requires lines != []
    requires forall k :: 0 <= k < |lines| ==> lines[k] != [] && NoLineBreak(lines[k])
    ensures SplitLines(JoinLines(lines)) == lines
    decreases |lines|
  {
    var l := lines[0];
    if |lines| == 1 {
      FirstBreakOfNoBreak(l);
    } else {
      var rest := JoinLines(lines[1..]);
      var s := l + "\n" + rest;
      FirstBreakAfter(l, rest);
      assert s[..|l|] == l;
      assert s[|l| + 1..] == rest;
      SplitLinesOfJoin(lines[1..]);
    }
  }

  lemma {:induction false} FirstBreakOfNoBreak(s: string)
    requires NoLineBreak(s)
    ensures FirstBreak(s) == |s|
    decreases |s|
  {
    if s != [] { FirstBreakOfNoBreak(s[1..]); }
  }

  lemma {:induction false} FirstBreakAfter(l: string, rest: string)
    requires NoLineBreak(l)
    ensures FirstBreak(l + "\n" + rest) == |l|
    ensures BreakWidth(l + "\n" + rest, |l|) == 1
    decreases |l|
  {
    var s := l + "\n" + rest;
    if l == [] {
      assert s[0] == '\n';
    } else {
      assert s[0] == l[0];
      assert s[1..] == l[1..] + "\n" + rest;
      FirstBreakAfter(l[1..], rest);
    }
  }

  /**
   * Python's `str.find(p, from)`: the least index `i >= from` at which `p`
   * occurs in `s`, or `-1`.
   */
  predicate OccursAt(s: string, p: string, i: int) { 0 <= i && i + |p| <= |s| && s[i..i + |p|] == p }

  function Find(s: string, p: string, from: nat): (r: int)
    requires p != []
    ensures r == -1 || (from <= r && OccursAt(s, p, r))
    ensures forall i :: from <= i && (r == -1 || i < r) ==> !OccursAt(s, p, i)
    decreases |s| - from
  {
    if from + |p| > |s| then -1
    else if s[from..from + |p|] == p then from
    else Find(s, p, from + 1)
  }

  /**
   * `str.lower` for the alphabets the bot's users write in: ASCII `A`-`Z`,
   * Cyrillic `А`-`Я` and `Ѐ`-`Џ` (including `Ё`); every other character is kept.
   */
  function LowerChar(c: char): (r: char)
    ensures IsSpace(r) <==> IsSpace(c)
  {
    if 'A' <= c <= 'Z' then (c as int + 32) as char
    else if '\U{410}' <= c <= '\U{42F}' then (c as int + 32) as char
    else if '\U{400}' <= c <= '\U{40F}' then (c as int + 80) as char
    else c
  }

  function Lower(s: string): (r: string)
    ensures |r| == |s| && forall i :: 0 <= i < |s| ==> r[i] == LowerChar(s[i])
  {
    if s == [] then [] else [LowerChar(s[0])] + Lower(s[1..])
  }

  lemma {:induction false} LowerKeepsTrimmed(s: string)
    requires Trimmed(s)
    ensures Trimmed(Lower(s))
  {
  }
}
