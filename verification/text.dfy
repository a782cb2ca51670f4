/** The few pieces of Python string behaviour the dashboard relies on:
    `str.isspace` (also the `\s` of a `str` regular expression),
    `str.strip`, `str.lower`, `str.startswith`, `str.split()[0]` and
    Python's code-point ordering of strings. */
module Text {

  /** Python's `str.isspace`: the characters `str.strip()` removes,
      `str.split()` splits on and `\s` matches in a `str` pattern. */
  predicate IsSpace(c: char) {
    || c == ' '
    || ('\t' <= c <= '\r')
    || ('\U{1c}' <= c <= '\U{1f}')
    || c == '\U{85}' || c == '\U{a0}' || c == '\U{1680}'
    || ('\U{2000}' <= c <= '\U{200a}')
    || c == '\U{2028}' || c == '\U{2029}' || c == '\U{202f}'
    || c == '\U{205f}' || c == '\U{3000}'
  }

  predicate AllSpace(s: string) {
    forall i :: 0 <= i < |s| ==> IsSpace(s[i])
  }

  predicate NoSpace(s: string) {
    forall i :: 0 <= i < |s| ==> !IsSpace(s[i])
  }

  /** Length of the whitespace run at the start of `s`. */
  function SpaceRun(s: string): (n: nat)
    ensures n <= |s|
    ensures AllSpace(s[..n])
    ensures n < |s| ==> !IsSpace(s[n])
  {
    if |s| == 0 || !IsSpace(s[0]) then 0
    else
      var n := 1 + SpaceRun(s[1..]);
      assert s[..n] == [s[0]] + s[1..][..n - 1];
      n
  }

  /** Length of the non-whitespace run at the start of `s`. */
  function WordRun(s: string): (n: nat)
    ensures n <= |s|
    ensures NoSpace(s[..n])
    ensures n < |s| ==> IsSpace(s[n])
  {
    if |s| == 0 || IsSpace(s[0]) then 0
    else
      var n := 1 + WordRun(s[1..]);
      assert s[..n] == [s[0]] + s[1..][..n - 1];
      n
  }

  /** Length of the whitespace run at the end of `s`. */
  function TrailingSpaceRun(s: string): (n: nat)
    ensures n <= |s|
    ensures AllSpace(s[|s| - n..])
    ensures n < |s| ==> !IsSpace(s[|s| - n - 1])
  {
    if |s| == 0 || !IsSpace(s[|s| - 1]) then 0
    else
      var n := 1 + TrailingSpaceRun(s[..|s| - 1]);
      assert s[|s| - n..] == s[..|s| - 1][|s| - n..] + [s[|s| - 1]];
      n
  }

  /** Python `str.strip()`: `s` with its leading and trailing whitespace removed. */
  function Strip(s: string): (r: string)
    ensures r == "" <==> AllSpace(s)
    ensures r != "" ==> !IsSpace(r[0]) && !IsSpace(r[|r| - 1])
    ensures exists i :: 0 <= i <= |s| - |r|
                        && s[i..i + |r|] == r
                        && AllSpace(s[..i]) && AllSpace(s[i + |r|..])
  {
    var lead := SpaceRun(s);
    if lead == |s| then
      assert s[..lead] == s;
      StripAllSpace(s, "");
      ""
    else
      var trail := TrailingSpaceRun(s);
      StripBounds(s, lead, trail);
      var r := s[lead..|s| - trail];
      StripMiddle(s, lead, trail, r);
      r
  }

  /** An all-whitespace text strips to nothing. */
  lemma StripAllSpace(s: string, r: string)
    requires AllSpace(s) && r == ""
    ensures exists i :: 0 <= i <= |s| - |r|
                        && s[i..i + |r|] == r
                        && AllSpace(s[..i]) && AllSpace(s[i + |r|..])
  {
    assert s[0..0] == r && s[0..] == s;
    assert AllSpace(s[..0]) && AllSpace(s[0..]);
  }

  /** The trailing run cannot reach back past the first non-whitespace character. */
  lemma StripBounds(s: string, lead: nat, trail: nat)
    requires lead < |s| && !IsSpace(s[lead])
    requires trail <= |s| && AllSpace(s[|s| - trail..])
    ensures lead < |s| - trail
  {
  }

  /** Between a leading run that stops at a non-whitespace character and the
      trailing run lies a text with non-whitespace ends. */
  lemma StripMiddle(s: string, lead: nat, trail: nat, r: string)
    requires lead < |s| && AllSpace(s[..lead]) && !IsSpace(s[lead])
    requires trail <= |s| && AllSpace(s[|s| - trail..]) && (trail < |s| ==> !IsSpace(s[|s| - trail - 1]))
    requires lead < |s| - trail && r == s[lead..|s| - trail]
    ensures r != "" && !AllSpace(s)
    ensures !IsSpace(r[0]) && !IsSpace(r[|r| - 1])
    ensures exists i :: 0 <= i <= |s| - |r|
                        && s[i..i + |r|] == r
                        && AllSpace(s[..i]) && AllSpace(s[i + |r|..])
  {
    assert r[0] == s[lead] && r[|r| - 1] == s[|s| - trail - 1];
    assert lead + |r| == |s| - trail;
    assert s[lead..lead + |r|] == r && AllSpace(s[..lead]) && AllSpace(s[lead + |r|..]);
  }

  /** A text without surrounding whitespace is its own `strip()`. */
  lemma StripTrimmed(s: string)
    requires s == "" || (!IsSpace(s[0]) && !IsSpace(s[|s| - 1]))
    ensures Strip(s) == s
  {
    assert SpaceRun(s) == 0;
    assert TrailingSpaceRun(s) == 0;
    assert s[0..|s|] == s;
  }

  /** One leading whitespace character before a trimmed text is all `strip()` removes. */
  lemma StripLeadingSpace(c: char, s: string)
    requires IsSpace(c) && s != "" && !IsSpace(s[0]) && !IsSpace(s[|s| - 1])
    ensures Strip([c] + s) == s
  {
    var t := [c] + s;
    assert t[1..] == s;
    assert SpaceRun(s) == 0;
    assert SpaceRun(t) == 1;
    assert TrailingSpaceRun(t) == 0;
    assert t[1..|t|] == s;
  }

  /** Stripping twice strips no more than stripping once. */
  lemma StripIdempotent(s: string)
    ensures Strip(Strip(s)) == Strip(s)
  {
    StripTrimmed(Strip(s));
  }

  /** Python `str.lower()` on the ASCII letters. */
  function LowerChar(c: char): char {
    if 'A' <= c <= 'Z' then ((c as int) + 32) as char else c
  }

  function Lower(s: string): (r: string)
    ensures |r| == |s|
    ensures forall i :: 0 <= i < |s| ==> r[i] == LowerChar(s[i])
  {
    seq(|s|, i requires 0 <= i < |s| => LowerChar(s[i]))
  }

  /** Python `s.startswith(p)`. */
  predicate StartsWith(s: string, p: string) {
    |p| <= |s| && s[..|p|] == p
  }

  /** The advisor's first name, `x.split()[0] if len(x.split()) > 0 else x`:
      the first maximal run of non-whitespace characters, or the whole text
      when it holds only whitespace. */
  function FirstWord(s: string): (r: string)
    ensures AllSpace(s) ==> r == s
    ensures !AllSpace(s) ==>
              && r != "" && NoSpace(r)
              && exists i :: 0 <= i <= |s| - |r|
                             && AllSpace(s[..i]) && s[i..i + |r|] == r
                             && (i + |r| == |s| || IsSpace(s[i + |r|]))
  {
    var i := SpaceRun(s);
    if i == |s| then
      assert s[..i] == s;
      s
    else
      var n := WordRun(s[i..]);
      var r := s[i..i + n];
      assert r == s[i..][..n];
      assert n > 0;
      r
  }

  /** Python's `<` on strings: code-point lexicographic, a proper prefix first. */
  predicate Less(a: string, b: string)
    decreases |a|
  {
    if |a| == 0 then |b| > 0
    else if |b| == 0 then false
    else if a[0] != b[0] then a[0] < b[0]
    else Less(a[1..], b[1..])
  }

  lemma {:induction false} LessIrreflexive(a: string)
    ensures !Less(a, a)
    decreases |a|
  {
    if |a| > 0 { LessIrreflexive(a[1..]); }
  }

  lemma {:induction false} LessTrichotomy(a: string, b: string)
    ensures Less(a, b) || a == b || Less(b, a)
    decreases |a|
  {
    if |a| > 0 && |b| > 0 && a[0] == b[0] {
      LessTrichotomy(a[1..], b[1..]);
      if a[1..] == b[1..] {
        assert a == [a[0]] + a[1..] && b == [b[0]] + b[1..];
      }
    }
  }

  lemma {:induction false} LessAsymmetric(a: string, b: string)
    ensures Less(a, b) ==> !Less(b, a)
    decreases |a|
  {
    if |a| > 0 && |b| > 0 && a[0] == b[0] { LessAsymmetric(a[1..], b[1..]); }
  }

  lemma {:induction false} LessTransitive(a: string, b: string, c: string)
    requires Less(a, b) && Less(b, c)
    ensures Less(a, c)
    decreases |a|
  {
    if |a| > 0 && a[0] == b[0] && b[0] == c[0] {
      LessTransitive(a[1..], b[1..], c[1..]);
    }
  }
}
