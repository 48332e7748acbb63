/** The Python string operations the client relies on: `startswith`, `in`,
    `replace`, `strip`, `", ".join`, `str(int)` and the two substitutions
    `re.sub(" +", " ", s)` and `re.sub(literal, repl, s)`. */
module Strings {

  /** `s.startswith(p)`. */
  predicate StartsWith(s: string, p: string) {
    |p| <= |s| && s[..|p|] == p
  }

  /** `p in s`: some suffix of `s` starts with `p`. */
  predicate Contains(s: string, p: string)
    decreases |s|
  {
    StartsWith(s, p) || (|s| > 0 && Contains(s[1..], p))
  }

  /** `" " * n`. */
  function Spaces(n: nat): (r: string)
    ensures |r| == n && forall i :: 0 <= i < n ==> r[i] == ' '
  {
    seq(n, _ => ' ')
  }

  /** `s.replace("\n", "").replace("\r", "")`. */
  function RemoveLineBreaks(s: string): string
  {
    if s == [] then []
    else (if s[0] == '\n' || s[0] == '\r' then [] else [s[0]]) + RemoveLineBreaks(s[1..])
  }

  /** `re.sub(" +", " ", s)`: every run of spaces becomes a single space. */
  function CollapseSpaces(s: string): string
    decreases |s|
  {
    if |s| < 2 then s
    else if s[0] == ' ' && s[1] == ' ' then CollapseSpaces(s[1..])
    else [s[0]] + CollapseSpaces(s[1..])
  }

  /** The text normalisation applied to node texts and English names:
      line breaks removed, then runs of spaces collapsed. */
  function CleanText(s: string): string
  {
    CollapseSpaces(RemoveLineBreaks(s))
  }

  predicate NoDoubleSpace(s: string) {
    forall i :: 0 <= i < |s| - 1 ==> !(s[i] == ' ' && s[i + 1] == ' ')
  }

  /** `s` with every space removed: what space-run collapsing must preserve. */
  function Unspaced(s: string): string
  {
    if s == [] then [] else (if s[0] == ' ' then [] else [s[0]]) + Unspaced(s[1..])
  }

  lemma {:induction false} RemoveLineBreaksSpec(s: string)
    ensures '\n' !in RemoveLineBreaks(s) && '\r' !in RemoveLineBreaks(s)
    ensures forall c :: c in RemoveLineBreaks(s) ==> c in s
  {
    if s != [] {
      RemoveLineBreaksSpec(s[1..]);
    }
  }

  lemma {:induction false} CollapseSpacesHead(s: string)
    ensures |CollapseSpaces(s)| <= |s|
    ensures s != [] ==> CollapseSpaces(s) != [] && CollapseSpaces(s)[0] == s[0]
    decreases |s|
  {
    if |s| >= 2 {
      CollapseSpacesHead(s[1..]);
    }
  }

  /** Collapsing leaves no two adjacent spaces, introduces no character and
      drops nothing but spaces. */
  lemma {:induction false} CollapseSpacesSpec(s: string)
    ensures NoDoubleSpace(CollapseSpaces(s))
    ensures forall c :: c in CollapseSpaces(s) ==> c in s
    ensures Unspaced(CollapseSpaces(s)) == Unspaced(s)
    decreases |s|
  {
    if |s| >= 2 {
      var rest := CollapseSpaces(s[1..]);
      CollapseSpacesSpec(s[1..]);
      CollapseSpacesHead(s[1..]);
      if !(s[0] == ' ' && s[1] == ' ') {
        var r := [s[0]] + rest;
        assert r[1..] == rest;
        forall i | 0 <= i < |r| - 1
          ensures !(r[i] == ' ' && r[i + 1] == ' ')
        {
          if i > 0 {
            assert r[i] == rest[i - 1] && r[i + 1] == rest[i];
          }
        }
        assert Unspaced(r) == (if s[0] == ' ' then [] else [s[0]]) + Unspaced(rest);
      } else {
        assert Unspaced(s) == Unspaced(s[1..]);
      }
    }
  }

  /** `s` without its leading spaces. */
  function DropSpaces(s: string): (r: string)
    ensures |r| <= |s| && (s != [] && s[0] == ' ' ==> |r| < |s|)
  {
    if s != [] && s[0] == ' ' then DropSpaces(s[1..]) else s
  }

  /** Space collapsing read run by run: a maximal run of spaces gives one
      space, and every other character is kept. */
  function RunCollapse(s: string): string
    decreases |s|
  {
    if s == [] then []
    else if s[0] == ' ' then " " + RunCollapse(DropSpaces(s))
    else [s[0]] + RunCollapse(s[1..])
  }

  /** Collapsing pairwise is the same as replacing each run of spaces by
      one space. */
  lemma {:induction false} CollapseSpacesRuns(s: string)
    ensures CollapseSpaces(s) == RunCollapse(s)
    decreases |s|
  {
    if |s| >= 2 {
      CollapseSpacesRuns(s[1..]);
      if s[0] == ' ' && s[1] == ' ' {
        assert DropSpaces(s) == DropSpaces(s[1..]);
      } else if s[0] == ' ' {
        assert DropSpaces(s) == s[1..];
      }
    } else if |s| == 1 && s[0] == ' ' {
      assert DropSpaces(s) == [];
    }
  }

  /** Text without a double space is left as it is: collapsing is idempotent. */
  lemma {:induction false} CollapseSpacesFixpoint(s: string)
    requires NoDoubleSpace(s)
    ensures CollapseSpaces(s) == s
    decreases |s|
  {
    if |s| >= 2 {
      assert NoDoubleSpace(s[1..]) by {
        forall i | 0 <= i < |s[1..]| - 1
          ensures !(s[1..][i] == ' ' && s[1..][i + 1] == ' ')
        {
          assert s[1..][i] == s[i + 1] && s[1..][i + 1] == s[i + 2];
        }
      }
      CollapseSpacesFixpoint(s[1..]);
      assert s == [s[0]] + s[1..];
    }
  }

  /** A cleaned text has no line break and no run of two spaces, keeps every
      other character in order, and is left unchanged by a second cleaning. */
  lemma CleanTextSpec(s: string)
    ensures '\n' !in CleanText(s) && '\r' !in CleanText(s)
    ensures NoDoubleSpace(CleanText(s))
    ensures Unspaced(CleanText(s)) == Unspaced(RemoveLineBreaks(s))
    ensures CleanText(s) == RunCollapse(RemoveLineBreaks(s))
    ensures CleanText(CleanText(s)) == CleanText(s)
  {
    var t := RemoveLineBreaks(s);
    CollapseSpacesRuns(t);
    RemoveLineBreaksSpec(s);
    CollapseSpacesSpec(t);
    var r := CollapseSpaces(t);
    RemoveLineBreaksFixpoint(r);
    CollapseSpacesFixpoint(r);
  }

  lemma {:induction false} RemoveLineBreaksFixpoint(s: string)
    requires '\n' !in s && '\r' !in s
    ensures RemoveLineBreaks(s) == s
  {
    if s != [] {
      assert s == [s[0]] + s[1..];
      RemoveLineBreaksFixpoint(s[1..]);
    }
  }

  /** Python's `str.isspace()` for one character. */
  predicate IsSpace(c: char) {
    c == ' ' || c == '\t' || c == '\n' || c == '\r' || c == '\U{000B}' || c == '\U{000C}'
    || ('\U{001C}' <= c <= '\U{001F}') || c == '\U{0085}' || c == '\U{00A0}' || c == '\U{1680}'
    || ('\U{2000}' <= c <= '\U{200A}') || c == '\U{2028}' || c == '\U{2029}' || c == '\U{202F}'
    || c == '\U{205F}' || c == '\U{3000}'
  }

  /** `s.lstrip()`. */
  function TrimStart(s: string): (r: string)
    ensures |r| <= |s| && r == s[|s| - |r|..]
    ensures r != [] ==> !IsSpace(r[0])
  {
    if s != [] && IsSpace(s[0]) then TrimStart(s[1..]) else s
  }

  /** `lstrip` removes whitespace only. */
  lemma {:induction false} TrimStartSpec(s: string)
    ensures forall i :: 0 <= i < |s| - |TrimStart(s)| ==> IsSpace(s[i])
    decreases |s|
  {
    if s != [] && IsSpace(s[0]) {
      TrimStartSpec(s[1..]);
      forall i | 1 <= i < |s| - |TrimStart(s)|
        ensures IsSpace(s[i])
      {
        assert s[i] == s[1..][i - 1];
      }
    }
  }

  /** `s.rstrip()`. */
  function TrimEnd(s: string): (r: string)
    ensures |r| <= |s| && r == s[..|r|]
    ensures r != [] ==> !IsSpace(r[|r| - 1])
  {
    if s != [] && IsSpace(s[|s| - 1]) then TrimEnd(s[..|s| - 1]) else s
  }

  /** `rstrip` removes whitespace only. */
  lemma {:induction false} TrimEndSpec(s: string)
    ensures forall i :: |TrimEnd(s)| <= i < |s| ==> IsSpace(s[i])
    decreases |s|
  {
    if s != [] && IsSpace(s[|s| - 1]) {
      TrimEndSpec(s[..|s| - 1]);
      forall i | |TrimEnd(s)| <= i < |s| - 1
        ensures IsSpace(s[i])
      {
        assert s[i] == s[..|s| - 1][i];
      }
    }
  }

  /** `s.strip()`. */
  function Strip(s: string): string
  {
    TrimEnd(TrimStart(s))
  }

  /** `re.sub(p, r, s)` read as a literal pattern: every occurrence of `p`,
      left to right and without overlap, replaced by `r`. */
  function ReplaceAll(s: string, p: string, r: string): string
    requires |p| > 0
    decreases |s|
  {
    if |s| < |p| then s
    else if s[..|p|] == p then r + ReplaceAll(s[|p|..], p, r)
    else [s[0]] + ReplaceAll(s[1..], p, r)
  }

  /** A text that does not contain `p` is not changed by replacing `p`. */
  lemma {:induction false} ReplaceAllAbsent(s: string, p: string, r: string)
    requires |p| > 0 && !Contains(s, p)
    ensures ReplaceAll(s, p, r) == s
    decreases |s|
  {
    if |s| >= |p| {
      ReplaceAllAbsent(s[1..], p, r);
      assert s == [s[0]] + s[1..];
    }
  }

  /** The leading whitespace of `s`: what `s.lstrip()` removes. */
  function LeadingWhitespace(s: string): (w: string)
    ensures |w| <= |s| && s == w + TrimStart(s)
  {
    s[..|s| - |TrimStart(s)|]
  }

  /** When the stripped text starts with `p` (and `p` does not start with
      whitespace), the first occurrence of `p` is the one right after the
      leading whitespace, and replacing keeps that whitespace in front. */
  lemma ReplaceAllAfterLeadingSpace(s: string, p: string, r: string)
    requires |p| > 0 && !IsSpace(p[0]) && StartsWith(Strip(s), p)
    ensures |LeadingWhitespace(s)| + |p| <= |s|
    ensures ReplaceAll(s, p, r) == LeadingWhitespace(s) + r + ReplaceAll(s[|LeadingWhitespace(s)| + |p|..], p, r)
  {
    StripStartsWith(s, p);
    ReplaceAllAfterTrim(s, p, r);
  }

  lemma StripStartsWith(s: string, p: string)
    requires StartsWith(Strip(s), p)
    ensures StartsWith(TrimStart(s), p)
  {
    var t := TrimStart(s);
    var u := TrimEnd(t);
    assert u == t[..|u|];
    assert t[..|p|] == u[..|p|];
  }

  lemma ReplaceAllAfterTrim(s: string, p: string, r: string)
    requires |p| > 0 && !IsSpace(p[0]) && StartsWith(TrimStart(s), p)
    ensures |LeadingWhitespace(s)| + |p| <= |s|
    ensures ReplaceAll(s, p, r) == LeadingWhitespace(s) + r + ReplaceAll(s[|LeadingWhitespace(s)| + |p|..], p, r)
  {
    var t := TrimStart(s);
    var w := LeadingWhitespace(s);
    SpacesBeforeStart(s, p[0]);
    ReplaceAfterPrefix(w, t, p, r);
    assert t[|p|..] == s[|w| + |p|..];
  }

  /** The leading whitespace holds no character that is not a space. */
  lemma SpacesBeforeStart(s: string, c: char)
    requires !IsSpace(c)
    ensures forall i :: 0 <= i < |LeadingWhitespace(s)| ==> LeadingWhitespace(s)[i] != c
  {
    var w := LeadingWhitespace(s);
    TrimStartSpec(s);
    forall i | 0 <= i < |w|
      ensures w[i] != c
    {
      assert w[i] == s[i];
    }
  }

  /** Text that cannot start `p`, then `p`: the occurrence after the text
      is the first one replaced. */
  lemma ReplaceAfterPrefix(w: string, t: string, p: string, r: string)
    requires |p| > 0 && StartsWith(t, p) && forall i :: 0 <= i < |w| ==> w[i] != p[0]
    ensures ReplaceAll(w + t, p, r) == w + r + ReplaceAll(t[|p|..], p, r)
  {
    ReplaceAllSkips(w, t, p, r);
    ReplaceAllHead(t, p, r);
  }

  /** A text starting with `p` has that occurrence replaced first. */
  lemma ReplaceAllHead(t: string, p: string, r: string)
    requires |p| > 0 && StartsWith(t, p)
    ensures ReplaceAll(t, p, r) == r + ReplaceAll(t[|p|..], p, r)
  {
  }

  /** Text none of whose characters can start `p` passes through a replacement unchanged. */
  lemma {:induction false} ReplaceAllSkips(w: string, t: string, p: string, r: string)
    requires |p| > 0 && forall i :: 0 <= i < |w| ==> w[i] != p[0]
    ensures ReplaceAll(w + t, p, r) == w + ReplaceAll(t, p, r)
    decreases |w|
  {
    if w != [] {
      var s := w + t;
      assert s[1..] == w[1..] + t;
      ReplaceAllSkips(w[1..], t, p, r);
      if |s| >= |p| {
        assert s[..|p|][0] == w[0];
        assert ReplaceAll(s, p, r) == [s[0]] + ReplaceAll(s[1..], p, r);
      } else {
        assert ReplaceAll(t, p, r) == t;
      }
      assert s == [w[0]] + (w[1..] + t);
    } else {
      assert w + t == t;
    }
  }

  /** `sep.join(parts)`. */
  function Join(sep: string, parts: seq<string>): string
  {
    if |parts| == 0 then ""
    else if |parts| == 1 then parts[0]
    else parts[0] + sep + Join(sep, parts[1..])
  }

  /** `str(n)` for a non-negative integer: decimal digits, no leading zero. */
  function NatToString(n: nat): (r: string)
    ensures |r| >= 1 && forall i :: 0 <= i < |r| ==> '0' <= r[i] <= '9'
    ensures n >= 10 ==> r[0] != '0'
  {
    if n < 10 then ["0123456789"[n]]
    else NatToString(n / 10) + ["0123456789"[n % 10]]
  }

  /** The number a string of decimal digits denotes, most significant first. */
  function DigitsValue(r: string): int
  {
    if r == [] then 0 else 10 * DigitsValue(r[..|r| - 1]) + (r[|r| - 1] as int - '0' as int)
  }

  /** `str(n)` reads back as `n`. */
  lemma {:induction false} NatToStringValue(n: nat)
    ensures DigitsValue(NatToString(n)) == n
  {
    if n >= 10 {
      NatToStringValue(n / 10);
      var r := NatToString(n);
      assert r[..|r| - 1] == NatToString(n / 10);
    }
    DigitChar(n % 10);
  }

  lemma DigitChar(d: nat)
    requires d < 10
    ensures "0123456789"[d] as int - '0' as int == d
  {
  }
}
