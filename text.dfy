/** The JavaScript string primitives the handlers rely on: `trim`, `split`
    and a join that undoes it, `slice(0, n)`, `startsWith`, lower-casing,
    decimal digit strings and the UTF-16 `length`. */
module Text {
  import opened Wrappers

  /** The ECMAScript WhiteSpace and LineTerminator code points, the
      characters `String.prototype.trim` removes: TAB, LF, VT, FF, CR and
      SPACE below U+00A0, and the ones listed in `WideWhitespace` above. */
  predicate IsWhitespace(c: char) {
    if c < '\U{00A0}' then c == ' ' || '\t' <= c <= '\r' else OccursIn(c, WideWhitespace)
  }

  /** NBSP, U+1680, U+2000 to U+200A, LS, PS, U+202F, U+205F, U+3000 and
      the byte order mark U+FEFF. */
  const WideWhitespace: seq<char> := [
    '\U{00A0}', '\U{1680}', '\U{2000}', '\U{2001}', '\U{2002}', '\U{2003}',
    '\U{2004}', '\U{2005}', '\U{2006}', '\U{2007}', '\U{2008}', '\U{2009}',
    '\U{200A}', '\U{2028}', '\U{2029}', '\U{202F}', '\U{205F}', '\U{3000}',
    '\U{FEFF}'
  ]

  /** `c` is one of `cs`, looked up one element at a time. */
  predicate OccursIn(c: char, cs: seq<char>) {
    cs != [] && (cs[0] == c || OccursIn(c, cs[1..]))
  }

  /** The set written out, as ECMAScript (section 12.2, White Space, and
      section 12.3, Line Terminators) lists it: TAB, VT, FF, SPACE, NBSP,
      ZWNBSP and the other space separators, then LF, CR, LS and PS. */
  const EcmaWhitespace: set<char> := {
    '\t', '\U{000B}', '\U{000C}', ' ', '\U{00A0}', '\U{FEFF}',
    '\U{1680}', '\U{2000}', '\U{2001}', '\U{2002}', '\U{2003}', '\U{2004}',
    '\U{2005}', '\U{2006}', '\U{2007}', '\U{2008}', '\U{2009}', '\U{200A}',
    '\U{202F}', '\U{205F}', '\U{3000}',
    '\n', '\r', '\U{2028}', '\U{2029}'
  }

  /** `IsWhitespace` is exactly that set. */
  lemma WhitespaceExactly(c: char)
    ensures IsWhitespace(c) <==> c in EcmaWhitespace
  {
    OccursInMembership(c, WideWhitespace);
  }

  lemma {:induction false} OccursInMembership(c: char, cs: seq<char>)
    ensures OccursIn(c, cs) <==> c in cs
  {
    if cs != [] {
      OccursInMembership(c, cs[1..]);
      assert cs == [cs[0]] + cs[1..];
    }
  }

  /** No character above U+FFFF is whitespace. */
  lemma AstralIsNotWhitespace(c: char)
    requires c as int > 0xFFFF
    ensures !IsWhitespace(c)
  {
    WhitespaceExactly(c);
  }

  /** The length of the whitespace run at the start of `s`. */
  function LeadingWhitespace(s: string): (n: nat)
    ensures n <= |s|
    ensures n < |s| ==> !IsWhitespace(s[n])
  {
    if s != [] && IsWhitespace(s[0]) then 1 + LeadingWhitespace(s[1..]) else 0
  }

  /** The length of the whitespace run at the end of `s`. */
  function TrailingWhitespace(s: string): (n: nat)
    ensures n <= |s|
    ensures n < |s| ==> !IsWhitespace(s[|s| - 1 - n])
  {
    if s != [] && IsWhitespace(s[|s| - 1]) then 1 + TrailingWhitespace(s[..|s| - 1]) else 0
  }

  predicate AllWhitespace(w: string) {
    forall k :: 0 <= k < |w| ==> IsWhitespace(w[k])
  }

  /** The leading run is whitespace. */
  lemma {:induction false} LeadingRunIsWhitespace(s: string)
    ensures AllWhitespace(s[..LeadingWhitespace(s)])
  {
    if s != [] && IsWhitespace(s[0]) {
      LeadingRunIsWhitespace(s[1..]);
      var n := LeadingWhitespace(s);
      assert s[..n] == [s[0]] + s[1..][..n - 1];
    }
  }

  /** The trailing run is whitespace. */
  lemma {:induction false} TrailingRunIsWhitespace(s: string)
    ensures AllWhitespace(s[|s| - TrailingWhitespace(s)..])
  {
    if s != [] && IsWhitespace(s[|s| - 1]) {
      var p := s[..|s| - 1];
      TrailingRunIsWhitespace(p);
      var m := |s| - TrailingWhitespace(s);
      assert s[m..] == p[m..] + [s[|s| - 1]];
    }
  }

  /** `s.trim()`: what is left of `s` after removing the whitespace run at
      each end. */
  function Trim(s: string): (r: string)
    ensures |r| <= |s|
    ensures Trimmed(r)
  {
    var t := s[LeadingWhitespace(s)..];
    t[..|t| - TrailingWhitespace(t)]
  }

  /** `trim` removes whitespace and nothing else: `s` is a whitespace run,
      then the result, then another whitespace run. */
  lemma TrimRemovesOnlyWhitespace(s: string)
    ensures var r := Trim(s); var i := LeadingWhitespace(s);
      && i + |r| <= |s| && s[i..i + |r|] == r
      && AllWhitespace(s[..i]) && AllWhitespace(s[i + |r|..])
  {
    var i := LeadingWhitespace(s);
    var t := s[i..];
    var r := Trim(s);
    LeadingRunIsWhitespace(s);
    TrailingRunIsWhitespace(t);
    assert s[i + |r|..] == t[|r|..];
  }

  /** A string with nothing for `trim` to remove: no whitespace at either
      end. */
  predicate Trimmed(s: string) {
    s == [] || (!IsWhitespace(s[0]) && !IsWhitespace(s[|s| - 1]))
  }

  /** `trim` is idempotent: it leaves a trimmed string as it is. */
  lemma TrimTrimmed(s: string)
    requires Trimmed(s)
    ensures Trim(s) == s
  {
    assert LeadingWhitespace(s) == 0;
    assert s[0..] == s;
    assert TrailingWhitespace(s) == 0;
  }

  /** `String(param ?? '').trim()`: a query parameter, absent read as
      empty, with surrounding whitespace removed. */
  function TrimmedParam(param: Option<string>): (r: string)
    ensures Trimmed(r)
    ensures param.None? ==> r == ""
    ensures param.Some? ==> r == Trim(param.value)
  {
    Trim(if param.Some? then param.value else "")
  }

  /** `text.slice(0, n)`. */
  function Prefix(s: string, n: nat): (r: string)
    ensures |r| <= n && r <= s
    ensures |s| <= n ==> r == s
    ensures |r| == if |s| <= n then |s| else n
  {
    if |s| <= n then s else s[..n]
  }

  /** `s.startsWith(p)`. */
  function StartsWith(s: string, p: string): (r: bool)
    ensures r <==> |p| <= |s| && s[..|p|] == p
  {
    p <= s
  }

  /** `s.split(sep)` for a one-character separator: the pieces between
      separators, at least one (`"".split(",")` is `[""]`). */
  function Split(s: string, sep: char): (parts: seq<string>)
    ensures |parts| >= 1
    ensures forall i :: 0 <= i < |parts| ==> sep !in parts[i]
    ensures Join(parts, sep) == s
  {
    if s == [] then [""]
    else
      var rest := Split(s[1..], sep);
      if s[0] == sep then [""] + rest
      else [[s[0]] + rest[0]] + rest[1..]
  }

  /** `parts.join(sep)`. */
  function Join(parts: seq<string>, sep: char): string {
    if |parts| == 0 then ""
    else if |parts| == 1 then parts[0]
    else parts[0] + [sep] + Join(parts[1..], sep)
  }

  lemma {:induction false} SplitPieceThenRest(p: string, sep: char, rest: string)
    requires sep !in p
    ensures Split(p + [sep] + rest, sep) == [p] + Split(rest, sep)
  {
    if p != [] {
      assert (p + [sep] + rest)[1..] == p[1..] + [sep] + rest;
      SplitPieceThenRest(p[1..], sep, rest);
      assert [p[0]] + p[1..] == p;
    } else {
      assert (p + [sep] + rest)[1..] == rest;
    }
  }

  lemma {:induction false} SplitWithoutSeparator(p: string, sep: char)
    requires sep !in p
    ensures Split(p, sep) == [p]
  {
    if p != [] {
      SplitWithoutSeparator(p[1..], sep);
      assert [p[0]] + p[1..] == p;
    }
  }

  /** `split` undoes `join` whenever no part contains the separator and
      there is at least one part. */
  lemma {:induction false} SplitJoin(parts: seq<string>, sep: char)
    requires |parts| >= 1
    requires forall i :: 0 <= i < |parts| ==> sep !in parts[i]
    ensures Split(Join(parts, sep), sep) == parts
  {
    if |parts| == 1 {
      SplitWithoutSeparator(parts[0], sep);
    } else {
      SplitJoin(parts[1..], sep);
      SplitPieceThenRest(parts[0], sep, Join(parts[1..], sep));
      assert [parts[0]] + parts[1..] == parts;
    }
  }

  /** `s.toLowerCase()` restricted to ASCII letters. */
  function ToLowerAscii(s: string): (r: string)
    ensures |r| == |s|
    ensures forall i :: 0 <= i < |r| ==> !('A' <= r[i] <= 'Z')
    ensures forall i :: 0 <= i < |s| && !('A' <= s[i] <= 'Z') ==> r[i] == s[i]
    ensures forall i :: 0 <= i < |s| && 'A' <= s[i] <= 'Z' ==> r[i] as int == s[i] as int + 32
  {
    seq(|s|, i requires 0 <= i < |s| =>
      if 'A' <= s[i] <= 'Z' then (s[i] as int - 'A' as int + 'a' as int) as char else s[i])
  }

  /** The number of UTF-16 code units of `s`, which is what JavaScript's
      `length` counts: code points above U+FFFF take two. */
  function Utf16Length(s: string): (n: nat)
    ensures |s| <= n <= 2 * |s|
    ensures (forall i :: 0 <= i < |s| ==> s[i] as int <= 0xFFFF) ==> n == |s|
    ensures (forall i :: 0 <= i < |s| ==> s[i] as int > 0xFFFF) ==> n == 2 * |s|
  {
    if s == [] then 0
    else
      assert forall i :: 0 <= i < |s| - 1 ==> s[1..][i] == s[i + 1];
      (if s[0] as int > 0xFFFF then 2 else 1) + Utf16Length(s[1..])
  }

  /** One character is one code unit, or a surrogate pair above U+FFFF. */
  lemma Utf16LengthOne(c: char)
    ensures Utf16Length([c]) == if c as int > 0xFFFF then 2 else 1
  {
    assert [c][1..] == [];
  }

  /** The `length` of a concatenation is the sum of the lengths. */
  lemma {:induction false} Utf16LengthAppend(a: string, b: string)
    ensures Utf16Length(a + b) == Utf16Length(a) + Utf16Length(b)
  {
    if a == [] {
      assert a + b == b;
    } else {
      assert (a + b)[0] == a[0];
      assert (a + b)[1..] == a[1..] + b;
      Utf16LengthAppend(a[1..], b);
    }
  }

  predicate IsDigit(c: char) {
    '0' <= c <= '9'
  }

  predicate AllDigits(s: string) {
    forall i :: 0 <= i < |s| ==> IsDigit(s[i])
  }

  /** The value of a string of decimal digits (`Number`/`parseInt` on it). */
  function DigitsValue(s: string): (v: nat)
    requires AllDigits(s)
    ensures v == 0 <==> forall i :: 0 <= i < |s| ==> s[i] == '0'
  {
    if s == [] then 0
    else
      var init := s[..|s| - 1];
      assert forall i :: 0 <= i < |init| ==> init[i] == s[i];
      DigitsValue(init) * 10 + (s[|s| - 1] as int - '0' as int)
  }

  /** Leading zeros do not change the value: "01" reads as 1. */
  lemma {:induction false} DigitsValueLeadingZero(s: string)
    requires AllDigits(s)
    ensures AllDigits("0" + s) && DigitsValue("0" + s) == DigitsValue(s)
  {
    if s != [] {
      DigitsValueLeadingZero(s[..|s| - 1]);
      assert ("0" + s)[..|s|] == "0" + s[..|s| - 1];
    }
  }

  /** The decimal rendering of `n` (`String(n)` for an integer). */
  function Decimal(n: nat): (r: string)
    ensures |r| >= 1 && AllDigits(r)
    ensures DigitsValue(r) == n
    ensures n > 0 ==> r[0] != '0'
    ensures |r| == 1 || r[0] != '0'
  {
    if n < 10 then [('0' as int + n) as char]
    else
      var r := Decimal(n / 10) + [('0' as int + n % 10) as char];
      assert r[..|r| - 1] == Decimal(n / 10);
      r
  }
}
