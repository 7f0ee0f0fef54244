/**
 * String primitives the shop's code relies on, with the exact semantics of the
 * runtime that executes them: Python's str.strip / int() / str.split / str.replace
 * on the back end, ECMAScript's String.prototype.trim, /\s/ and Array.join on the
 * front end.
 */
module Text {
  import opened Wrappers

  /** Which runtime's notion of white space applies. */
  datatype Dialect = Python | JavaScript

  /**
   * Python: the characters for which str.isspace() holds.
   * ECMAScript: WhiteSpace and LineTerminator, which is what trim() and /\s/ use.
   * They differ on U+001C..U+001F and U+0085 (Python only) and U+FEFF (ECMAScript only).
   */
  predicate IsSpace(d: Dialect, c: char)
  {
    match d
    case Python =>
      ('\t' <= c <= '\r') || ('\U{1C}' <= c <= '\U{1F}') || c == ' ' || c == '\U{85}' || c == '\U{A0}'
      || c == '\U{1680}' || ('\U{2000}' <= c <= '\U{200A}') || c == '\U{2028}' || c == '\U{2029}'
      || c == '\U{202F}' || c == '\U{205F}' || c == '\U{3000}'
    case JavaScript =>
      ('\t' <= c <= '\r') || c == ' ' || c == '\U{A0}'
      || c == '\U{1680}' || ('\U{2000}' <= c <= '\U{200A}') || c == '\U{2028}' || c == '\U{2029}'
      || c == '\U{202F}' || c == '\U{205F}' || c == '\U{3000}' || c == '\U{FEFF}'
  }

  predicate AllSpace(d: Dialect, s: string)
  {
    forall i :: 0 <= i < |s| ==> IsSpace(d, s[i])
  }

  /** Leading white space removed. */
  function TrimStart(d: Dialect, s: string): string
  {
    if s != [] && IsSpace(d, s[0]) then TrimStart(d, s[1..]) else s
  }

  /** Trailing white space removed. */
  function TrimEnd(d: Dialect, s: string): string
  {
    if s != [] && IsSpace(d, s[|s| - 1]) then TrimEnd(d, s[..|s| - 1]) else s
  }

  /** TrimStart removes a white-space prefix and stops at the first other character. */
  lemma {:induction false} TrimStartShape(d: Dialect, s: string)
    ensures var r := TrimStart(d, s);
      |r| <= |s| && r == s[|s| - |r|..] && (r == [] || !IsSpace(d, r[0])) && AllSpace(d, s[..|s| - |r|])
  {
    if s != [] && IsSpace(d, s[0]) {
      TrimStartShape(d, s[1..]);
      var r := TrimStart(d, s);
      var dropped := s[..|s| - |r|];
      assert dropped == [s[0]] + s[1..][..|s| - 1 - |r|];
      forall i | 0 <= i < |dropped|
        ensures IsSpace(d, dropped[i])
      {
        if i > 0 { assert dropped[i] == s[1..][..|s| - 1 - |r|][i - 1]; }
      }
    }
  }

  /** TrimEnd removes a white-space suffix and stops at the last other character. */
  lemma {:induction false} TrimEndShape(d: Dialect, s: string)
    ensures var r := TrimEnd(d, s);
      |r| <= |s| && r == s[..|r|] && (r == [] || !IsSpace(d, r[|r| - 1])) && AllSpace(d, s[|r|..])
  {
    if s != [] && IsSpace(d, s[|s| - 1]) {
      var init := s[..|s| - 1];
      TrimEndShape(d, init);
      var r := TrimEnd(d, s);
      var dropped := s[|r|..];
      assert dropped == init[|r|..] + [s[|s| - 1]];
      forall i | 0 <= i < |dropped|
        ensures IsSpace(d, dropped[i])
      {
        if i < |dropped| - 1 { assert dropped[i] == init[|r|..][i]; }
      }
    }
  }

  /** Python's s.strip() and ECMAScript's s.trim(). */
  function Trim(d: Dialect, s: string): (r: string)
  {
    TrimEnd(d, TrimStart(d, s))
  }

  /** The trimmed string is a slice of the input with no white space at either edge. */
  lemma TrimEdges(d: Dialect, s: string)
    ensures var r := Trim(d, s); r == [] || (!IsSpace(d, r[0]) && !IsSpace(d, r[|r| - 1]))
    ensures |Trim(d, s)| <= |s|
  {
    var a := TrimStart(d, s);
    TrimStartShape(d, s);
    TrimEndShape(d, a);
    var r := TrimEnd(d, a);
    if r != [] {
      assert r[0] == a[0];
    }
  }

  /** A string trims to nothing exactly when it is all white space. */
  lemma TrimEmptyIff(d: Dialect, s: string)
    ensures Trim(d, s) == [] <==> AllSpace(d, s)
  {
    var a := TrimStart(d, s);
    TrimStartShape(d, s);
    TrimEndShape(d, a);
    assert s == s[..|s| - |a|] + a;
    if a != [] {
      assert a[0] == s[|s| - |a|];
      assert a[0..] == a;
    }
  }

  /** A string that has no white space at its edges is its own trimmed form. */
  lemma TrimFixed(d: Dialect, s: string)
    requires s == [] || (!IsSpace(d, s[0]) && !IsSpace(d, s[|s| - 1]))
    ensures Trim(d, s) == s
  {
  }

  /** Lower-casing of the ASCII letters A-Z; every other character is kept. */
  function AsciiLower(c: char): (r: char)
    ensures 'A' <= c <= 'Z' ==> 'a' <= r <= 'z'
    ensures !('A' <= c <= 'Z') ==> r == c
  {
    if 'A' <= c <= 'Z' then (c as int - 'A' as int + 'a' as int) as char else c
  }

  function ToLower(s: string): (r: string)
    ensures |r| == |s|
    ensures forall i :: 0 <= i < |s| ==> r[i] == AsciiLower(s[i])
  {
    if s == [] then [] else [AsciiLower(s[0])] + ToLower(s[1..])
  }

  predicate IsAsciiDigit(c: char) { '0' <= c <= '9' }

  /**
   * The decimal digits Python's int() accepts that this model covers: ASCII,
   * Arabic-Indic (U+0660..U+0669) and Extended Arabic-Indic / Persian (U+06F0..U+06F9).
   */
  predicate IsDigit(c: char)
  {
    IsAsciiDigit(c) || ('\U{660}' <= c <= '\U{669}') || ('\U{6F0}' <= c <= '\U{6F9}')
  }

  function DigitValue(c: char): (v: nat)
    requires IsDigit(c)
    ensures v < 10
  {
    if IsAsciiDigit(c) then c as int - '0' as int
    else if c <= '\U{669}' then c as int - 0x660
    else c as int - 0x6F0
  }

  /** Value of a non-empty run of digits, most significant first. */
  /**
   * The value of a Python integer literal body: decimal digits, with single
   * underscores allowed between digits. None when the text does not have that form.
   */
  function DigitRun(s: string): (r: Option<nat>)
    ensures r.Some? ==> s != [] && IsDigit(s[0]) && IsDigit(s[|s| - 1])
  {
    if s == [] || !IsDigit(s[|s| - 1]) then None
    else if |s| == 1 then Some(DigitValue(s[0]))
    else
      var init := s[..|s| - 1];
      var digits := if init[|init| - 1] == '_' then init[..|init| - 1] else init;
      match DigitRun(digits)
      case None => None
      case Some(v) =>
        assert digits[0] == s[0];
        Some(v * 10 + DigitValue(s[|s| - 1]))
  }

  /**
   * Python's int(s) for a str: surrounding white space is ignored, one optional
   * sign, then digit groups. None stands for the ValueError it raises.
   */
  function PyInt(s: string): (r: Option<int>)
  {
    var t := Trim(Python, s);
    if t == [] then None
    else
      var body := if t[0] == '-' || t[0] == '+' then t[1..] else t;
      match DigitRun(body)
      case None => None
      case Some(v) => var i: int := v; Some(if t[0] == '-' then -i else i)
  }

  function DigitChar(d: nat): (c: char)
    requires d < 10
    ensures IsAsciiDigit(c) && DigitValue(c) == d
  {
    ('0' as int + d) as char
  }

  /** Python's str(n) for a non-negative int. */
  function NatToString(n: nat): (s: string)
    ensures |s| > 0
    ensures forall i :: 0 <= i < |s| ==> IsAsciiDigit(s[i])
    ensures n > 0 ==> s[0] != '0'
    decreases n
  {
    if n < 10 then [DigitChar(n)] else NatToString(n / 10) + [DigitChar(n % 10)]
  }

  /** Reading the decimal text back gives the number: the conversion loses nothing. */
  lemma {:induction false} NatToStringRoundTrip(n: nat)
    ensures DigitRun(NatToString(n)) == Some(n)
    decreases n
  {
    if n >= 10 {
      var s := NatToString(n);
      assert s[..|s| - 1] == NatToString(n / 10);
      NatToStringRoundTrip(n / 10);
    }
  }

  /** Distinct numbers print differently. */
  lemma NatToStringInjective(a: nat, b: nat)
    requires NatToString(a) == NatToString(b)
    ensures a == b
  {
    NatToStringRoundTrip(a);
    NatToStringRoundTrip(b);
  }

  /** Python's int() reads back what str() wrote for a non-negative int. */
  lemma PyIntNatToString(n: nat)
    ensures PyInt(NatToString(n)) == Some(n)
  {
    var s := NatToString(n);
    assert IsAsciiDigit(s[0]) && IsAsciiDigit(s[|s| - 1]);
    TrimFixed(Python, s);
    NatToStringRoundTrip(n);
  }

  /** Python's str(i) for any int. */
  function IntToString(i: int): (s: string)
    ensures |s| > 0
  {
    if i < 0 then "-" + NatToString(-i) else NatToString(i)
  }

  /** Python's int(x) for a Decimal: truncation toward zero. */
  function TruncToInt(x: real): (i: int)
    ensures x >= 0.0 ==> i as real <= x < i as real + 1.0
    ensures x < 0.0 ==> i as real - 1.0 < x <= i as real
  {
    if x >= 0.0 then x.Floor else -((-x).Floor)
  }

  /** Python's s.split(sep) for a one-character separator. */
  function Split(s: string, sep: char): (r: seq<string>)
    ensures |r| >= 1
    ensures forall k :: 0 <= k < |r| ==> sep !in r[k]
  {
    if s == [] then [""]
    else
      var t := Split(s[1..], sep);
      if s[0] == sep then [""] + t else [[s[0]] + t[0]] + t[1..]
  }

  /** Python's sep.join(parts) for a non-empty list (the inverse of Split). */
  function Join(parts: seq<string>, sep: char): string
    requires |parts| >= 1
  {
    if |parts| == 1 then parts[0] else parts[0] + [sep] + Join(parts[1..], sep)
  }

  /** ECMAScript's Array.prototype.join(sep) over strings: [] joins to "". */
  function JoinAll(parts: seq<string>, sep: char): string
  {
    if parts == [] then "" else Join(parts, sep)
  }

  lemma {:induction false} JoinSplit(s: string, sep: char)
    ensures Join(Split(s, sep), sep) == s
  {
    if s != [] {
      var t := Split(s[1..], sep);
      JoinSplit(s[1..], sep);
      if s[0] != sep {
        JoinConsFirst(s[0], t, sep);
      }
    }
  }

  lemma {:induction false} JoinConsFirst(c: char, t: seq<string>, sep: char)
    requires |t| >= 1
    ensures Join([[c] + t[0]] + t[1..], sep) == [c] + Join(t, sep)
  {
    var u := [[c] + t[0]] + t[1..];
    if |t| > 1 {
      assert u[1..] == t[1..];
    }
  }

  lemma {:induction false} SplitJoin(parts: seq<string>, sep: char)
    requires |parts| >= 1
    requires forall k :: 0 <= k < |parts| ==> sep !in parts[k]
    ensures Split(Join(parts, sep), sep) == parts
    decreases parts
  {
    if |parts| == 1 {
      SplitNoSep(parts[0], sep);
    } else {
      SplitJoin(parts[1..], sep);
      SplitPrefix(parts[0], Join(parts[1..], sep), sep);
      assert parts == [parts[0]] + parts[1..];
    }
  }

  lemma {:induction false} SplitNoSep(s: string, sep: char)
    requires sep !in s
    ensures Split(s, sep) == [s]
  {
    if s != [] {
      SplitNoSep(s[1..], sep);
      assert [s[0]] + s[1..] == s;
    }
  }

  lemma {:induction false} SplitPrefix(w: string, rest: string, sep: char)
    requires sep !in w
    ensures Split(w + [sep] + rest, sep) == [w] + Split(rest, sep)
  {
    if w == [] {
      assert ([] + [sep] + rest)[1..] == rest;
    } else {
      var s := w + [sep] + rest;
      assert s[1..] == w[1..] + [sep] + rest;
      SplitPrefix(w[1..], rest, sep);
      assert [w[0]] + w[1..] == w;
    }
  }

  /** Whether p occurs in s starting at position i. */
  predicate OccursAt(s: string, p: string, i: nat)
  {
    i + |p| <= |s| && s[i..i + |p|] == p
  }

  /**
   * Python's s.replace(p, v) for a non-empty pattern: a left-to-right scan that
   * replaces non-overlapping occurrences.
   */
  function ReplaceAll(s: string, p: string, v: string): string
    requires |p| > 0
    decreases |s|
  {
    if |s| < |p| then s
    else if s[..|p|] == p then v + ReplaceAll(s[|p|..], p, v)
    else [s[0]] + ReplaceAll(s[1..], p, v)
  }

  /** The text between the occurrences that the same scan finds (Python's s.split(p)). */
  function SplitOn(s: string, p: string): (r: seq<string>)
    requires |p| > 0
    ensures |r| >= 1
    decreases |s|
  {
    if |s| < |p| then [s]
    else if s[..|p|] == p then [""] + SplitOn(s[|p|..], p)
    else
      var t := SplitOn(s[1..], p);
      [[s[0]] + t[0]] + t[1..]
  }

  function JoinOn(parts: seq<string>, v: string): string
    requires |parts| >= 1
  {
    if |parts| == 1 then parts[0] else parts[0] + v + JoinOn(parts[1..], v)
  }

  lemma {:induction false} JoinOnConsFirst(c: char, t: seq<string>, v: string)
    requires |t| >= 1
    ensures JoinOn([[c] + t[0]] + t[1..], v) == [c] + JoinOn(t, v)
  {
    var u := [[c] + t[0]] + t[1..];
    if |t| > 1 {
      assert u[1..] == t[1..];
    }
  }

  /**
   * Replacing is splitting at every occurrence and gluing the pieces back with
   * the replacement: every occurrence is replaced and the text between them is kept.
   */
  lemma {:induction false} ReplaceIsSplitJoin(s: string, p: string, v: string)
    requires |p| > 0
    ensures ReplaceAll(s, p, v) == JoinOn(SplitOn(s, p), v)
    decreases |s|
  {
    if |s| >= |p| {
      if s[..|p|] == p {
        ReplaceIsSplitJoin(s[|p|..], p, v);
      } else {
        ReplaceIsSplitJoin(s[1..], p, v);
        JoinOnConsFirst(s[0], SplitOn(s[1..], p), v);
      }
    }
  }

  /** Replacing a pattern by itself changes nothing. */
  lemma {:induction false} ReplaceBySelf(s: string, p: string)
    requires |p| > 0
    ensures ReplaceAll(s, p, p) == s
    decreases |s|
  {
    if |s| >= |p| {
      if s[..|p|] == p {
        ReplaceBySelf(s[|p|..], p);
        assert p + s[|p|..] == s;
      } else {
        ReplaceBySelf(s[1..], p);
        assert [s[0]] + s[1..] == s;
      }
    }
  }

  /** The pieces SplitOn yields put back together with the pattern give the original text. */
  lemma SplitOnJoin(s: string, p: string)
    requires |p| > 0
    ensures JoinOn(SplitOn(s, p), p) == s
  {
    ReplaceIsSplitJoin(s, p, p);
    ReplaceBySelf(s, p);
  }

  /** Text that does not contain the pattern is left exactly as it is. */
  lemma {:induction false} ReplaceAbsent(s: string, p: string, v: string)
    requires |p| > 0
    requires forall i :: 0 <= i <= |s| - |p| ==> !OccursAt(s, p, i)
    ensures ReplaceAll(s, p, v) == s
    decreases |s|
  {
    if |s| >= |p| {
      assert !OccursAt(s, p, 0);
      forall i | 0 <= i <= |s[1..]| - |p|
        ensures !OccursAt(s[1..], p, i)
      {
        assert !OccursAt(s, p, i + 1);
        assert s[1..][i..i + |p|] == s[i + 1..i + 1 + |p|];
      }
      ReplaceAbsent(s[1..], p, v);
      assert [s[0]] + s[1..] == s;
    }
  }

  /** An occurrence at the very start is replaced. */
  lemma ReplaceAtStart(p: string, rest: string, v: string)
    requires |p| > 0
    ensures ReplaceAll(p + rest, p, v) == v + ReplaceAll(rest, p, v)
  {
    assert (p + rest)[..|p|] == p;
    assert (p + rest)[|p|..] == rest;
  }

  /**
   * A DRF CharField declared with allow_null and allow_blank: null stays
   * null and text is stripped of Python white space at both ends, so text that
   * is all white space becomes the empty string.
   */
  function StripNullable(n: Option<string>): (r: Option<string>)
    ensures r.None? <==> n.None?
    ensures r.Some? ==> |r.value| <= |n.value|
    ensures r.Some? ==> (r.value == [] <==> AllSpace(Python, n.value))
    ensures r.Some? && r.value != [] ==>
      !IsSpace(Python, r.value[0]) && !IsSpace(Python, r.value[|r.value| - 1])
  {
    match n
    case None => None
    case Some(s) =>
      TrimEdges(Python, s);
      TrimEmptyIff(Python, s);
      Some(Trim(Python, s))
  }

  /** Stripped text is its own stripped form: a second validation keeps it as stored. */
  lemma StripNullableIdempotent(n: Option<string>)
    ensures StripNullable(StripNullable(n)) == StripNullable(n)
  {
    if n.Some? {
      var r := StripNullable(n).value;
      TrimFixed(Python, r);
    }
  }

  /** The same field in a partial payload, where it may also be left out. */
  function StripNullableField(f: Field<Option<string>>): (r: Field<Option<string>>)
    ensures r.Present? <==> f.Present?
    ensures r.Present? ==> r.value == StripNullable(f.value)
  {
    if f.Present? then Present(StripNullable(f.value)) else Absent
  }
}
