/**
 * The JavaScript string operations the server and the browser scripts rely on:
 * `trim`, `toLowerCase` (ASCII letters only), `includes`, `startsWith`, `endsWith`,
 * `split(/\s+/)`, `split('/').pop()`, the `\d+` digit class, `Number(...)` on a
 * digit string, `parseInt` and the decimal rendering of a number in a template.
 */
module Text {
  import opened Wrappers

  // ---------------------------------------------------------------------------
  // Character classes
  // ---------------------------------------------------------------------------

  /** ECMAScript WhiteSpace and LineTerminator: the set both `trim` and `\s` use. */
  predicate IsSpace(c: char) {
    || c == ' ' || c == '\t' || c == '\n' || c == '\r'
    || c == '\U{000B}' || c == '\U{000C}' || c == '\U{00A0}' || c == '\U{1680}'
    || ('\U{2000}' <= c <= '\U{200A}')
    || c == '\U{2028}' || c == '\U{2029}' || c == '\U{202F}' || c == '\U{205F}'
    || c == '\U{3000}' || c == '\U{FEFF}'
  }

  predicate IsDigit(c: char) {
    '0' <= c <= '9'
  }

  /** Every character is a decimal digit (possibly none). */
  predicate AllDigits(s: string) {
    forall k :: 0 <= k < |s| ==> IsDigit(s[k])
  }

  /** The regular-expression fragment `\d+`. */
  predicate IsDigits(s: string) {
    |s| > 0 && AllDigits(s)
  }

  predicate NoneIs(s: string, c: char) {
    forall k :: 0 <= k < |s| ==> s[k] != c
  }

  // ---------------------------------------------------------------------------
  // Case
  // ---------------------------------------------------------------------------

  function LowerChar(c: char): char {
    if 'A' <= c <= 'Z' then (c as int + 32) as char else c
  }

  /** `toLowerCase`, restricted to the ASCII letters. */
  function Lower(s: string): (r: string)
    ensures |r| == |s|
  {
    seq(|s|, i requires 0 <= i < |s| => LowerChar(s[i]))
  }

  lemma LowerKeepsSpaces(c: char)
    ensures IsSpace(LowerChar(c)) == IsSpace(c)
  {
  }

  lemma LowerAppend(a: string, b: string)
    ensures Lower(a + b) == Lower(a) + Lower(b)
  {
  }

  // ---------------------------------------------------------------------------
  // Trimming
  // ---------------------------------------------------------------------------

  /** Drops the leading white space: what is left is a suffix that does not start with it. */
  function TrimStart(s: string): (r: string)
    ensures |r| <= |s| && r == s[|s| - |r|..]
    ensures forall k :: 0 <= k < |s| - |r| ==> IsSpace(s[k])
    ensures r == [] || !IsSpace(r[0])
  {
    if s != [] && IsSpace(s[0]) then TrimStart(s[1..]) else s
  }

  /** Drops the trailing white space: what is left is a prefix that does not end with it. */
  function TrimEnd(s: string): (r: string)
    ensures |r| <= |s| && r == s[..|r|]
    ensures forall k :: |r| <= k < |s| ==> IsSpace(s[k])
    ensures r == [] || !IsSpace(r[|r| - 1])
  {
    if s != [] && IsSpace(s[|s| - 1]) then TrimEnd(s[..|s| - 1]) else s
  }

  /** `r` is the part of `s` from `i` on, and `s` has only white space before and after it. */
  predicate WithinSpaces(s: string, i: nat, r: string) {
    && i + |r| <= |s| && r == s[i..i + |r|]
    && (forall k :: 0 <= k < i ==> IsSpace(s[k]))
    && (forall k :: i + |r| <= k < |s| ==> IsSpace(s[k]))
  }

  /**
   * `String.prototype.trim`: the result is the input with its leading and trailing
   * white space removed, and it neither starts nor ends with white space.
   */
  function Trim(s: string): (r: string)
    ensures exists i: nat :: WithinSpaces(s, i, r)
    ensures r == [] || (!IsSpace(r[0]) && !IsSpace(r[|r| - 1]))
  {
    TrimStartThenEnd(s);
    TrimEnd(TrimStart(s))
  }

  /** Cutting the leading white space, then the trailing, leaves the middle of `s`. */
  lemma TrimStartThenEnd(s: string)
    ensures WithinSpaces(s, |s| - |TrimStart(s)|, TrimEnd(TrimStart(s)))
  {
    var t := TrimStart(s);
    var r := TrimEnd(t);
    SpacesAfterMiddle(s, |s| - |t|, t, r);
  }

  lemma SpacesAfterMiddle(s: string, i: nat, t: string, r: string)
    requires i <= |s| && t == s[i..] && |r| <= |t| && r == t[..|r|]
    requires forall k :: |r| <= k < |t| ==> IsSpace(t[k])
    ensures r == s[i..i + |r|]
    ensures forall k :: i + |r| <= k < |s| ==> IsSpace(s[k])
  {
    forall k | i + |r| <= k < |s| ensures IsSpace(s[k]) {
      assert s[k] == t[k - i];
    }
  }

  /** Trimming a trimmed string changes nothing. */
  lemma TrimIdempotent(s: string)
    ensures Trim(Trim(s)) == Trim(s)
  {
    var r := Trim(s);
    assert TrimStart(r) == r;
    assert TrimEnd(r) == r;
  }

  lemma {:induction false} TrimStartLower(s: string)
    ensures TrimStart(Lower(s)) == Lower(TrimStart(s))
  {
    if s != [] {
      LowerKeepsSpaces(s[0]);
      assert Lower(s)[0] == LowerChar(s[0]);
      assert Lower(s)[1..] == Lower(s[1..]);
      if IsSpace(s[0]) {
        TrimStartLower(s[1..]);
      }
    }
  }

  lemma {:induction false} TrimEndLower(s: string)
    ensures TrimEnd(Lower(s)) == Lower(TrimEnd(s))
  {
    if s != [] {
      LowerKeepsSpaces(s[|s| - 1]);
      assert Lower(s)[|s| - 1] == LowerChar(s[|s| - 1]);
      assert Lower(s)[..|s| - 1] == Lower(s[..|s| - 1]);
      if IsSpace(s[|s| - 1]) {
        TrimEndLower(s[..|s| - 1]);
      }
    }
  }

  /**
   * Lower-casing never creates or removes white space, so `s.trim().toLowerCase()`
   * (the admin pages) and `s.toLowerCase().trim()` (the storefront) agree.
   */
  lemma TrimLowerCommute(s: string)
    ensures Trim(Lower(s)) == Lower(Trim(s))
  {
    TrimStartLower(s);
    TrimEndLower(TrimStart(s));
  }

  /** A lower-cased trimmed string neither starts nor ends with white space. */
  lemma LowerTrimEdges(s: string)
    ensures var r := Lower(Trim(s)); r == [] || (!IsSpace(r[0]) && !IsSpace(r[|r| - 1]))
  {
    var t := Trim(s);
    if t != [] {
      LowerKeepsSpaces(t[0]);
      LowerKeepsSpaces(t[|t| - 1]);
    }
  }

  // ---------------------------------------------------------------------------
  // Prefixes, suffixes, substrings
  // ---------------------------------------------------------------------------

  predicate StartsWith(s: string, prefix: string) {
    |prefix| <= |s| && s[..|prefix|] == prefix
  }

  predicate EndsWith(s: string, suffix: string) {
    |suffix| <= |s| && s[|s| - |suffix|..] == suffix
  }

  /** `s.includes(t)`: t occurs somewhere in s (the empty string occurs everywhere). */
  predicate Contains(s: string, t: string)
    decreases |s|
  {
    StartsWith(s, t) || (s != [] && Contains(s[1..], t))
  }

  lemma {:induction false} ContainsEmpty(s: string)
    ensures Contains(s, "")
  {
  }

  /** Every string contains itself and each of its infixes. */
  lemma {:induction false} ContainsInfix(a: string, t: string, b: string)
    ensures Contains(a + t + b, t)
    decreases |a|
  {
    var s := a + t + b;
    if a == [] {
      assert s[..|t|] == t;
    } else {
      assert s[1..] == a[1..] + t + b;
      ContainsInfix(a[1..], t, b);
    }
  }

  // ---------------------------------------------------------------------------
  // split(/\s+/)
  // ---------------------------------------------------------------------------

  /** The index of the first white-space character at or after i, or |s|. */
  function NextSpace(s: string, i: nat): (r: nat)
    requires i <= |s|
    ensures i <= r <= |s|
    ensures forall k :: i <= k < r ==> !IsSpace(s[k])
    ensures r < |s| ==> IsSpace(s[r])
    decreases |s| - i
  {
    if i == |s| || IsSpace(s[i]) then i else NextSpace(s, i + 1)
  }

  /** The index just past the run of white space starting at i. */
  function SkipSpaces(s: string, i: nat): (r: nat)
    requires i <= |s|
    ensures i <= r <= |s|
    ensures forall k :: i <= k < r ==> IsSpace(s[k])
    ensures r < |s| ==> !IsSpace(s[r])
    decreases |s| - i
  {
    if i == |s| || !IsSpace(s[i]) then i else SkipSpaces(s, i + 1)
  }

  /**
   * `s.split(/\s+/)`: the pieces between maximal runs of white space. Like JavaScript,
   * a leading or trailing run yields an empty first or last piece, and "" yields [""].
   */
  function SplitOnSpaces(s: string): (r: seq<string>)
    ensures |r| >= 1
    ensures forall j :: 0 <= j < |r| ==> forall k :: 0 <= k < |r[j]| ==> !IsSpace(r[j][k])
    decreases |s|
  {
    var i := NextSpace(s, 0);
    if i == |s| then [s]
    else
      var rest := SplitOnSpaces(s[SkipSpaces(s, i)..]);
      [s[..i]] + rest
  }

  /** The runs of white space `s.split(/\s+/)` cuts at, in order. */
  function SpaceRuns(s: string): seq<string>
    decreases |s|
  {
    var i := NextSpace(s, 0);
    if i == |s| then []
    else
      var j := SkipSpaces(s, i);
      [s[i..j]] + SpaceRuns(s[j..])
  }

  /** `pieces[0] + seps[0] + pieces[1] + ... + pieces[|pieces| - 1]`. */
  function Interleave(pieces: seq<string>, seps: seq<string>): string
    requires |pieces| == |seps| + 1
    decreases |seps|
  {
    if seps == [] then pieces[0]
    else pieces[0] + seps[0] + Interleave(pieces[1..], seps[1..])
  }

  /** Each run is non-empty and all white space. */
  predicate AreSpaceRuns(seps: seq<string>) {
    forall j :: 0 <= j < |seps| ==>
      seps[j] != "" && forall k :: 0 <= k < |seps[j]| ==> IsSpace(seps[j][k])
  }

  /**
   * The pieces are the text between the runs of white space: there is one run fewer than
   * pieces, each run is non-empty white space, and putting the runs back between the
   * pieces gives the input again.
   */
  lemma {:induction false} SplitRoundTrip(s: string)
    ensures |SpaceRuns(s)| == |SplitOnSpaces(s)| - 1
    ensures AreSpaceRuns(SpaceRuns(s))
    ensures Interleave(SplitOnSpaces(s), SpaceRuns(s)) == s
    decreases |s|
  {
    var i := NextSpace(s, 0);
    if i < |s| {
      var j := SkipSpaces(s, i);
      var tail := s[j..];
      SplitRoundTrip(tail);
      SplitStep(s, i, j);
      RunsCons(s[i..j], SpaceRuns(tail));
      InterleaveCons(s[..i], s[i..j], SplitOnSpaces(tail), SpaceRuns(tail));
    }
  }

  /** One step of the split: the first piece, the first run, and the rest. */
  lemma SplitStep(s: string, i: nat, j: nat)
    requires i == NextSpace(s, 0) && i < |s| && j == SkipSpaces(s, i)
    ensures SplitOnSpaces(s) == [s[..i]] + SplitOnSpaces(s[j..])
    ensures SpaceRuns(s) == [s[i..j]] + SpaceRuns(s[j..])
    ensures s[i..j] != "" && forall k :: 0 <= k < |s[i..j]| ==> IsSpace(s[i..j][k])
    ensures s == s[..i] + s[i..j] + s[j..]
  {
    RunAt(s, i, j);
  }

  /** The text from a white-space character to the end of its run is a non-empty run. */
  lemma RunAt(s: string, i: nat, j: nat)
    requires i < |s| && IsSpace(s[i]) && i <= j <= |s|
    requires forall k :: i <= k < j ==> IsSpace(s[k])
    requires j < |s| ==> !IsSpace(s[j])
    ensures s[i..j] != "" && forall k :: 0 <= k < |s[i..j]| ==> IsSpace(s[i..j][k])
    ensures s == s[..i] + s[i..j] + s[j..]
  {
    assert j != i;
  }

  lemma RunsCons(run: string, rest: seq<string>)
    requires run != "" && forall k :: 0 <= k < |run| ==> IsSpace(run[k])
    requires AreSpaceRuns(rest)
    ensures AreSpaceRuns([run] + rest)
  {
    var seps := [run] + rest;
    forall m | 0 <= m < |seps|
      ensures seps[m] != "" && forall k :: 0 <= k < |seps[m]| ==> IsSpace(seps[m][k])
    {
      if m > 0 { assert seps[m] == rest[m - 1]; }
    }
  }

  lemma InterleaveCons(piece: string, sep: string, pieces: seq<string>, seps: seq<string>)
    requires |pieces| == |seps| + 1
    ensures Interleave([piece] + pieces, [sep] + seps) == piece + sep + Interleave(pieces, seps)
  {
    assert ([piece] + pieces)[1..] == pieces && ([sep] + seps)[1..] == seps;
  }

  /** Splitting a string with no white space at either end yields no empty piece. */
  lemma {:induction false} SplitTrimmedHasNoEmptyTerm(s: string)
    requires s != [] && !IsSpace(s[0]) && !IsSpace(s[|s| - 1])
    ensures forall j :: 0 <= j < |SplitOnSpaces(s)| ==> SplitOnSpaces(s)[j] != ""
    decreases |s|
  {
    var i := NextSpace(s, 0);
    if i < |s| {
      var j := SkipSpaces(s, i);
      assert i > 0;
      var tail := s[j..];
      assert tail[|tail| - 1] == s[|s| - 1];
      SplitTrimmedHasNoEmptyTerm(tail);
    }
  }

  // ---------------------------------------------------------------------------
  // split('/').pop()
  // ---------------------------------------------------------------------------

  /** The text after the last '/', or all of s when it has none. */
  function LastSegment(s: string): (r: string)
    ensures EndsWith(s, r)
    ensures NoneIs(r, '/')
    ensures |r| < |s| ==> s[|s| - |r| - 1] == '/'
  {
    if s == [] || s[|s| - 1] == '/' then []
    else LastSegment(s[..|s| - 1]) + [s[|s| - 1]]
  }

  /** A segment appended after a '/' is the last segment. */
  lemma {:induction false} LastSegmentAfterSlash(dir: string, name: string)
    requires NoneIs(name, '/')
    ensures LastSegment(dir + "/" + name) == name
    decreases |name|
  {
    var s := dir + "/" + name;
    if name != [] {
      assert s[..|s| - 1] == dir + "/" + name[..|name| - 1];
      LastSegmentAfterSlash(dir, name[..|name| - 1]);
      assert name[..|name| - 1] + [name[|name| - 1]] == name;
    } else {
      assert s[|s| - 1] == '/';
    }
  }

  lemma LastSegmentSnoc(p: string, c: char)
    requires c != '/'
    ensures LastSegment(p + [c]) == LastSegment(p) + [c]
  {
    assert (p + [c])[..|p|] == p;
  }

  /** Appending text without '/' extends the last segment. */
  lemma {:induction false} LastSegmentAppend(p: string, e: string)
    requires NoneIs(e, '/')
    ensures LastSegment(p + e) == LastSegment(p) + e
    decreases |e|
  {
    if e == [] {
      assert p + e == p;
    } else {
      var e', c := e[..|e| - 1], e[|e| - 1];
      assert e == e' + [c];
      assert p + e == (p + e') + [c];
      LastSegmentAppend(p, e');
      LastSegmentSnoc(p + e', c);
    }
  }

  /** `s.lastIndexOf(c)`, None for -1. */
  function LastIndexOf(s: string, c: char): (r: Option<nat>)
    ensures r.Some? ==> r.value < |s| && s[r.value] == c && NoneIs(s[r.value + 1..], c)
    ensures r.None? <==> NoneIs(s, c)
  {
    if s == [] then None
    else if s[|s| - 1] == c then Some(|s| - 1)
    else LastIndexOf(s[..|s| - 1], c)
  }

  /** The last occurrence of c is the one followed by text without c. */
  lemma {:induction false} LastIndexOfBefore(p: string, c: char, e: string)
    requires NoneIs(e, c)
    ensures LastIndexOf(p + [c] + e, c) == Some(|p|)
    decreases |e|
  {
    var s := p + [c] + e;
    if e != [] {
      assert s[..|s| - 1] == p + [c] + e[..|e| - 1];
      LastIndexOfBefore(p, c, e[..|e| - 1]);
    }
  }

  // ---------------------------------------------------------------------------
  // Numbers
  // ---------------------------------------------------------------------------

  function DigitValue(c: char): nat
    requires IsDigit(c)
  {
    c as int - '0' as int
  }

  function DigitChar(d: nat): (c: char)
    requires d < 10
    ensures IsDigit(c) && DigitValue(c) == d
  {
    ('0' as int + d) as char
  }

  /** `Number(s)` on a string of decimal digits (exact: the model's integers are unbounded). */
  function DigitsValue(s: string): nat
    requires AllDigits(s)
  {
    if s == [] then 0 else DigitsValue(s[..|s| - 1]) * 10 + DigitValue(s[|s| - 1])
  }

  /** The decimal rendering of a natural number in a template literal: digits, no leading zero. */
  function NatToString(n: nat): (r: string)
    ensures IsDigits(r)
    ensures r[0] != '0' || n == 0
  {
    if n < 10 then [DigitChar(n)] else NatToString(n / 10) + [DigitChar(n % 10)]
  }

  /** Reading back a rendered number gives the number. */
  lemma {:induction false} NatToStringRoundTrip(n: nat)
    ensures DigitsValue(NatToString(n)) == n
  {
    var s := NatToString(n);
    if n >= 10 {
      NatToStringRoundTrip(n / 10);
      assert s[..|s| - 1] == NatToString(n / 10);
    }
  }

  /** The longest prefix of s made of decimal digits. */
  function DigitPrefix(s: string): (r: string)
    ensures AllDigits(r) && StartsWith(s, r)
    ensures |r| < |s| ==> !IsDigit(s[|r|])
  {
    if s != [] && IsDigit(s[0]) then [s[0]] + DigitPrefix(s[1..]) else []
  }

  /**
   * `parseInt(s)` with the default radix: leading white space is skipped, one sign is
   * accepted, then the longest run of decimal digits is read; no digit gives NaN (None).
   */
  function ParseInt(s: string): (r: Option<int>)
  {
    var u := TrimStart(s);
    var signed := u != [] && (u[0] == '-' || u[0] == '+');
    var digits := DigitPrefix(if signed then u[1..] else u);
    var magnitude: int := if digits == [] then 0 else DigitsValue(digits);
    if digits == [] then None
    else if signed && u[0] == '-' then Some(-magnitude)
    else Some(magnitude)
  }

  /** An id rendered into a form field parses back to the same id. */
  lemma ParseIntOfNatToString(n: nat)
    ensures ParseInt(NatToString(n)) == Some(n)
  {
    var s := NatToString(n);
    assert !IsSpace(s[0]);
    assert TrimStart(s) == s;
    assert !(s[0] == '-' || s[0] == '+');
    DigitPrefixOfDigits(s);
    NatToStringRoundTrip(n);
  }

  lemma {:induction false} DigitPrefixOfDigits(s: string)
    requires AllDigits(s)
    ensures DigitPrefix(s) == s
  {
    if s != [] {
      DigitPrefixOfDigits(s[1..]);
    }
  }
}
