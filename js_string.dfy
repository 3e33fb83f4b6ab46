/**
 The few ECMAScript string built-ins the core relies on, over Dafny strings
 (sequences of Unicode scalar values): `String.prototype.trim`, the `length`
 property (which counts UTF-16 code units) and the conversion of an integral
 Number to its decimal text, as template literals do it.
 */
module JsString {
  import opened Base

  // ---------------------------------------------------------------------
  // trim
  // ---------------------------------------------------------------------

  /** The ECMAScript WhiteSpace and LineTerminator code points outside the range U+2000..U+200A. */
  const WhiteSpaceChars: set<char> := {
    '\t', '\n', '\U{B}', '\U{C}', '\r', ' ', '\U{A0}', '\U{1680}',
    '\U{2028}', '\U{2029}', '\U{202F}', '\U{205F}', '\U{3000}', '\U{FEFF}'
  }

  /** What `trim` removes: an ECMAScript WhiteSpace or LineTerminator code point. */
  predicate IsWhiteSpace(c: char) {
    c in WhiteSpaceChars || '\U{2000}' <= c <= '\U{200A}'
  }

  predicate AllWhiteSpace(s: string) {
    forall i :: 0 <= i < |s| ==> IsWhiteSpace(s[i])
  }

  /** `s` is empty or starts and ends with a character `trim` keeps. */
  predicate Trimmed(s: string) {
    s == [] || (!IsWhiteSpace(s[0]) && !IsWhiteSpace(s[|s| - 1]))
  }

  /** Drops the leading white space. */
  function TrimStart(s: string): (r: string)
    ensures |r| <= |s|
  {
    if s != [] && IsWhiteSpace(s[0]) then TrimStart(s[1..]) else s
  }

  /** Drops the trailing white space. */
  function TrimEnd(s: string): (r: string)
    ensures |r| <= |s|
  {
    if s != [] && IsWhiteSpace(s[|s| - 1]) then TrimEnd(s[..|s| - 1]) else s
  }

  /** `TrimStart` removes the longest white-space prefix and keeps the rest. */
  lemma {:induction false} TrimStartSpec(s: string)
    ensures s == s[..|s| - |TrimStart(s)|] + TrimStart(s)
    ensures AllWhiteSpace(s[..|s| - |TrimStart(s)|])
    ensures TrimStart(s) != [] ==> !IsWhiteSpace(TrimStart(s)[0])
    decreases |s|
  {
    if s != [] && IsWhiteSpace(s[0]) {
      var tail := s[1..];
      var r := TrimStart(tail);
      var k := |s| - |r|;
      TrimStartSpec(tail);
      assert tail[..k - 1] + r == tail;
      assert s[..k] == [s[0]] + tail[..k - 1];
      WhiteSpaceConcat([s[0]], tail[..k - 1]);
      Assoc([s[0]], tail[..k - 1], r);
      assert s == [s[0]] + tail;
    }
  }

  /** `TrimEnd` removes the longest white-space suffix and keeps the rest. */
  lemma {:induction false} TrimEndSpec(s: string)
    ensures s == TrimEnd(s) + s[|TrimEnd(s)|..]
    ensures AllWhiteSpace(s[|TrimEnd(s)|..])
    ensures TrimEnd(s) != [] ==> !IsWhiteSpace(TrimEnd(s)[|TrimEnd(s)| - 1])
    decreases |s|
  {
    if s != [] && IsWhiteSpace(s[|s| - 1]) {
      var init := s[..|s| - 1];
      var r := TrimEnd(init);
      var n := |r|;
      TrimEndSpec(init);
      assert r + init[n..] == init;
      assert s[n..] == init[n..] + [s[|s| - 1]];
      WhiteSpaceConcat(init[n..], [s[|s| - 1]]);
      Assoc(r, init[n..], [s[|s| - 1]]);
      assert s == init + [s[|s| - 1]];
    }
  }

  /**
   `String.prototype.trim`: leading and trailing white space removed, so the
   result neither starts nor ends with white space (TrimSplit says that what
   was removed is white space and nothing else).
   */
  function Trim(s: string): (r: string)
    ensures Trimmed(r)
    ensures |r| <= |s|
  {
    TrimStartSpec(s);
    TrimEndSpec(TrimStart(s));
    TrimEnd(TrimStart(s))
  }

  /** `s` is a white-space prefix, then `Trim(s)`, then a white-space suffix. */
  lemma TrimSplit(s: string) returns (lead: string, trail: string)
    ensures AllWhiteSpace(lead) && AllWhiteSpace(trail)
    ensures s == lead + Trim(s) + trail
  {
    var t := TrimStart(s);
    var r := TrimEnd(t);
    assert r == Trim(s);
    TrimStartSpec(s);
    TrimEndSpec(t);
    lead, trail := s[..|s| - |t|], t[|r|..];
    assert s == lead + (r + trail);
    Assoc(lead, r, trail);
  }

  lemma {:induction false} TrimStartWhiteSpace(lead: string, rest: string)
    requires AllWhiteSpace(lead)
    ensures TrimStart(lead + rest) == TrimStart(rest)
    decreases |lead|
  {
    if lead != [] {
      assert (lead + rest)[1..] == lead[1..] + rest;
      TrimStartWhiteSpace(lead[1..], rest);
    } else {
      assert lead + rest == rest;
    }
  }

  lemma {:induction false} TrimEndWhiteSpace(rest: string, trail: string)
    requires AllWhiteSpace(trail)
    ensures TrimEnd(rest + trail) == TrimEnd(rest)
    decreases |trail|
  {
    if trail != [] {
      assert (rest + trail)[..|rest + trail| - 1] == rest + trail[..|trail| - 1];
      TrimEndWhiteSpace(rest, trail[..|trail| - 1]);
    } else {
      assert rest + trail == rest;
    }
  }

  /**
   The characterisation of `trim`: surrounding a trimmed string with any
   white space, on either side, and trimming gives the string back.
   */
  lemma TrimExact(lead: string, core: string, trail: string)
    requires AllWhiteSpace(lead) && AllWhiteSpace(trail) && Trimmed(core)
    ensures Trim(lead + core + trail) == core
  {
    assert lead + core + trail == lead + (core + trail);
    TrimStartWhiteSpace(lead, core + trail);
    if core == [] {
      assert core + trail == trail;
      TrimStartWhiteSpace(trail, []);
      assert trail + [] == trail;
    } else {
      assert TrimStart(core + trail) == core + trail;
      TrimEndWhiteSpace(core, trail);
    }
  }

  lemma Assoc<T>(a: seq<T>, b: seq<T>, c: seq<T>)
    ensures a + (b + c) == a + b + c
  {
  }

  lemma Regroup<T>(a: seq<T>, b: seq<T>, c: seq<T>, d: seq<T>, e: seq<T>)
    ensures a + (b + c + d) + e == (a + b) + c + (d + e)
  {
  }

  lemma WhiteSpaceConcat(a: string, b: string)
    requires AllWhiteSpace(a) && AllWhiteSpace(b)
    ensures AllWhiteSpace(a + b)
  {
  }

  /** Adding white space around a string never changes what `trim` returns. */
  lemma TrimIgnoresPadding(lead: string, s: string, trail: string)
    requires AllWhiteSpace(lead) && AllWhiteSpace(trail)
    ensures Trim(lead + s + trail) == Trim(s)
  {
    var r := Trim(s);
    var pre, post := TrimSplit(s);
    WhiteSpaceConcat(lead, pre);
    WhiteSpaceConcat(post, trail);
    Regroup(lead, pre, r, post, trail);
    TrimExact(lead + pre, r, post + trail);
  }

  /** Trimming twice is trimming once. */
  lemma TrimIdempotent(s: string)
    ensures Trim(Trim(s)) == Trim(s)
  {
  }

  /** Every character is in the ASCII range, as English text here is. */
  predicate IsAscii(s: string) {
    forall i :: 0 <= i < |s| ==> s[i] < '\U{80}'
  }

  /** `text` begins with `part`. */
  predicate StartsWith(text: string, part: string) {
    |part| <= |text| && text[..|part|] == part
  }

  /** `part` occurs somewhere in `text`. */
  predicate Mentions(text: string, part: string) {
    exists i :: 0 <= i <= |text| && StartsWith(text[i..], part)
  }

  // ---------------------------------------------------------------------
  // length
  // ---------------------------------------------------------------------

  /** How many UTF-16 code units encode `c`: two for a code point above U+FFFF. */
  function Utf16Units(c: char): nat {
    if c as int >= 0x1_0000 then 2 else 1
  }

  /** The `length` property of a JavaScript string: its count of UTF-16 code units. */
  function Utf16Length(s: string): (n: nat)
    ensures |s| <= n <= 2 * |s|
    ensures n == 0 <==> s == []
  {
    if s == [] then 0 else Utf16Units(s[0]) + Utf16Length(s[1..])
  }

  // ---------------------------------------------------------------------
  // Number to decimal text
  // ---------------------------------------------------------------------

  predicate IsDigit(c: char) {
    '0' <= c <= '9'
  }

  predicate AllDigits(s: string) {
    forall i :: 0 <= i < |s| ==> IsDigit(s[i])
  }

  /** The shape of the decimal text of a natural number: digits, with no leading zero. */
  predicate CanonicalDigits(s: string) {
    |s| >= 1 && AllDigits(s) && (s[0] == '0' ==> |s| == 1)
  }

  function DigitValue(c: char): (d: nat)
    requires IsDigit(c)
    ensures d < 10
  {
    c as int - '0' as int
  }

  function DigitChar(d: nat): (c: char)
    requires d < 10
    ensures IsDigit(c) && DigitValue(c) == d
  {
    ('0' as int + d) as char
  }

  /** The decimal text of a natural number, most significant digit first. */
  function NatToDecimal(n: nat): (s: string)
    ensures CanonicalDigits(s)
    ensures s[0] == '0' <==> n == 0
  {
    if n < 10 then [DigitChar(n)] else NatToDecimal(n / 10) + [DigitChar(n % 10)]
  }

  /** The value a string of decimal digits denotes. */
  function DecimalValue(s: string): (n: nat)
    requires AllDigits(s)
  {
    if s == [] then 0 else DecimalValue(s[..|s| - 1]) * 10 + DigitValue(s[|s| - 1])
  }

  /** Template-literal conversion `${n}` of an integral Number. */
  function NumberToString(n: int): (s: string)
    ensures |s| >= 1
    ensures n < 0 <==> s[0] == '-'
  {
    if n < 0 then "-" + NatToDecimal(-n) else NatToDecimal(n)
  }

  /** Reads back the canonical decimal text of an integer; `None` for anything else. */
  function ParseNumber(s: string): (r: Option<int>) {
    if |s| >= 1 && s[0] == '-' then
      var digits := s[1..];
      if CanonicalDigits(digits) && digits != "0" then
        var magnitude: int := DecimalValue(digits);
        Some(-magnitude)
      else None
    else if CanonicalDigits(s) then Some(DecimalValue(s))
    else None
  }

  lemma {:induction false} DecimalOfNat(n: nat)
    ensures DecimalValue(NatToDecimal(n)) == n
  {
    var s := NatToDecimal(n);
    if n >= 10 {
      assert s[..|s| - 1] == NatToDecimal(n / 10);
      DecimalOfNat(n / 10);
    }
  }

  lemma {:induction false} DecimalPositive(s: string)
    requires CanonicalDigits(s) && s[0] != '0'
    ensures DecimalValue(s) >= 1
    decreases |s|
  {
    if |s| > 1 {
      DecimalPositive(s[..|s| - 1]);
    }
  }

  lemma {:induction false} NatOfDecimal(s: string)
    requires CanonicalDigits(s)
    ensures NatToDecimal(DecimalValue(s)) == s
    decreases |s|
  {
    var n := DecimalValue(s);
    var p := s[..|s| - 1];
    if |s| == 1 {
      assert p == [];
      assert DigitChar(DigitValue(s[0])) == s[0];
    } else {
      assert s[0] != '0';
      DecimalPositive(p);
      NatOfDecimal(p);
      assert n / 10 == DecimalValue(p) && n % 10 == DigitValue(s[|s| - 1]);
      assert DigitChar(DigitValue(s[|s| - 1])) == s[|s| - 1];
      assert s == p + [s[|s| - 1]];
    }
  }

  /** The decimal text of an integer reads back as that integer. */
  lemma NumberToStringRoundTrip(n: int)
    ensures ParseNumber(NumberToString(n)) == Some(n)
  {
    var s := NumberToString(n);
    if n < 0 {
      assert s[1..] == NatToDecimal(-n);
      DecimalOfNat(-n);
    } else {
      DecimalOfNat(n);
    }
  }

  /** Whatever reads back as an integer is exactly that integer's decimal text. */
  lemma ParseNumberExact(s: string, n: int)
    requires ParseNumber(s) == Some(n)
    ensures NumberToString(n) == s
  {
    if |s| >= 1 && s[0] == '-' {
      var digits := s[1..];
      NatOfDecimal(digits);
      assert s == "-" + digits;
    } else {
      NatOfDecimal(s);
    }
  }
}
