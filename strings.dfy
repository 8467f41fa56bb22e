/**
 * The Python `str` operations the controller, the telemetry summariser and the
 * AI configuration rely on, restricted to ASCII text: whitespace stripping,
 * case mapping, splitting, joining, replacing, ordering and the `int()` and
 * `float()` conversions of decimal text.
 */
module Strings {
  import opened Common

  /** `str.isspace()` on the ASCII range: space, \t \n \v \f \r and the separators \x1c-\x1f. */
  predicate IsSpace(c: char) {
    c == ' ' || ('\t' <= c <= '\r') || ('\U{1C}' <= c <= '\U{1F}')
  }

  predicate IsDigit(c: char) {
    '0' <= c <= '9'
  }

  predicate StartsWith(s: string, prefix: string) {
    |prefix| <= |s| && s[..|prefix|] == prefix
  }

  // ---------- stripping ----------

  /** `s.lstrip()`: drops the leading whitespace and nothing else. */
  function TrimLeft(s: string): (r: string)
    ensures |r| <= |s| && r == s[|s| - |r|..]
    ensures r != [] ==> !IsSpace(r[0])
    decreases |s|
  {
    if s != [] && IsSpace(s[0]) then TrimLeft(s[1..]) else s
  }

  /** `s.rstrip()`: drops the trailing whitespace and nothing else. */
  function TrimRight(s: string): (r: string)
    ensures |r| <= |s| && r == s[..|r|]
    ensures r != [] ==> !IsSpace(r[|r| - 1])
    decreases |s|
  {
    if s != [] && IsSpace(s[|s| - 1]) then TrimRight(s[..|s| - 1]) else s
  }

  /** `s.rstrip(c)` for one character: drops the trailing run of `c` and nothing else. */
  function TrimRightChar(s: string, c: char): (r: string)
    ensures |r| <= |s| && r == s[..|r|]
    ensures forall i :: |r| <= i < |s| ==> s[i] == c
    ensures r != [] ==> r[|r| - 1] != c
    decreases |s|
  {
    if s != [] && s[|s| - 1] == c then TrimRightChar(s[..|s| - 1], c) else s
  }

  /** What `lstrip()` drops is whitespace. */
  lemma {:induction false} TrimLeftDropsSpace(s: string)
    ensures forall i :: 0 <= i < |s| - |TrimLeft(s)| ==> IsSpace(s[i])
    decreases |s|
  {
    if s != [] && IsSpace(s[0]) {
      TrimLeftDropsSpace(s[1..]);
      assert forall i :: 1 <= i < |s| ==> s[1..][i - 1] == s[i];
    }
  }

  /** What `rstrip()` drops is whitespace. */
  lemma {:induction false} TrimRightDropsSpace(s: string)
    ensures forall i :: |TrimRight(s)| <= i < |s| ==> IsSpace(s[i])
    decreases |s|
  {
    if s != [] && IsSpace(s[|s| - 1]) {
      TrimRightDropsSpace(s[..|s| - 1]);
      assert forall i :: 0 <= i < |s| - 1 ==> s[..|s| - 1][i] == s[i];
    }
  }

  /** `s.strip()`. */
  function Strip(s: string): (r: string)
  {
    TrimRight(TrimLeft(s))
  }

  /** What `strip()` returns neither begins nor ends with whitespace. */
  lemma StripBorders(s: string)
    ensures Strip(s) != [] ==> !IsSpace(Strip(s)[0]) && !IsSpace(Strip(s)[|Strip(s)| - 1])
  {
    var t := TrimLeft(s);
    var r := TrimRight(t);
    if r != [] {
      assert r == t[..|r|];
      assert r[0] == t[0];
    }
  }

  /** Stripping twice strips nothing more. */
  lemma StripIdempotent(s: string)
    ensures Strip(Strip(s)) == Strip(s)
  {
    var r := Strip(s);
    StripBorders(s);
    if r != [] {
      assert TrimLeft(r) == r;
      assert TrimRight(r) == r;
    }
  }

  // ---------- case mapping ----------

  function LowerChar(c: char): char {
    if 'A' <= c <= 'Z' then (c as int - 'A' as int + 'a' as int) as char else c
  }

  function UpperChar(c: char): char {
    if 'a' <= c <= 'z' then (c as int - 'a' as int + 'A' as int) as char else c
  }

  /** `s.lower()` on ASCII letters. */
  function Lower(s: string): (r: string)
    ensures |r| == |s|
  {
    seq(|s|, i requires 0 <= i < |s| => LowerChar(s[i]))
  }

  /** `s.upper()` on ASCII letters. */
  function Upper(s: string): (r: string)
    ensures |r| == |s|
  {
    seq(|s|, i requires 0 <= i < |s| => UpperChar(s[i]))
  }

  /** Lower-casing is idempotent, so a key lowered once matches itself lowered again. */
  lemma LowerIdempotent(s: string)
    ensures Lower(Lower(s)) == Lower(s)
  {
    forall i | 0 <= i < |s| ensures Lower(Lower(s))[i] == Lower(s)[i] {
      var c := s[i];
      assert Lower(s)[i] == LowerChar(c);
      if 'A' <= c <= 'Z' {
        assert 'a' <= LowerChar(c) <= 'z';
      }
    }
  }

  /** Upper-casing is idempotent, so an axis upper-cased once names the same pump again. */
  lemma UpperIdempotent(s: string)
    ensures Upper(Upper(s)) == Upper(s)
  {
    forall i | 0 <= i < |s| ensures Upper(Upper(s))[i] == Upper(s)[i] {
      var c := s[i];
      assert Upper(s)[i] == UpperChar(c);
      if 'a' <= c <= 'z' {
        assert 'A' <= UpperChar(c) <= 'Z';
      }
    }
  }

  /** Upper-casing introduces no character that is not a letter. */
  lemma UpperKeepsOthers(s: string, c: char)
    requires !('a' <= c <= 'z') && !('A' <= c <= 'Z') && c !in s
    ensures c !in Upper(s)
  {
    forall i | 0 <= i < |s| ensures Upper(s)[i] != c {
      assert Upper(s)[i] == UpperChar(s[i]);
    }
  }

  /** Lower-casing maps no upper-case letter into the result. */
  lemma LowerHasNoUpper(s: string)
    ensures forall i :: 0 <= i < |s| ==> !('A' <= Lower(s)[i] <= 'Z')
  {
  }

  // ---------- searching and splitting ----------

  /** `s.index(c)`: the first position of `c`. */
  function IndexOf(s: string, c: char): (k: nat)
    requires c in s
    ensures k < |s| && s[k] == c && c !in s[..k]
  {
    if s[0] == c then 0 else 1 + IndexOf(s[1..], c)
  }

  /** `sep.join(parts)`. */
  function Join(parts: seq<string>, sep: string): string
    decreases |parts|
  {
    if |parts| == 0 then ""
    else if |parts| == 1 then parts[0]
    else parts[0] + sep + Join(parts[1..], sep)
  }

  /** `s.split(sep)` for a one-character separator: never empty, parts free of the
      separator, and joining them back with the separator gives `s` again. */
  function Split(s: string, sep: char): (r: seq<string>)
    ensures |r| >= 1
    ensures forall i :: 0 <= i < |r| ==> sep !in r[i]
    ensures Join(r, [sep]) == s
    decreases |s|
  {
    if sep !in s then [s]
    else
      var k := IndexOf(s, sep);
      var rest := Split(s[k + 1..], sep);
      assert s == s[..k] + [sep] + s[k + 1..];
      [s[..k]] + rest
  }

  /** `s.split(sep, 1)` when `sep` occurs: the text before the first separator and
      the text after it. */
  function SplitOnce(s: string, sep: char): (r: (string, string))
    requires sep in s
    ensures s == r.0 + [sep] + r.1
    ensures sep !in r.0
  {
    var k := IndexOf(s, sep);
    assert s == s[..k] + [sep] + s[k + 1..];
    (s[..k], s[k + 1..])
  }

  /** The first position of a whitespace character, or |s| when there is none. */
  function SpaceIndex(s: string): (k: nat)
    ensures k <= |s| && forall i :: 0 <= i < k ==> !IsSpace(s[i])
    ensures k < |s| ==> IsSpace(s[k])
  {
    if s == [] || IsSpace(s[0]) then 0 else 1 + SpaceIndex(s[1..])
  }

  /** Splitting `a + [c] + b` at the first `c`, when `a` holds none, gives back `a` and `b`. */
  lemma SplitAtFirst(a: string, c: char, b: string)
    requires c !in a
    ensures c in a + [c] + b && SplitOnce(a + [c] + b, c) == (a, b)
  {
    var e := a + [c] + b;
    assert e[..|a|] == a && e[|a| + 1..] == b;
    IndexOfAt(e, c, |a|);
  }

  /** The first occurrence is the one with no occurrence before it. */
  lemma {:induction false} IndexOfAt(s: string, c: char, k: nat)
    requires k < |s| && s[k] == c && c !in s[..k]
    ensures c in s && IndexOf(s, c) == k
    decreases k
  {
    if k > 0 {
      assert s[0] == s[..k][0];
      assert s[1..][..k - 1] == s[1..k];
      assert forall i :: 1 <= i < k ==> s[i] == s[..k][i];
      IndexOfAt(s[1..], c, k - 1);
    }
  }

  /** Splitting `a + [c] + b` on every `c`, when `a` holds none, gives `a` and then the parts of `b`. */
  lemma SplitCons(a: string, c: char, b: string)
    requires c !in a
    ensures Split(a + [c] + b, c) == [a] + Split(b, c)
  {
    SplitAtFirst(a, c, b);
  }

  /** A non-empty run of non-whitespace characters. */
  predicate IsWord(w: string) {
    w != [] && forall j :: 0 <= j < |w| ==> !IsSpace(w[j])
  }

  /** `s.split()` with no separator: the maximal runs of non-whitespace characters. */
  function Words(s: string): (r: seq<string>)
    ensures forall i :: 0 <= i < |r| ==> IsWord(r[i])
    decreases |s|
  {
    var t := TrimLeft(s);
    if t == [] then []
    else
      var k := SpaceIndex(t);
      FirstWord(t);
      var rest := Words(t[k..]);
      WordsCons(t[..k], rest);
      [t[..k]] + rest
  }

  /** Text that starts with a non-space starts with a word. */
  lemma FirstWord(t: string)
    requires t != [] && !IsSpace(t[0])
    ensures 0 < SpaceIndex(t) && IsWord(t[..SpaceIndex(t)])
  {
    var w := t[..SpaceIndex(t)];
    forall j | 0 <= j < |w| ensures !IsSpace(w[j]) {
      assert w[j] == t[j];
    }
  }

  /** A word in front of words gives words. */
  lemma WordsCons(w: string, rest: seq<string>)
    requires IsWord(w) && forall i :: 0 <= i < |rest| ==> IsWord(rest[i])
    ensures forall i :: 0 <= i < |rest| + 1 ==> IsWord(([w] + rest)[i])
  {
    forall i | 0 <= i < |rest| + 1 ensures IsWord(([w] + rest)[i]) {
      if i > 0 {
        assert ([w] + rest)[i] == rest[i - 1];
      }
    }
  }

  // ---------- replacing ----------

  /** `s.replace(pat, rep)`: every non-overlapping occurrence, scanning left to right. */
  function ReplaceAll(s: string, pat: string, rep: string): string
    requires pat != []
    decreases |s|
  {
    if |s| < |pat| then s
    else if s[..|pat|] == pat then rep + ReplaceAll(s[|pat|..], pat, rep)
    else [s[0]] + ReplaceAll(s[1..], pat, rep)
  }

  /** Replacing a single character by another replaces exactly that character. */
  lemma {:induction false} ReplaceCharAt(s: string, c: char, d: char)
    ensures |ReplaceAll(s, [c], [d])| == |s|
    ensures forall i :: 0 <= i < |s| ==> ReplaceAll(s, [c], [d])[i] == (if s[i] == c then d else s[i])
    decreases |s|
  {
    if |s| >= 1 {
      ReplaceCharAt(s[1..], c, d);
      assert s[..1] == [s[0]];
      var r := ReplaceAll(s, [c], [d]);
      var r' := ReplaceAll(s[1..], [c], [d]);
      assert r == [if s[0] == c then d else s[0]] + r';
      forall i | 0 <= i < |s| ensures r[i] == (if s[i] == c then d else s[i]) {
        if i > 0 { assert r[i] == r'[i - 1] && s[i] == s[1..][i - 1]; }
      }
    }
  }

  /** Deleting a character leaves none of it and keeps every other character in order. */
  lemma {:induction false} RemoveChar(s: string, c: char)
    ensures c !in ReplaceAll(s, [c], [])
    ensures ReplaceAll(s, [c], []) == Filter(s, c)
    decreases |s|
  {
    if |s| >= 1 {
      RemoveChar(s[1..], c);
      assert s[..1] == [s[0]];
    }
  }

  /** The characters of `s` other than `c`, in order. */
  function Filter(s: string, c: char): string
    decreases |s|
  {
    if s == [] then [] else (if s[0] == c then [] else [s[0]]) + Filter(s[1..], c)
  }

  lemma {:induction false} FilterAppend(a: string, b: string, c: char)
    ensures Filter(a + b, c) == Filter(a, c) + Filter(b, c)
    decreases |a|
  {
    if a != [] {
      assert (a + b)[1..] == a[1..] + b;
      FilterAppend(a[1..], b, c);
    } else {
      assert a + b == b;
    }
  }

  lemma {:induction false} FilterAbsent(s: string, c: char)
    requires c !in s
    ensures Filter(s, c) == s
    decreases |s|
  {
    if s != [] {
      FilterAbsent(s[1..], c);
    }
  }

  // ---------- ordering ----------

  /** Python's `a < b` on strings: lexicographic order on code points, a proper
      prefix coming first. (Dafny's own `<` on sequences is the proper-prefix order.) */
  predicate LexLess(a: string, b: string)
    decreases |a|
  {
    if a == [] then b != []
    else if b == [] then false
    else if a[0] != b[0] then a[0] < b[0]
    else LexLess(a[1..], b[1..])
  }

  lemma {:induction false} LexIrreflexive(a: string)
    ensures !LexLess(a, a)
    decreases |a|
  {
    if a != [] { LexIrreflexive(a[1..]); }
  }

  lemma {:induction false} LexTransitive(a: string, b: string, c: string)
    requires LexLess(a, b) && LexLess(b, c)
    ensures LexLess(a, c)
    decreases |a|
  {
    if a != [] && a[0] == b[0] && b[0] == c[0] {
      LexTransitive(a[1..], b[1..], c[1..]);
    }
  }

  /** Two different strings are always ordered one way: `min` over strings is well defined. */
  lemma {:induction false} LexTotal(a: string, b: string)
    requires a != b
    ensures LexLess(a, b) || LexLess(b, a)
    decreases |a|
  {
    if a != [] && b != [] && a[0] == b[0] {
      assert a == [a[0]] + a[1..] && b == [b[0]] + b[1..];
      LexTotal(a[1..], b[1..]);
    }
  }

  lemma {:induction false} LexAsymmetric(a: string, b: string)
    requires LexLess(a, b)
    ensures !LexLess(b, a)
    decreases |a|
  {
    if a != [] && b != [] && a[0] == b[0] {
      LexAsymmetric(a[1..], b[1..]);
    }
  }

  // ---------- integers ----------

  function DigitChar(d: nat): char
    requires d < 10
  {
    ('0' as int + d) as char
  }

  function DigitValue(c: char): nat
    requires IsDigit(c)
  {
    c as int - '0' as int
  }

  /** The value of a run of decimal digits, most significant first. */
  function DigitsValue(ds: string): nat
    requires forall i :: 0 <= i < |ds| ==> IsDigit(ds[i])
    decreases |ds|
  {
    if ds == [] then 0 else DigitsValue(ds[..|ds| - 1]) * 10 + DigitValue(ds[|ds| - 1])
  }

  /** `str(n)` for a natural number: decimal digits, no leading zero. */
  function NatToString(n: nat): (r: string)
    ensures r != [] && forall i :: 0 <= i < |r| ==> IsDigit(r[i])
    decreases n
  {
    if n < 10 then [DigitChar(n)] else NatToString(n / 10) + [DigitChar(n % 10)]
  }

  /** `str(n)` for an integer. */
  function IntToString(n: int): (r: string)
  {
    if n < 0 then "-" + NatToString(-n) else NatToString(n)
  }

  lemma {:induction false} NatToStringValue(n: nat)
    ensures DigitsValue(NatToString(n)) == n
    decreases n
  {
    if n >= 10 {
      NatToStringValue(n / 10);
      var s := NatToString(n);
      assert s[..|s| - 1] == NatToString(n / 10);
    }
  }

  predicate AllDigits(s: string) {
    forall i :: 0 <= i < |s| ==> IsDigit(s[i])
  }

  /** An optional sign followed by at least one digit; `int()` on the stripped text. */
  function ParseSigned(t: string): (r: Option<int>)
    ensures r.Some? ==> t != []
  {
    if t != [] && (t[0] == '+' || t[0] == '-') then
      var ds := t[1..];
      if ds != [] && AllDigits(ds) then
        Some(if t[0] == '-' then -(DigitsValue(ds) as int) else DigitsValue(ds))
      else None
    else if t != [] && AllDigits(t) then Some(DigitsValue(t))
    else None
  }

  /** `int(s)`: surrounding whitespace, an optional sign and decimal digits. */
  function ParseInt(s: string): Option<int>
  {
    ParseSigned(Strip(s))
  }

  /** `int(str(n)) == n`. */
  lemma IntRoundTrip(n: int)
    ensures ParseInt(IntToString(n)) == Some(n)
  {
    var s := IntToString(n);
    NatToStringValue(if n < 0 then -n else n);
    IntTextUnspaced(n);
    if n < 0 {
      assert s[1..] == NatToString(-n);
    }
  }

  // ---------- reals ----------

  function Pow10(e: nat): (r: nat)
    ensures r >= 1
  {
    if e == 0 then 1 else 10 * Pow10(e - 1)
  }

  /** `x` times 10 raised to an integer exponent, one factor of ten at a time. */
  function ScaleBy(x: real, e: int): real
    decreases if e >= 0 then e else -e
  {
    if e == 0 then x else if e > 0 then ScaleBy(x * 10.0, e - 1) else ScaleBy(x / 10.0, e + 1)
  }

  /** The value of the digits after a decimal point: `0.d1d2...`. */
  function FractionValue(ds: string): real
    requires AllDigits(ds)
    decreases |ds|
  {
    if ds == [] then 0.0 else (DigitValue(ds[0]) as real + FractionValue(ds[1..])) / 10.0
  }

  /** The unsigned part of a decimal literal: digits, an optional fraction, an optional exponent. */
  function ParseUnsignedReal(t: string): Option<real>
  {
    var e := FirstOf(t, 'e');
    var expAt := if e < |t| then e else FirstOf(t, 'E');
    var mant := t[..expAt];
    var exp: Option<int> := if expAt == |t| then Some(0) else ParseSigned(t[expAt + 1..]);
    var dot := FirstOf(mant, '.');
    var intPart := mant[..dot];
    var fracPart := if dot < |mant| then mant[dot + 1..] else "";
    if exp.None? || !AllDigits(intPart) || !AllDigits(fracPart) || intPart + fracPart == [] then None
    else Some(ScaleBy(DigitsValue(intPart) as real + FractionValue(fracPart), exp.value))
  }

  /** The position of the first `c` in `s`, or `|s|` when there is none. */
  function FirstOf(s: string, c: char): (k: nat)
    ensures k <= |s| && (k < |s| ==> s[k] == c)
  {
    if s == [] then 0 else if s[0] == c then 0 else 1 + FirstOf(s[1..], c)
  }

  /** Digits hold no other character. */
  lemma {:induction false} FirstOfDigits(ds: string, c: char)
    requires AllDigits(ds) && !IsDigit(c)
    ensures FirstOf(ds, c) == |ds|
  {
    if ds != [] {
      assert IsDigit(ds[0]) && AllDigits(ds[1..]);
      FirstOfDigits(ds[1..], c);
    }
  }

  /** The text after an optional leading sign. */
  function Unsigned(t: string): string {
    if t != [] && (t[0] == '+' || t[0] == '-') then t[1..] else t
  }

  /** `float(s)` for finite decimal notation: whitespace, a sign, digits with an
      optional fraction and an optional exponent. */
  function ParseReal(s: string): Option<real>
  {
    var t := Strip(s);
    match ParseUnsignedReal(Unsigned(t))
    case None => None
    case Some(v) => Some(if t != [] && t[0] == '-' then -v else v)
  }

  /** A bare run of digits reads as its decimal value. */
  lemma UnsignedOfDigits(ds: string)
    requires ds != [] && AllDigits(ds)
    ensures ParseUnsignedReal(ds) == Some(DigitsValue(ds) as real)
  {
    FirstOfDigits(ds, 'e');
    FirstOfDigits(ds, 'E');
    FirstOfDigits(ds, '.');
    assert ds[..|ds|] == ds;
    assert FractionValue("") == 0.0 && ScaleBy(DigitsValue(ds) as real, 0) == DigitsValue(ds) as real;
  }

  /** Text that starts with anything but a digit, a point or an exponent mark is no decimal literal. */
  lemma NotADecimal(t: string)
    requires t != [] && !IsDigit(t[0]) && t[0] != '.' && t[0] != 'e' && t[0] != 'E'
    ensures ParseUnsignedReal(t).None?
  {
    var e := FirstOf(t, 'e');
    var expAt := if e < |t| then e else FirstOf(t, 'E');
    assert expAt > 0;
    var mant := t[..expAt];
    assert mant[0] == t[0];
    var dot := FirstOf(mant, '.');
    assert dot > 0 && mant[..dot][0] == t[0];
  }

  /** Text bordered by non-whitespace is left alone by `strip()`. */
  lemma StripNothing(s: string)
    requires s != [] && !IsSpace(s[0]) && !IsSpace(s[|s| - 1])
    ensures Strip(s) == s
  {
    assert TrimLeft(s) == s;
    assert TrimRight(s) == s;
  }

  /** `str(n)` is bordered by a sign or digits, never by whitespace. */
  lemma IntTextUnspaced(n: int)
    ensures Strip(IntToString(n)) == IntToString(n)
    ensures Unsigned(IntToString(n)) == NatToString(if n < 0 then -n else n)
  {
    var s := IntToString(n);
    var ds := NatToString(if n < 0 then -n else n);
    assert IsDigit(ds[|ds| - 1]);
    if n < 0 {
      assert s == "-" + ds;
      assert s[0] == '-' && s[1..] == ds;
      assert Unsigned(s) == ds;
    } else {
      assert s == ds;
      assert IsDigit(s[0]) && s[0] != '+' && s[0] != '-';
      assert Unsigned(s) == s;
    }
    StripNothing(s);
  }

  /** `str(n)` holds only a sign and digits, so no other character occurs in it. */
  lemma IntTextOnly(n: int, c: char)
    requires c != '-' && !IsDigit(c)
    ensures c !in IntToString(n)
  {
    var ds := NatToString(if n < 0 then -n else n);
    assert c !in ds;
    if n < 0 {
      assert IntToString(n) == ['-'] + ds;
    }
  }

  /** `float(str(n)) == n` for an integer. */
  lemma RealOfIntText(n: int)
    ensures ParseReal(IntToString(n)) == Some(n as real)
  {
    var m: nat := if n < 0 then -n else n;
    var s := IntToString(n);
    var ds := NatToString(m);
    NatToStringValue(m);
    IntTextUnspaced(n);
    UnsignedOfDigits(ds);
    SignedReading(s, m as real);
    if n < 0 {
      assert s[0] == '-';
    } else {
      assert IsDigit(ds[0]);
    }
  }

  /** Unspaced text whose unsigned part reads as `x` reads as `x` with its sign. */
  lemma SignedReading(s: string, x: real)
    requires Strip(s) == s && ParseUnsignedReal(Unsigned(s)) == Some(x)
    ensures ParseReal(s) == Some(if s != [] && s[0] == '-' then -x else x)
  {
  }

  /** `int(x)` for a float: truncation toward zero. */
  function Trunc(r: real): (n: int)
    ensures n as real <= r < n as real + 1.0 || n as real - 1.0 < r <= n as real
    ensures 0.0 <= r ==> 0 <= n && n as real <= r
    ensures r <= 0.0 ==> n <= 0 && r <= n as real
  {
    if r >= 0.0 then r.Floor else -((-r).Floor)
  }
}
