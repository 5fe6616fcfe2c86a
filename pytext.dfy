/**
 * The Python text built-ins the mirror-mount protocol is written with:
 * '{:d}'.format(n) / str(n), int(s), str.split(sep) and the byte length of
 * s.encode('utf-8').
 */
module PyText {

  /** The outcome of a Python call that either returns a value or raises ValueError. */
  datatype Result<T> = Ok(value: T) | ValueError

  predicate IsDigit(c: char) {
    '0' <= c <= '9'
  }

  predicate AllDigits(s: string) {
    forall i :: 0 <= i < |s| ==> IsDigit(s[i])
  }

  /** str.isspace() restricted to ASCII: space, \t \n \v \f \r and the separators 0x1c-0x1f. */
  predicate IsSpace(c: char) {
    c == ' ' || 9 <= c as int <= 13 || 28 <= c as int <= 31
  }

  predicate IsAscii(s: string) {
    forall i :: 0 <= i < |s| ==> s[i] as int < 0x80
  }

  function DigitChar(d: int): (c: char)
    requires 0 <= d < 10
    ensures IsDigit(c)
  {
    ('0' as int + d) as char
  }

  function DigitValue(c: char): (d: nat)
    requires IsDigit(c)
    ensures d < 10 && DigitChar(d) == c
  {
    c as int - '0' as int
  }

  /** The decimal digits of n, most significant first, with no leading zero. */
  function Digits(n: nat): (s: string)
    ensures |s| > 0 && AllDigits(s)
    ensures n > 0 ==> s[0] != '0'
    decreases n
  {
    if n < 10 then [DigitChar(n)] else Digits(n / 10) + [DigitChar(n % 10)]
  }

  /** '{:d}'.format(n), which is also str(n) and '{}'.format(n) for an int. */
  function FormatInt(n: int): (s: string)
    ensures |s| > 0 && IsDigit(s[|s| - 1])
    ensures forall i :: 0 <= i < |s| ==> IsDigit(s[i]) || (i == 0 && s[i] == '-')
    ensures s[0] == '-' <==> n < 0
  {
    if n < 0 then "-" + Digits(-n) else Digits(n)
  }

  /** The value of a run of decimal digits; int() accepts leading zeros. */
  function DigitsValue(s: string): nat
    requires AllDigits(s)
  {
    if s == [] then 0 else DigitsValue(s[..|s| - 1]) * 10 + DigitValue(s[|s| - 1])
  }

  function TrimStart(s: string): (r: string)
    ensures |r| <= |s|
  {
    if |s| > 0 && IsSpace(s[0]) then TrimStart(s[1..]) else s
  }

  function TrimEnd(s: string): (r: string)
    ensures |r| <= |s|
  {
    if |s| > 0 && IsSpace(s[|s| - 1]) then TrimEnd(s[..|s| - 1]) else s
  }

  /** The surrounding whitespace int() ignores. */
  function Strip(s: string): string {
    TrimEnd(TrimStart(s))
  }

  function ParseUnsigned(t: string): Result<nat> {
    if |t| > 0 && AllDigits(t) then Ok(DigitsValue(t)) else ValueError
  }

  /** A decimal integer literal: one or more digits, after an optional '+' or '-'. */
  predicate IsIntLiteral(t: string) {
    exists k :: 0 <= k <= 1 && k < |t| && AllDigits(t[k..]) &&
      (k == 1 ==> t[0] == '+' || t[0] == '-')
  }

  /**
   * int(s) for a str s: optional surrounding whitespace, an optional sign and
   * at least one decimal digit; anything else raises ValueError, blank text
   * included, since a literal is never empty.
   */
  function ParseInt(s: string): (r: Result<int>)
    ensures r.Ok? <==> IsIntLiteral(Strip(s))
    ensures r.Ok? && r.value < 0 ==> Strip(s)[0] == '-'
  {
    var t := Strip(s);
    if |t| > 0 && (t[0] == '+' || t[0] == '-') then
      SignedLiteral(t);
      match ParseUnsigned(t[1..])
      case Ok(v) =>
        var n: int := if t[0] == '-' then -(v as int) else v;
        Ok(n)
      case ValueError => ValueError
    else
      UnsignedLiteral(t);
      match ParseUnsigned(t)
      case Ok(v) => Ok(v)
      case ValueError => ValueError
  }

  /** After a sign, a literal is exactly a non-empty run of digits. */
  lemma SignedLiteral(t: string)
    requires |t| > 0 && (t[0] == '+' || t[0] == '-')
    ensures IsIntLiteral(t) <==> |t| > 1 && AllDigits(t[1..])
  {
    if |t| > 1 && AllDigits(t[1..]) {
      assert AllDigits(t[1..]) && (1 == 1 ==> t[0] == '+' || t[0] == '-');
    }
    forall k | 0 <= k <= 1 && k < |t| && AllDigits(t[k..])
      ensures k == 1
    {
      assert t[k..][0] == t[k];
    }
  }

  /** Without a sign, a literal is exactly a non-empty run of digits. */
  lemma UnsignedLiteral(t: string)
    requires !(|t| > 0 && (t[0] == '+' || t[0] == '-'))
    ensures IsIntLiteral(t) <==> |t| > 0 && AllDigits(t)
  {
    if |t| > 0 && AllDigits(t) {
      assert t[0..] == t;
    }
    forall k | 0 <= k <= 1 && k < |t| && AllDigits(t[k..]) && (k == 1 ==> t[0] == '+' || t[0] == '-')
      ensures k == 0 && AllDigits(t)
    {
      assert t[0..] == t;
    }
  }

  lemma {:induction false} DigitsValueOfDigits(n: nat)
    ensures DigitsValue(Digits(n)) == n
    decreases n
  {
    if n >= 10 {
      var s := Digits(n);
      assert s[..|s| - 1] == Digits(n / 10);
      DigitsValueOfDigits(n / 10);
    }
  }

  lemma StripUnchanged(s: string)
    requires |s| > 0 && !IsSpace(s[0]) && !IsSpace(s[|s| - 1])
    ensures Strip(s) == s
  {
    assert TrimStart(s) == s;
  }

  /** int() recovers every integer from its decimal form. */
  lemma ParseFormat(n: int)
    ensures ParseInt(FormatInt(n)) == Ok(n)
  {
    var s := FormatInt(n);
    StripUnchanged(s);
    if n < 0 {
      var d := Digits(-n);
      assert s[1..] == d;
      DigitsValueOfDigits(-n);
      assert ParseUnsigned(d) == Ok(-n);
    } else {
      DigitsValueOfDigits(n);
      assert ParseUnsigned(s) == Ok(n);
    }
  }

  /** Python's sep.join(parts). */
  function Join(parts: seq<string>, sep: char): string
    requires |parts| >= 1
  {
    if |parts| == 1 then parts[0] else parts[0] + [sep] + Join(parts[1..], sep)
  }

  /**
   * s.split(sep) for a one-character separator: the pieces between the
   * separators, empty pieces included, so "".split(':') == [""].
   */
  function Split(s: string, sep: char): (parts: seq<string>)
    ensures |parts| >= 1
  {
    if s == [] then [""]
    else
      var rest := Split(s[1..], sep);
      if s[0] == sep then [""] + rest
      else [[s[0]] + rest[0]] + rest[1..]
  }

  /** No piece str.split yields holds the separator. */
  lemma {:induction false} SplitPiecesPlain(s: string, sep: char)
    ensures forall i :: 0 <= i < |Split(s, sep)| ==> sep !in Split(s, sep)[i]
  {
    if s != [] {
      SplitPiecesPlain(s[1..], sep);
      var rest := Split(s[1..], sep);
      if s[0] != sep {
        var first := [s[0]] + rest[0];
        assert sep !in first;
        assert Split(s, sep) == [first] + rest[1..];
      }
    }
  }

  /** Joining the pieces str.split yields with the separator gives back the text. */
  lemma {:induction false} SplitJoinsBack(s: string, sep: char)
    ensures Join(Split(s, sep), sep) == s
  {
    if s != [] {
      SplitJoinsBack(s[1..], sep);
      var rest := Split(s[1..], sep);
      assert Join(rest, sep) == s[1..];
      assert s == [s[0]] + s[1..];
      if s[0] == sep {
        assert Join([""] + rest, sep) == "" + [sep] + Join(rest, sep);
      } else {
        var first := [s[0]] + rest[0];
        if |rest| == 1 {
          assert Join(rest, sep) == rest[0];
        } else {
          var tail := Join(rest[1..], sep);
          assert Join(rest, sep) == rest[0] + [sep] + tail;
          assert ([first] + rest[1..])[1..] == rest[1..];
          assert Join([first] + rest[1..], sep) == first + [sep] + tail;
          assert first + [sep] + tail == [s[0]] + (rest[0] + [sep] + tail);
        }
      }
    }
  }

  lemma {:induction false} SplitWithoutSeparator(a: string, sep: char)
    requires sep !in a
    ensures Split(a, sep) == [a]
  {
    if a != [] {
      SplitWithoutSeparator(a[1..], sep);
      assert [a[0]] + a[1..] == a;
    }
  }

  lemma {:induction false} SplitAtFirstSeparator(a: string, sep: char, b: string)
    requires sep !in a
    ensures Split(a + [sep] + b, sep) == [a] + Split(b, sep)
  {
    var s := a + [sep] + b;
    if a == [] {
      assert s[1..] == b;
    } else {
      assert s[1..] == a[1..] + [sep] + b;
      SplitAtFirstSeparator(a[1..], sep, b);
      assert s[0] == a[0] && [a[0]] + a[1..] == a;
    }
  }

  /** Splitting undoes joining when no piece holds the separator. */
  lemma {:induction false} SplitJoin(parts: seq<string>, sep: char)
    requires |parts| >= 1
    requires forall i :: 0 <= i < |parts| ==> sep !in parts[i]
    ensures Split(Join(parts, sep), sep) == parts
  {
    if |parts| == 1 {
      SplitWithoutSeparator(parts[0], sep);
    } else {
      SplitJoin(parts[1..], sep);
      SplitAtFirstSeparator(parts[0], sep, Join(parts[1..], sep));
    }
  }

  /** Bytes that a code point takes in UTF-8. */
  function Utf8Width(c: char): nat {
    if c as int < 0x80 then 1
    else if c as int < 0x800 then 2
    else if c as int < 0x1_0000 then 3
    else 4
  }

  /** len(s.encode('utf-8')). */
  function Utf8Length(s: string): (n: nat)
    ensures |s| <= n <= 4 * |s|
    ensures IsAscii(s) ==> n == |s|
  {
    if s == [] then 0 else Utf8Width(s[0]) + Utf8Length(s[1..])
  }
}
