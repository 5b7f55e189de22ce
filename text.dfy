/**
 * The pieces of JavaScript string and number behaviour that the extension
 * relies on: `String.prototype.trim`, `split`/`join` on one separator
 * character, and the conversions `Number(string)` and `String(number)`
 * restricted to integers.
 */
module Text {
  import opened Wrappers

  /** JavaScript WhiteSpace and LineTerminator characters (ECMA-262, sections
      12.2 and 12.3): what `trim` removes and what `Number` ignores around a
      numeral. */
  predicate IsSpace(c: char) {
    || c == ' ' || c == '\t' || c == '\n' || c == '\r'
    || c == '\U{B}' || c == '\U{C}' || c == '\U{A0}' || c == '\U{1680}'
    || ('\U{2000}' <= c <= '\U{200A}')
    || c == '\U{2028}' || c == '\U{2029}' || c == '\U{202F}' || c == '\U{205F}'
    || c == '\U{3000}' || c == '\U{FEFF}'
  }

  /** Neither the first nor the last character is white space. */
  predicate IsTrimmed(s: string) {
    |s| == 0 || (!IsSpace(s[0]) && !IsSpace(s[|s| - 1]))
  }

  /** Drops the leading white space: the result is a suffix of `s`, starts
      with a non-space, and everything dropped was white space. */
  function TrimStart(s: string): (r: string)
    ensures |r| <= |s| && r == s[|s| - |r|..]
    ensures r == [] || !IsSpace(r[0])
    ensures forall i | 0 <= i < |s| - |r| :: IsSpace(s[i])
  {
    if |s| > 0 && IsSpace(s[0]) then TrimStart(s[1..]) else s
  }

  /** Drops the trailing white space: the result is a prefix of `s`, ends
      with a non-space, and everything dropped was white space. */
  function TrimEnd(s: string): (r: string)
    ensures |r| <= |s| && r == s[..|r|]
    ensures r == [] || !IsSpace(r[|r| - 1])
    ensures forall i | |r| <= i < |s| :: IsSpace(s[i])
  {
    if |s| > 0 && IsSpace(s[|s| - 1]) then TrimEnd(s[..|s| - 1]) else s
  }

  /** `r` occurs in `s` at `i`, with only white space before and after it. */
  predicate PaddedAt(s: string, r: string, i: nat) {
    && i + |r| <= |s| && r == s[i..i + |r|]
    && (forall k | 0 <= k < i :: IsSpace(s[k]))
    && (forall k | i + |r| <= k < |s| :: IsSpace(s[k]))
  }

  /** `s` is `r` with some white space added on either side. */
  predicate Padded(s: string, r: string) {
    exists i: nat | i <= |s| :: PaddedAt(s, r, i)
  }

  /** `s.trim()`: trimmed, and the identity on strings that are already
      trimmed; `TrimRemovesPadding` says what it removes. */
  function Trim(s: string): (r: string)
    ensures IsTrimmed(r)
    ensures |r| <= |s|
    ensures IsTrimmed(s) ==> r == s
  {
    var t := TrimStart(s);
    var r := TrimEnd(t);
    assert r != [] ==> r[0] == t[0];
    r
  }

  /** `s.trim()` is `s` with its surrounding white space removed: the result
      occurs in `s` with only white space before and after it. */
  lemma TrimRemovesPadding(s: string)
    ensures Padded(s, Trim(s))
  {
    TrimEndOfTrimStart(s);
  }

  /** Dropping white space from the front and then from the back leaves
      the middle of `s` where it was. */
  lemma PaddedCompose(s: string, t: string, r: string, i: nat)
    requires i <= |s| && t == s[i..] && forall k | 0 <= k < i :: IsSpace(s[k])
    requires |r| <= |t| && r == t[..|r|] && forall k | |r| <= k < |t| :: IsSpace(t[k])
    ensures PaddedAt(s, r, i)
  {
    forall k | i + |r| <= k < |s|
      ensures IsSpace(s[k])
    {
      assert s[k] == t[k - i];
    }
  }

  lemma TrimEndOfTrimStart(s: string)
    ensures PaddedAt(s, TrimEnd(TrimStart(s)), |s| - |TrimStart(s)|)
  {
    var t := TrimStart(s);
    PaddedCompose(s, t, TrimEnd(t), |s| - |t|);
  }

  /** `s.split(sep)`: the pieces between occurrences of `sep`, in order; never
      empty (the empty string splits into one empty piece), and no piece
      contains `sep`. */
  function Split(s: string, sep: char): (r: seq<string>)
    ensures |r| >= 1
    ensures forall k | 0 <= k < |r| :: sep !in r[k]
  {
    if |s| == 0 then [""]
    else
      var rest := Split(s[1..], sep);
      if s[0] == sep then [""] + rest
      else [[s[0]] + rest[0]] + rest[1..]
  }

  /** `parts.join(sep)`: empty for no parts, one part as it is, and
      otherwise the first part followed by the separator. */
  function Join(parts: seq<string>, sep: char): (r: string)
    ensures |parts| == 0 ==> |r| == 0
    ensures |parts| == 1 ==> r == parts[0]
    ensures |parts| > 1 ==> |r| > |parts[0]| && r[..|parts[0]|] == parts[0] && r[|parts[0]|] == sep
  {
    if |parts| == 0 then ""
    else if |parts| == 1 then parts[0]
    else parts[0] + [sep] + Join(parts[1..], sep)
  }

  /** A string without the separator is one piece. */
  lemma {:induction false} SplitWithoutSeparator(a: string, sep: char)
    requires sep !in a
    ensures Split(a, sep) == [a]
  {
    if |a| > 0 {
      SplitWithoutSeparator(a[1..], sep);
      assert [a[0]] + a[1..] == a;
    }
  }

  /** Splitting at the first separator peels off the piece before it. */
  lemma {:induction false} SplitAtFirstSeparator(a: string, b: string, sep: char)
    requires sep !in a
    ensures Split(a + [sep] + b, sep) == [a] + Split(b, sep)
  {
    if |a| == 0 {
      assert a + [sep] + b == [sep] + b;
      assert ([sep] + b)[1..] == b;
    } else {
      var s := a + [sep] + b;
      assert s[1..] == a[1..] + [sep] + b;
      SplitAtFirstSeparator(a[1..], b, sep);
      assert [a[0]] + a[1..] == a;
    }
  }

  /** Round trip: joining separator-free pieces and splitting again gives the
      same pieces back. */
  lemma {:induction false} SplitJoin(parts: seq<string>, sep: char)
    requires |parts| >= 1
    requires forall k | 0 <= k < |parts| :: sep !in parts[k]
    ensures Split(Join(parts, sep), sep) == parts
  {
    if |parts| == 1 {
      SplitWithoutSeparator(parts[0], sep);
    } else {
      SplitJoin(parts[1..], sep);
      SplitAtFirstSeparator(parts[0], Join(parts[1..], sep), sep);
      assert [parts[0]] + parts[1..] == parts;
    }
  }

  /** Round trip the other way: joining the pieces of a split restores the string. */
  lemma {:induction false} JoinSplit(s: string, sep: char)
    ensures Join(Split(s, sep), sep) == s
  {
    if |s| > 0 {
      var rest := Split(s[1..], sep);
      JoinSplit(s[1..], sep);
      if s[0] == sep {
        assert ([""] + rest)[1..] == rest;
        assert [s[0]] + s[1..] == s;
      } else {
        var r := [[s[0]] + rest[0]] + rest[1..];
        assert r[1..] == rest[1..];
        if |rest| > 1 {
          assert Join(rest, sep) == rest[0] + [sep] + Join(rest[1..], sep);
        }
        assert [s[0]] + s[1..] == s;
      }
    }
  }

  predicate IsDigit(c: char) {
    '0' <= c <= '9'
  }

  /** The value of a non-empty string of decimal digits, most significant
      first; `None` when the string is empty or holds anything else. */
  function ParseDigits(s: string): (r: Option<nat>)
    ensures r.Some? <==> |s| >= 1 && forall i | 0 <= i < |s| :: IsDigit(s[i])
  {
    if |s| == 0 || !IsDigit(s[|s| - 1]) then None
    else
      var d := (s[|s| - 1] as int) - ('0' as int);
      if |s| == 1 then Some(d)
      else match ParseDigits(s[..|s| - 1])
        case None => None
        case Some(v) => Some(v * 10 + d)
  }

  /** The decimal digits of `n`, without leading zeros. */
  function NatDigits(n: nat): (s: string)
    ensures |s| >= 1 && forall i | 0 <= i < |s| :: IsDigit(s[i])
  {
    var d := (('0' as int) + n % 10) as char;
    if n < 10 then [d] else NatDigits(n / 10) + [d]
  }

  lemma {:induction false} NatDigitsRoundTrip(n: nat)
    ensures ParseDigits(NatDigits(n)) == Some(n)
  {
    var s := NatDigits(n);
    if n >= 10 {
      NatDigitsRoundTrip(n / 10);
      assert s[..|s| - 1] == NatDigits(n / 10);
    }
  }

  /** `String(n)` for an integer `n`. */
  function NumberToString(n: int): (s: string)
    ensures |s| >= 1
  {
    if n < 0 then "-" + NatDigits(-n) else NatDigits(n)
  }

  /**
   * `Number(s)` for a string `s`, within the integer model: surrounding white
   * space is ignored, a blank string is 0, an optional sign followed by
   * decimal digits is that integer, and anything else is `None` (`NaN`, or a
   * numeral such as `1.5` or `1e3` that the integer model leaves out).
   */
  function StringToNumber(s: string): (r: Option<int>)
    ensures r.None? ==> |Trim(s)| > 0
    ensures r.Some? && |Trim(s)| > 0 ==> IsDigit(Trim(s)[|Trim(s)| - 1])
  {
    var t := Trim(s);
    if |t| == 0 then Some(0)
    else if t[0] == '-' then
      match ParseDigits(t[1..])
      case None => None
      case Some(v) => Some(0 - v as int)
    else if t[0] == '+' then
      match ParseDigits(t[1..])
      case None => None
      case Some(v) => Some(v)
    else
      match ParseDigits(t)
      case None => None
      case Some(v) => Some(v)
  }

  /** A character that may occur in a string `Number` reads as an integer. */
  predicate IsNumeralChar(c: char) {
    IsSpace(c) || IsDigit(c) || c == '-' || c == '+'
  }

  /** What `Number` reads as an integer is, once trimmed, a sign and digits only. */
  lemma TrimmedNumeralChars(s: string)
    requires StringToNumber(s).Some?
    ensures forall k | 0 <= k < |Trim(s)| :: IsNumeralChar(Trim(s)[k])
  {
    var t := Trim(s);
    if |t| > 0 && (t[0] == '-' || t[0] == '+') {
      forall k | 1 <= k < |t|
        ensures IsDigit(t[k])
      {
        assert t[k] == t[1..][k - 1];
      }
    }
  }

  /** A string `Number` reads as an integer holds white space, digits and
      signs only. */
  lemma NumeralChars(s: string)
    requires StringToNumber(s).Some?
    ensures forall k | 0 <= k < |s| :: IsNumeralChar(s[k])
  {
    var t := Trim(s);
    TrimmedNumeralChars(s);
    TrimRemovesPadding(s);
    var j: nat :| j <= |s| && PaddedAt(s, t, j);
    forall k | 0 <= k < |s|
      ensures IsNumeralChar(s[k])
    {
      if j <= k < j + |t| {
        assert s[k] == t[k - j];
      }
    }
  }

  /** A string holding a character other than white space, a digit or a sign
      (a letter, a decimal point) reads as `None`: in JavaScript `Number`
      gives `NaN`, or the string is a numeral form the integer model leaves
      out (`1.0`, `1e3`, `0x1F`, `Infinity`). */
  lemma ForeignCharacterIsNone(s: string, i: nat)
    requires i < |s| && !IsNumeralChar(s[i])
    ensures StringToNumber(s).None?
  {
    if StringToNumber(s).Some? {
      NumeralChars(s);
    }
  }

  /** Every non-empty string of decimal digits, leading zeros included, reads
      as a number. */
  lemma DigitsAreNumbers(s: string)
    requires |s| >= 1 && forall i | 0 <= i < |s| :: IsDigit(s[i])
    ensures StringToNumber(s) == ParseDigits(s) && ParseDigits(s).Some?
  {
    DigitIsNotSpace(s[0]);
    DigitIsNotSpace(s[|s| - 1]);
    assert Trim(s) == s;
    assert s[0] != '-' && s[0] != '+';
  }

  /** A blank string (empty, or white space only) reads as 0. */
  lemma BlankIsZero(s: string)
    requires forall i | 0 <= i < |s| :: IsSpace(s[i])
    ensures StringToNumber(s) == Some(0)
  {
  }

  lemma DigitIsNotSpace(c: char)
    requires IsDigit(c)
    ensures !IsSpace(c)
  {
  }

  /** A non-negative number is written as its bare digits, which read back as it. */
  lemma NonNegativeRoundTrip(n: int)
    requires n >= 0
    ensures StringToNumber(NumberToString(n)) == Some(n)
  {
    var s := NumberToString(n);
    assert s == NatDigits(n);
    DigitIsNotSpace(s[0]);
    DigitIsNotSpace(s[|s| - 1]);
    assert Trim(s) == s;
    NatDigitsRoundTrip(n);
  }

  /** A negative number is written as a minus sign and the digits of its
      magnitude, with no surrounding white space. */
  lemma NegativeNumeral(n: int)
    requires n < 0
    ensures var s := NumberToString(n);
      && |s| > 1 && s[0] == '-' && s[1..] == NatDigits(-n) && Trim(s) == s
  {
    var d := NatDigits(-n);
    var s := NumberToString(n);
    assert s[1..] == d;
    DigitIsNotSpace(d[|d| - 1]);
    assert s[|s| - 1] == d[|d| - 1];
    assert IsTrimmed(s);
  }

  /** A negative number reads back as itself. */
  lemma NegativeRoundTrip(n: int)
    requires n < 0
    ensures StringToNumber(NumberToString(n)) == Some(n)
  {
    NegativeNumeral(n);
    NatDigitsRoundTrip(-n);
    MinusNumeral(NumberToString(n), -n);
  }

  /** A trimmed minus sign followed by the digits of `m` reads as `-m`. */
  lemma MinusNumeral(t: string, m: nat)
    requires |t| > 0 && Trim(t) == t && t[0] == '-' && ParseDigits(t[1..]) == Some(m)
    ensures StringToNumber(t) == Some(0 - m)
  {
  }

  /** Round trip: the number written into an input field reads back as itself. */
  lemma NumberRoundTrip(n: int)
    ensures StringToNumber(NumberToString(n)) == Some(n)
  {
    if n < 0 {
      NegativeRoundTrip(n);
    } else {
      NonNegativeRoundTrip(n);
    }
  }
}
