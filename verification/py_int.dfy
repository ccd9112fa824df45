/**
  Python's `int(x)` on a string `x` in base 10: surrounding whitespace is
  ignored, an optional `+` or `-` sign comes first, and the digits may be
  grouped by single underscores placed between two digits (`"1_000"`).
  The four information separators U+001C..U+001F count as whitespace for
  `str.strip` but not for `int`, and at most 4300 digits are accepted.
  A string outside this grammar makes `int` raise `ValueError`, which the
  model reports as `None`.
 */
module PyInt {
  import opened Wrappers
  import opened PyStr

  predicate IsDigit(c: char)
  {
    '0' <= c <= '9'
  }

  predicate DigitOrUnderscore(c: char)
  {
    IsDigit(c) || c == '_'
  }

  /** The body of a decimal literal: digits, with single underscores only
      between two digits. */
  predicate WellFormedDigits(s: string)
  {
    && |s| > 0
    && IsDigit(s[|s| - 1])
    && (|s| == 1
        || (s[|s| - 2] == '_' && |s| > 2 && WellFormedDigits(s[..|s| - 2]))
        || (s[|s| - 2] != '_' && WellFormedDigits(s[..|s| - 1])))
  }

  function DigitValue(c: char): nat
    requires IsDigit(c)
  {
    c as int - '0' as int
  }

  /** The number the digits spell, underscores being skipped. */
  function DigitsValue(s: string): nat
  {
    if |s| == 0 then 0
    else
      var init := DigitsValue(s[..|s| - 1]);
      var c := s[|s| - 1];
      if IsDigit(c) then 10 * init + DigitValue(c) else init
  }

  /** Every character of a well-formed body is a digit or an underscore, it
      starts with a digit, and no two underscores are adjacent. */
  lemma {:induction false} WellFormedDigitsShape(s: string)
    requires WellFormedDigits(s)
    ensures IsDigit(s[0])
    ensures forall k :: 0 <= k < |s| ==> DigitOrUnderscore(s[k])
    ensures forall k :: 0 <= k < |s| - 1 ==> s[k] == '_' ==> s[k + 1] != '_'
  {
    if |s| > 1 {
      var p := if s[|s| - 2] == '_' then s[..|s| - 2] else s[..|s| - 1];
      WellFormedDigitsShape(p);
      assert forall k :: 0 <= k < |p| ==> s[k] == p[k];
    }
  }

  /** The information separators U+001C..U+001F. `str.isspace` holds for
      them, but `int` does not skip them: it skips only the ASCII whitespace
      tab, line feed, vertical tab, form feed, carriage return and space, and
      the non-ASCII characters for which `str.isspace` holds. */
  predicate IsInformationSeparator(c: char)
  {
    '\U{1C}' <= c <= '\U{1F}'
  }

  /** The whitespace `int` skips around its digits. */
  predicate IsIntSpace(c: char)
  {
    IsSpace(c) && !IsInformationSeparator(c)
  }

  predicate AllIntSpace(s: string)
  {
    forall k :: 0 <= k < |s| ==> IsIntSpace(s[k])
  }

  predicate HasInformationSeparator(s: string)
  {
    exists k :: 0 <= k < |s| && IsInformationSeparator(s[k])
  }

  /** The default limit on the number of digits `int` converts from a string
      (`sys.get_int_max_str_digits()`); longer digit strings make it raise
      `ValueError`. */
  const MaxStrDigits: nat := 4300

  /** The number of digits in `s`; underscores do not count. */
  function DigitCount(s: string): nat
  {
    if |s| == 0 then 0
    else DigitCount(s[..|s| - 1]) + if IsDigit(s[|s| - 1]) then 1 else 0
  }

  /** A digit string `int` converts: well formed, and within the digit limit. */
  predicate AcceptedDigits(s: string)
  {
    WellFormedDigits(s) && DigitCount(s) <= MaxStrDigits
  }

  /** `int(s)`: `None` where Python raises `ValueError`. `str.strip` removes
      the whitespace `int` skips and, besides, the information separators;
      `int` rejects any text that holds one of those, wherever it stands, so
      `int(s)` is the parse of `s.strip()` once such text is set apart. */
  function ParseInt(s: string): Option<int>
  {
    if HasInformationSeparator(s) then None
    else ParseStripped(Strip(s))
  }

  /** Text `int` accepts holds no information separator, and once stripped
      it is an optional sign followed by digits and underscores, ending in a
      digit; after the sign comes a decimal body within the digit limit. */
  lemma ParseAccepted(s: string)
    requires ParseInt(s).Some?
    ensures !HasInformationSeparator(s)
    ensures var t := Strip(s);
      && t != [] && IsDigit(t[|t| - 1])
      && forall k :: 0 <= k < |t| ==> DigitOrUnderscore(t[k]) || (k == 0 && (t[k] == '+' || t[k] == '-'))
    ensures var t := Strip(s);
      var body := Unsigned(t);
      DecimalBody(body) && DigitCount(body) <= MaxStrDigits
  {
    StrippedAccepted(Strip(s));
  }

  lemma StrippedAccepted(t: string)
    requires ParseStripped(t).Some?
    ensures t != [] && IsDigit(t[|t| - 1])
    ensures forall k :: 0 <= k < |t| ==> DigitOrUnderscore(t[k]) || (k == 0 && (t[k] == '+' || t[k] == '-'))
    ensures DecimalBody(Unsigned(t)) && DigitCount(Unsigned(t)) <= MaxStrDigits
  {
    if t[0] == '+' || t[0] == '-' {
      assert AcceptedDigits(t[1..]);
      WellFormedDigitsShape(t[1..]);
      forall k | 0 < k < |t| ensures DigitOrUnderscore(t[k]) {
        assert t[k] == t[1..][k - 1];
      }
    } else {
      assert AcceptedDigits(t);
      WellFormedDigitsShape(t);
    }
  }

  /** Stripped text without its leading sign, if it has one. */
  function Unsigned(t: string): (body: string)
    ensures |body| <= |t|
  {
    if |t| > 0 && (t[0] == '+' || t[0] == '-') then t[1..] else t
  }

  /** A decimal body described character by character: digits and
      underscores, starting and ending with a digit, with no two underscores
      side by side. */
  predicate DecimalBody(b: string)
  {
    && |b| > 0
    && IsDigit(b[0]) && IsDigit(b[|b| - 1])
    && (forall k :: 0 <= k < |b| ==> DigitOrUnderscore(b[k]))
    && (forall k :: 0 <= k < |b| - 1 ==> b[k] == '_' ==> b[k + 1] != '_')
  }

  /** A body described character by character is one the recursive grammar
      accepts. */
  lemma {:induction false} DecimalBodyIsWellFormed(b: string)
    requires DecimalBody(b)
    ensures WellFormedDigits(b)
  {
    if |b| > 1 {
      if b[|b| - 2] == '_' {
        var p := b[..|b| - 2];
        assert b[0] != '_';
        assert b[|b| - 3] != '_';
        assert forall k :: 0 <= k < |p| ==> p[k] == b[k];
        DecimalBodyIsWellFormed(p);
      } else {
        var p := b[..|b| - 1];
        assert forall k :: 0 <= k < |p| ==> p[k] == b[k];
        DecimalBodyIsWellFormed(p);
      }
    }
  }

  /** The converse of `ParseAccepted`: text with no information separator
      whose stripped form is an optional sign and then a decimal body within
      the digit limit is accepted, and `int` gives the signed value of its
      digits, underscores being skipped. So `"007"` is 7 and `"1_000"` is
      1000. */
  lemma ParseAcceptsDecimal(s: string)
    requires !HasInformationSeparator(s)
    requires DecimalBody(Unsigned(Strip(s))) && DigitCount(Unsigned(Strip(s))) <= MaxStrDigits
    ensures var t := Strip(s);
      var magnitude: int := DigitsValue(Unsigned(t));
      ParseInt(s) == Some(if t[0] == '-' then -magnitude else magnitude)
  {
    DecimalBodyIsWellFormed(Unsigned(Strip(s)));
  }

  /** `int` on text that has already lost its surrounding whitespace. */
  function ParseStripped(t: string): (r: Option<int>)
    ensures r.Some? ==> t != [] && IsDigit(t[|t| - 1])
  {
    if |t| > 0 && (t[0] == '+' || t[0] == '-') then
      var body := t[1..];
      if AcceptedDigits(body) then
        var magnitude: int := DigitsValue(body);
        assert body[|body| - 1] == t[|t| - 1];
        Some(if t[0] == '-' then -magnitude else magnitude)
      else
        None
    else if AcceptedDigits(t) then
      Some(DigitsValue(t))
    else
      None
  }

  function DigitChar(d: nat): (c: char)
    requires d < 10
    ensures IsDigit(c) && DigitValue(c) == d
  {
    ('0' as int + d) as char
  }

  /** Decimal digits of a natural number, most significant first, no leading zero. */
  function NatDigits(n: nat): (s: string)
    ensures WellFormedDigits(s)
    ensures '_' !in s
    ensures DigitsValue(s) == n
  {
    if n < 10 then
      [DigitChar(n)]
    else
      var s := NatDigits(n / 10) + [DigitChar(n % 10)];
      assert s[..|s| - 1] == NatDigits(n / 10);
      s
  }

  /** `str(n)` for an integer `n`. */
  function ShowInt(n: int): string
  {
    if n < 0 then "-" + NatDigits(-n) else NatDigits(n)
  }

  /** An integer whose decimal form `int` accepts: at most the digit limit. */
  predicate WithinDigitLimit(n: int)
  {
    |NatDigits(if n < 0 then -n else n)| <= MaxStrDigits
  }

  /** `int(str(n)) == n` for every integer whose digits are within the limit. */
  lemma ParseShow(n: int)
    requires WithinDigitLimit(n)
    ensures ParseInt(ShowInt(n)) == Some(n)
  {
    ShowIntIsStripped(n);
    ShowIntHasNoSeparator(n);
    ParseStrippedShow(n);
  }

  lemma ParseStrippedShow(n: int)
    requires WithinDigitLimit(n)
    ensures ParseStripped(ShowInt(n)) == Some(n)
  {
    var s := ShowInt(n);
    var digits := NatDigits(if n < 0 then -n else n);
    NatDigitsAccepted(if n < 0 then -n else n);
    if n < 0 {
      assert s[1..] == digits;
    } else {
      assert s[0] != '+' && s[0] != '-';
    }
  }

  /** The decimal form of a natural number within the limit is accepted by
      `int` and starts with a digit. */
  lemma NatDigitsAccepted(n: nat)
    requires |NatDigits(n)| <= MaxStrDigits
    ensures AcceptedDigits(NatDigits(n)) && IsDigit(NatDigits(n)[0])
  {
    var digits := NatDigits(n);
    WellFormedDigitsShape(digits);
    DigitCountOfDigits(digits);
  }

  /** A string of digits alone has as many digits as characters. */
  lemma {:induction false} DigitCountOfDigits(s: string)
    requires forall k :: 0 <= k < |s| ==> DigitOrUnderscore(s[k])
    requires '_' !in s
    ensures DigitCount(s) == |s|
  {
    if |s| > 0 {
      assert forall k :: 0 <= k < |s| - 1 ==> s[..|s| - 1][k] == s[k];
      DigitCountOfDigits(s[..|s| - 1]);
    }
  }

  lemma ShowIntHasNoSeparator(n: int)
    ensures !HasInformationSeparator(ShowInt(n))
  {
    var s := ShowInt(n);
    var digits := NatDigits(if n < 0 then -n else n);
    WellFormedDigitsShape(digits);
    forall k | 0 <= k < |s|
      ensures !IsInformationSeparator(s[k])
    {
      if n < 0 && k > 0 {
        assert s[k] == digits[k - 1];
      }
    }
  }

  lemma ShowIntIsStripped(n: int)
    ensures Strip(ShowInt(n)) == ShowInt(n)
  {
    ShowIntIsTrimmed(n);
    StripTrimmed(ShowInt(n));
  }

  lemma ShowIntIsTrimmed(n: int)
    ensures Trimmed(ShowInt(n))
  {
    var s := ShowInt(n);
    WellFormedDigitsShape(NatDigits(if n < 0 then -n else n));
    assert !IsSpace(s[0]) by {
      if n >= 0 { assert IsDigit(s[0]); }
      if IsSpace(s[0]) { SpaceBounds(s[0]); }
    }
    assert !IsSpace(s[|s| - 1]) by {
      assert IsDigit(s[|s| - 1]);
      if IsSpace(s[|s| - 1]) { SpaceBounds(s[|s| - 1]); }
    }
  }

  /** Whitespace `int` skips around the text does not change what `int`
      makes of it. */
  lemma ParseIgnoresPadding(a: string, s: string, b: string)
    requires AllIntSpace(a) && AllIntSpace(b)
    ensures ParseInt(a + s + b) == ParseInt(s)
  {
    IntSpaceIsSpace(a);
    IntSpaceIsSpace(b);
    StripIgnoresPadding(a, s, b);
    PaddingAddsNoSeparator(a, s, b);
  }

  lemma IntSpaceIsSpace(a: string)
    requires AllIntSpace(a)
    ensures AllSpace(a)
  {
    forall k | 0 <= k < |a| ensures IsSpace(a[k]) { assert IsIntSpace(a[k]); }
  }

  /** Whitespace `int` skips holds no information separator. */
  lemma PaddingAddsNoSeparator(a: string, s: string, b: string)
    requires AllIntSpace(a) && AllIntSpace(b)
    ensures HasInformationSeparator(a + s + b) == HasInformationSeparator(s)
  {
    if HasInformationSeparator(s) {
      var k :| 0 <= k < |s| && IsInformationSeparator(s[k]);
      assert (a + s + b)[|a| + k] == s[k];
    } else {
      forall k | 0 <= k < |a + s + b|
        ensures !IsInformationSeparator((a + s + b)[k])
      {
        if k < |a| {
          assert (a + s + b)[k] == a[k];
        } else if k < |a| + |s| {
          assert (a + s + b)[k] == s[k - |a|];
        } else {
          assert (a + s + b)[k] == b[k - |a| - |s|];
        }
      }
    }
  }

  /** An information separator anywhere in the text makes `int` fail, even
      where `str.strip` would remove it. */
  lemma ParseRejectsInformationSeparator(s: string, k: nat)
    requires k < |s| && IsInformationSeparator(s[k])
    ensures ParseInt(s) == None
  {
  }

  /** A character that is neither a digit, an underscore nor a sign, left after
      stripping, makes `int` fail. */
  lemma ParseRejectsForeignChar(s: string, k: nat)
    requires k < |Strip(s)|
    requires !DigitOrUnderscore(Strip(s)[k]) && Strip(s)[k] != '+' && Strip(s)[k] != '-'
    ensures ParseInt(s) == None
  {
    if !HasInformationSeparator(s) {
      StrippedRejectsForeignChar(Strip(s), k);
    }
  }

  lemma StrippedRejectsForeignChar(t: string, k: nat)
    requires k < |t|
    requires !DigitOrUnderscore(t[k]) && t[k] != '+' && t[k] != '-'
    ensures ParseStripped(t) == None
  {
    if t[0] == '+' || t[0] == '-' {
      assert k > 0;
      assert t[1..][k - 1] == t[k];
      if WellFormedDigits(t[1..]) { WellFormedDigitsShape(t[1..]); }
    } else {
      if WellFormedDigits(t) { WellFormedDigitsShape(t); }
    }
  }
}
