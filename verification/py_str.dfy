/**
  The two Python string operations the deployment parser applies to the
  srun options section: `str.strip()` with no argument and `str.split(" ")`
  with an explicit one-character separator, together with `" ".join`, the
  inverse of the split.
 */
module PyStr {

  const SpaceRangeCount: nat := 10

  /** The inclusive code-point ranges of the characters for which Python's
      `str.isspace()` holds. */
  function SpaceRange(i: nat): (int, int)
    requires i < SpaceRangeCount
  {
    if i == 0 then (0x09, 0x0D)            // tab, line feed, vertical tab, form feed, carriage return
    else if i == 1 then (0x1C, 0x20)       // file, group, record and unit separators, space
    else if i == 2 then (0x85, 0x85)       // next line
    else if i == 3 then (0xA0, 0xA0)       // no-break space
    else if i == 4 then (0x1680, 0x1680)   // ogham space mark
    else if i == 5 then (0x2000, 0x200A)   // en quad .. hair space
    else if i == 6 then (0x2028, 0x2029)   // line and paragraph separators
    else if i == 7 then (0x202F, 0x202F)   // narrow no-break space
    else if i == 8 then (0x205F, 0x205F)   // medium mathematical space
    else (0x3000, 0x3000)                  // ideographic space
  }

  /** Code point `n` lies in one of the ranges from the `i`-th on. */
  predicate InSpaceRanges(n: int, i: nat)
    decreases SpaceRangeCount - i
  {
    i < SpaceRangeCount && ((SpaceRange(i).0 <= n <= SpaceRange(i).1) || InSpaceRanges(n, i + 1))
  }

  /** Python's `str.isspace()` on one character: the ASCII controls TAB to CR
      and the separators U+001C..U+001F, the space, and more characters at or
      above NEL (`SpaceBounds`). */
  predicate IsSpace(c: char): (r: bool)
    ensures '\t' <= c <= '\r' || '\U{1C}' <= c <= ' ' ==> r
  {
    InSpaceRanges(c as int, 0)
  }

  /** Whitespace lies at or below the space character or at or above NEL, so
      no ASCII digit, letter or sign is whitespace. */
  lemma SpaceBounds(c: char)
    requires IsSpace(c)
    ensures c <= ' ' || c >= '\U{85}'
  {
    InSpaceRangesBounds(c as int, 0);
  }

  lemma {:induction false} InSpaceRangesBounds(n: int, i: nat)
    requires InSpaceRanges(n, i)
    ensures n <= 0x20 || n >= 0x85
    decreases SpaceRangeCount - i
  {
    if !(SpaceRange(i).0 <= n <= SpaceRange(i).1) {
      InSpaceRangesBounds(n, i + 1);
    }
  }

  predicate AllSpace(s: string)
  {
    forall k :: 0 <= k < |s| ==> IsSpace(s[k])
  }

  /** True when `s` neither starts nor ends with whitespace. */
  predicate Trimmed(s: string)
  {
    s == [] || (!IsSpace(s[0]) && !IsSpace(s[|s| - 1]))
  }

  /** Drops the longest whitespace prefix. */
  function TrimStart(s: string): (r: string)
    ensures |r| <= |s| && r == s[|s| - |r|..]
    ensures AllSpace(s[..|s| - |r|])
    ensures r == [] || !IsSpace(r[0])
  {
    if |s| > 0 && IsSpace(s[0]) then
      var r := TrimStart(s[1..]);
      var n := |s| - |r|;
      assert forall k :: 1 <= k < n ==> s[..n][k] == s[1..][..n - 1][k - 1];
      r
    else
      s
  }

  /** Drops the longest whitespace suffix. */
  function TrimEnd(s: string): (r: string)
    ensures |r| <= |s| && r == s[..|r|]
    ensures AllSpace(s[|r|..])
    ensures r == [] || !IsSpace(r[|r| - 1])
  {
    if |s| > 0 && IsSpace(s[|s| - 1]) then
      var r := TrimEnd(s[..|s| - 1]);
      assert forall k :: 0 <= k < |s| - 1 - |r| ==> s[|r|..][k] == s[..|s| - 1][|r|..][k];
      r
    else
      s
  }

  /** `s.strip()`: what is left after removing whitespace at both ends. */
  function Strip(s: string): (r: string)
    ensures Trimmed(r)
  {
    var t := TrimStart(s);
    var r := TrimEnd(t);
    assert r == [] || r[0] == t[0];
    r
  }

  /** Number of `' '` characters (only the space itself, not other whitespace). */
  function CountSpaces(s: string): nat
  {
    if |s| == 0 then 0 else (if s[0] == ' ' then 1 else 0) + CountSpaces(s[1..])
  }

  /** `" ".join(ts)`. */
  function Join(ts: seq<string>): string
  {
    if |ts| == 0 then ""
    else if |ts| == 1 then ts[0]
    else ts[0] + " " + Join(ts[1..])
  }

  /** `s.split(" ")`: every single space is a separator, so adjacent spaces
      give empty tokens and the empty string gives one empty token. */
  function Split(s: string): (r: seq<string>)
    ensures |r| == CountSpaces(s) + 1
    ensures forall k :: 0 <= k < |r| ==> ' ' !in r[k]
    ensures Join(r) == s
  {
    if |s| == 0 then [""]
    else
      var rest := Split(s[1..]);
      if s[0] == ' ' then
        assert s == " " + s[1..];
        [""] + rest
      else
        var r := [[s[0]] + rest[0]] + rest[1..];
        assert ' ' !in r[0];
        assert r[1..] == rest[1..];
        assert s == [s[0]] + s[1..];
        r
  }

  /** Splitting a word that has no space in front of `rest` glues the word to
      the first token of `rest`. */
  lemma {:induction false} SplitAfterWord(w: string, rest: string)
    requires ' ' !in w
    ensures Split(w + rest) == [w + Split(rest)[0]] + Split(rest)[1..]
    decreases |w|
  {
    if |w| > 0 {
      SplitAfterWord(w[1..], rest);
      assert (w + rest)[1..] == w[1..] + rest;
      assert w[0] != ' ';
      assert [w[0]] + (w[1..] + Split(rest)[0]) == w + Split(rest)[0];
    } else {
      var rs := Split(rest);
      assert w + rest == rest;
      assert w + rs[0] == rs[0];
      assert rs == [rs[0]] + rs[1..];
    }
  }

  /** Split undoes Join on tokens that hold no space. */
  lemma {:induction false} SplitJoin(ts: seq<string>)
    requires |ts| >= 1
    requires forall k :: 0 <= k < |ts| ==> ' ' !in ts[k]
    ensures Split(Join(ts)) == ts
  {
    if |ts| == 1 {
      SplitAfterWord(ts[0], "");
      assert ts[0] + "" == ts[0];
    } else {
      var tail := Join(ts[1..]);
      SplitJoin(ts[1..]);
      SplitAfterWord(ts[0], " " + tail);
      assert (" " + tail)[1..] == tail;
      assert Split(" " + tail) == [""] + Split(tail);
      assert ts[0] + "" == ts[0];
      assert ts == [ts[0]] + ts[1..];
    }
  }

  /** Different strings split into different token lists, so no text is
      lost by splitting. */
  lemma SplitIsInjective(s: string, t: string)
    requires Split(s) == Split(t)
    ensures s == t
  {
  }

  /** The string is the last token preceded by the join of the others. */
  lemma {:induction false} JoinLast(ts: seq<string>)
    requires |ts| >= 2
    ensures Join(ts) == Join(ts[..|ts| - 1]) + " " + ts[|ts| - 1]
  {
    if |ts| == 2 {
      assert ts[..1] == [ts[0]];
    } else {
      JoinLast(ts[1..]);
      assert ts[1..][..|ts| - 2] == ts[..|ts| - 1][1..];
      assert ts[1..][|ts| - 2] == ts[|ts| - 1];
    }
  }

  /** Tokens of a stripped, non-empty string: the first token is non-empty and
      starts with a non-space, the last is non-empty and ends with one. */
  lemma TokensOfTrimmed(s: string)
    requires Trimmed(s) && s != []
    ensures var ts := Split(s);
      && ts[0] != [] && !IsSpace(ts[0][0])
      && ts[|ts| - 1] != [] && !IsSpace(ts[|ts| - 1][|ts[|ts| - 1]| - 1])
  {
    var ts := Split(s);
    assert IsSpace(' ');
    if |ts| == 1 {
      assert Join(ts) == ts[0];
    } else {
      assert Join(ts) == ts[0] + " " + Join(ts[1..]);
      assert s[|ts[0]|] == ' ';
      JoinLast(ts);
      assert s[|s| - |ts[|ts| - 1]| - 1] == ' ';
    }
  }

  /** Everything splitting a stripped string promises about its tokens. */
  lemma SplitOfTrimmed(t: string)
    requires Trimmed(t)
    ensures var ts := Split(t);
      && Split(Join(ts)) == ts
      && (forall k :: 0 <= k < |ts| ==> ' ' !in ts[k])
      && |ts| == CountSpaces(t) + 1
      && (t != [] ==>
            && ts[0] != [] && !IsSpace(ts[0][0])
            && ts[|ts| - 1] != [] && !IsSpace(ts[|ts| - 1][|ts[|ts| - 1]| - 1]))
  {
    if t != [] {
      TokensOfTrimmed(t);
    }
  }

  /** Strip removes a whitespace prefix from text that starts with a non-space. */
  lemma {:induction false} TrimStartPadded(a: string, t: string)
    requires AllSpace(a)
    requires t == [] || !IsSpace(t[0])
    ensures TrimStart(a + t) == t
    decreases |a|
  {
    if |a| > 0 {
      assert (a + t)[1..] == a[1..] + t;
      TrimStartPadded(a[1..], t);
    } else {
      assert a + t == t;
    }
  }

  lemma {:induction false} TrimEndPadded(t: string, b: string)
    requires AllSpace(b)
    requires t == [] || !IsSpace(t[|t| - 1])
    ensures TrimEnd(t + b) == t
    decreases |b|
  {
    if |b| > 0 {
      assert (t + b)[..|t + b| - 1] == t + b[..|b| - 1];
      TrimEndPadded(t, b[..|b| - 1]);
    } else {
      assert t + b == t;
    }
  }

  /** Strip is exactly "remove all whitespace at both ends": any text with no
      whitespace at its ends is recovered from itself padded by whitespace. */
  lemma StripPadded(a: string, t: string, b: string)
    requires AllSpace(a) && AllSpace(b) && Trimmed(t)
    ensures Strip(a + t + b) == t
  {
    if t == [] {
      assert a + t + b == a + b;
      assert AllSpace(a + b);
      TrimStartPadded(a + b, []);
      assert a + b + [] == a + b;
      TrimStartPadded(a + b, []);
      assert TrimStart(a + b) == [];
    } else {
      assert a + t + b == a + (t + b);
      TrimStartPadded(a, t + b);
      TrimEndPadded(t, b);
    }
  }

  /** Stripping only depends on the text between the surrounding whitespace. */
  lemma StripIgnoresPadding(a: string, s: string, b: string)
    requires AllSpace(a) && AllSpace(b)
    ensures Strip(a + s + b) == Strip(s)
  {
    var a', t, b' := StripParts(s);
    AllSpaceConcat(a, a');
    AllSpaceConcat(b', b);
    Regroup(a, a', t, b', b);
    StripPadded(a + a', t, b' + b);
  }

  /** The whitespace `Strip` removes on each side, and what it keeps. */
  lemma StripParts(s: string) returns (a: string, t: string, b: string)
    ensures AllSpace(a) && AllSpace(b) && Trimmed(t)
    ensures s == a + t + b && t == Strip(s)
  {
    var u := TrimStart(s);
    t := TrimEnd(u);
    a := s[..|s| - |u|];
    b := u[|t|..];
    SliceTwo(s, |s| - |u|);
    SliceTwo(u, |t|);
    Assoc(a, t, b);
  }

  /* The three facts about concatenation below are kept as lemmas of their own:
     proved in the middle of the stripping lemmas, with the trimming functions'
     contracts in scope, they cost the solver far more. */

  lemma Assoc(a: string, t: string, b: string)
    ensures a + (t + b) == a + t + b
  {
  }

  lemma SliceTwo(s: string, i: nat)
    requires i <= |s|
    ensures s == s[..i] + s[i..]
  {
  }

  lemma Regroup(a: string, a': string, t: string, b': string, b: string)
    ensures a + (a' + t + b') + b == (a + a') + t + (b' + b)
  {
  }

  lemma AllSpaceConcat(a: string, b: string)
    requires AllSpace(a) && AllSpace(b)
    ensures AllSpace(a + b)
  {
    forall k | 0 <= k < |a + b|
      ensures IsSpace((a + b)[k])
    {
      if k < |a| { assert (a + b)[k] == a[k]; } else { assert (a + b)[k] == b[k - |a|]; }
    }
  }

  /** Text without whitespace at its ends is its own strip. */
  lemma StripTrimmed(s: string)
    requires Trimmed(s)
    ensures Strip(s) == s
  {
    assert [] + s + [] == s;
    StripPadded([], s, []);
  }

  lemma StripIsIdempotent(s: string)
    ensures Strip(Strip(s)) == Strip(s)
  {
    StripTrimmed(Strip(s));
  }
}
