/** String helpers the webhook handler relies on: Python's `str.split` on a
    one-character separator, the `[-1]` segment of such a split, and the
    decimal rendering of integers used by `str(int)`, `%d`, `%I`, `%M` and `%Y`. */
module Text {
  import opened Wrappers

  // ---------------------------------------------------------------------------
  // Splitting on a separator
  // ---------------------------------------------------------------------------

  /** Python's `s.split(sep)` for a one-character separator: never empty, and
      every separator occurrence starts a new (possibly empty) piece. */
  function Split(s: string, sep: char): (r: seq<string>)
    ensures |r| >= 1
    ensures forall i :: 0 <= i < |r| ==> sep !in r[i]
    ensures Join(r, sep) == s
  {
    if |s| == 0 then [""]
    else
      var rest := Split(s[1..], sep);
      if s[0] == sep then [""] + rest
      else
        var r := [[s[0]] + rest[0]] + rest[1..];
        assert r[1..] == rest[1..];
        r
  }

  /** `sep.join(pieces)`, the inverse of `Split`. */
  function Join(pieces: seq<string>, sep: char): string
    requires |pieces| >= 1
  {
    if |pieces| == 1 then pieces[0] else pieces[0] + [sep] + Join(pieces[1..], sep)
  }

  /** Splitting a join of separator-free pieces gives the pieces back, so
      `Split` and `Join` are mutually inverse. */
  lemma {:induction false} SplitJoin(pieces: seq<string>, sep: char)
    requires |pieces| >= 1
    requires forall i :: 0 <= i < |pieces| ==> sep !in pieces[i]
    ensures Split(Join(pieces, sep), sep) == pieces
    decreases |pieces|, |pieces[0]|
  {
    var p := pieces[0];
    if |pieces| == 1 {
      SplitFree(p, sep);
    } else if |p| == 0 {
      var tail := Join(pieces[1..], sep);
      assert Join(pieces, sep) == [sep] + tail;
      assert ([sep] + tail)[1..] == tail;
      SplitJoin(pieces[1..], sep);
      assert pieces == [""] + pieces[1..];
    } else {
      var shorter := [p[1..]] + pieces[1..];
      assert shorter[1..] == pieces[1..];
      assert forall i :: 0 <= i < |shorter| ==> sep !in shorter[i] by {
        forall i | 0 <= i < |shorter| ensures sep !in shorter[i] {
          if i == 0 {
            assert forall c :: c in p[1..] ==> c in p;
          } else {
            assert shorter[i] == pieces[i];
          }
        }
      }
      SplitJoin(shorter, sep);
      var s := Join(pieces, sep);
      assert s == [p[0]] + Join(shorter, sep) by {
        assert Join(shorter, sep) == p[1..] + [sep] + Join(pieces[1..], sep);
        assert p == [p[0]] + p[1..];
      }
      assert s[0] == p[0] && s[1..] == Join(shorter, sep);
      assert p[0] != sep by { assert p[0] in p; }
      var rest := Split(s[1..], sep);
      assert rest == shorter;
      assert [[p[0]] + rest[0]] + rest[1..] == pieces by {
        assert [p[0]] + p[1..] == p;
      }
    }
  }

  /** A string without the separator splits into itself alone. */
  lemma {:induction false} SplitFree(s: string, sep: char)
    requires sep !in s
    ensures Split(s, sep) == [s]
    decreases |s|
  {
    if |s| > 0 {
      assert forall c :: c in s[1..] ==> c in s;
      SplitFree(s[1..], sep);
      assert s[0] in s;
      assert [s[0]] + s[1..] == s;
    }
  }

  /** The last piece of a join is a suffix of the joined string, preceded by
      the separator whenever there is more than one piece. */
  lemma {:induction false} JoinLast(pieces: seq<string>, sep: char)
    requires |pieces| >= 1
    ensures var s, last := Join(pieces, sep), pieces[|pieces| - 1];
      |last| <= |s| && s[|s| - |last|..] == last
    ensures var s, last := Join(pieces, sep), pieces[|pieces| - 1];
      |pieces| > 1 ==> |last| < |s| && s[|s| - |last| - 1] == sep
    decreases |pieces|
  {
    if |pieces| > 1 {
      JoinLast(pieces[1..], sep);
      var tail := Join(pieces[1..], sep);
      var s := Join(pieces, sep);
      assert s == pieces[0] + [sep] + tail;
      var last := pieces[|pieces| - 1];
      assert last == pieces[1..][|pieces[1..]| - 1];
      assert s[|s| - |tail|..] == tail;
      assert s[|s| - |tail| - 1] == sep;
      assert s[|s| - |last|..] == tail[|tail| - |last|..];
      if |last| < |tail| {
        assert s[|s| - |last| - 1] == tail[|tail| - |last| - 1];
      }
    }
  }

  /** `s.split(sep)[-1]`: the text after the last separator, all of `s` when
      it has none. */
  function LastSegment(s: string, sep: char): (r: string)
    ensures sep !in r
    ensures |r| <= |s| && s[|s| - |r|..] == r
    ensures |r| == |s| <==> sep !in s
    ensures |r| < |s| ==> s[|s| - |r| - 1] == sep
  {
    var pieces := Split(s, sep);
    var r := pieces[|pieces| - 1];
    JoinLast(pieces, sep);
    assert |pieces| > 1 ==> s[|s| - |r| - 1] in s;
    r
  }

  /** Any two strings with the properties promised by `LastSegment` are
      equal: the contract determines the segment completely. */
  lemma LastSegmentUnique(s: string, sep: char, t: string)
    requires sep !in t
    requires |t| <= |s| && s[|s| - |t|..] == t
    requires |t| == |s| || s[|s| - |t| - 1] == sep
    ensures t == LastSegment(s, sep)
  {
  }

  // ---------------------------------------------------------------------------
  // Decimal digits
  // ---------------------------------------------------------------------------

  predicate IsDigit(c: char) {
    '0' <= c <= '9'
  }

  predicate AllDigits(s: string) {
    forall i :: 0 <= i < |s| ==> IsDigit(s[i])
  }

  function DigitChar(d: nat): (c: char)
    requires d < 10
    ensures IsDigit(c) && DigitValue(c) == d
  {
    (48 + d) as char
  }

  function DigitValue(c: char): nat
    requires IsDigit(c)
  {
    c as int - 48
  }

  /** Value of a string of decimal digits, most significant first. */
  function DigitsValue(s: string): nat
    requires AllDigits(s)
  {
    if |s| == 0 then 0 else DigitsValue(s[..|s| - 1]) * 10 + DigitValue(s[|s| - 1])
  }

  /** `str(n)` for a natural number: shortest decimal, no leading zero. */
  function NatToDecimal(n: nat): (r: string)
    ensures |r| >= 1 && AllDigits(r)
    ensures r[0] == '0' ==> r == "0"
  {
    if n < 10 then [DigitChar(n)] else NatToDecimal(n / 10) + [DigitChar(n % 10)]
  }

  /** `int(s)` for a non-empty string of decimal digits. */
  function ParseNat(s: string): Option<nat> {
    if |s| > 0 && AllDigits(s) then Some(DigitsValue(s)) else None
  }

  lemma {:induction false} NatDecimalRoundTrip(n: nat)
    ensures ParseNat(NatToDecimal(n)) == Some(n)
  {
    if n >= 10 {
      NatDecimalRoundTrip(n / 10);
      var r := NatToDecimal(n);
      assert r[..|r| - 1] == NatToDecimal(n / 10);
      assert DigitsValue(r) == (n / 10) * 10 + n % 10;
    }
  }

  /** A canonical digit string (no leading zero) is the rendering of its value. */
  lemma {:induction false} DecimalNatRoundTrip(s: string)
    requires |s| > 0 && AllDigits(s)
    requires s[0] == '0' ==> s == "0"
    ensures NatToDecimal(DigitsValue(s)) == s
    decreases |s|
  {
    if |s| > 1 {
      var init := s[..|s| - 1];
      DecimalNatRoundTrip(init);
      DigitsValuePositive(init);
      assert s == init + [s[|s| - 1]];
    }
  }

  lemma {:induction false} DigitsValuePositive(s: string)
    requires |s| > 0 && AllDigits(s) && s[0] != '0'
    ensures DigitsValue(s) >= 1
    decreases |s|
  {
    if |s| > 1 {
      DigitsValuePositive(s[..|s| - 1]);
    }
  }

  /** Digits with no leading zero, unless the digits are exactly `0`. */
  predicate CanonicalNat(s: string) {
    |s| > 0 && AllDigits(s) && (s[0] == '0' ==> s == "0")
  }

  /** The form `str(int)` prints: canonical digits, preceded by `-` only for
      a negative value (so never `-0`). */
  predicate CanonicalInt(s: string) {
    if |s| > 0 && s[0] == '-' then CanonicalNat(s[1..]) && s[1..] != "0"
    else CanonicalNat(s)
  }

  /** `str(i)` for a Python int: a minus sign before the digits of `-i`. */
  function IntToDecimal(i: int): (r: string)
    ensures CanonicalInt(r)
    ensures ParseInt(r) == Some(i)
    ensures r[0] == '-' <==> i < 0
  {
    var digits := NatToDecimal(if i < 0 then -i else i);
    NatDecimalRoundTrip(if i < 0 then -i else i);
    if i < 0 then
      var r := "-" + digits;
      assert r[1..] == digits;
      r
    else digits
  }

  /** A canonical decimal string is the rendering of the integer it reads as:
      `str(int)` has exactly one possible text per value. */
  lemma CanonicalIntUnique(s: string)
    requires CanonicalInt(s)
    ensures ParseInt(s).Some? && IntToDecimal(ParseInt(s).value) == s
  {
    if s[0] == '-' {
      var digits := s[1..];
      DecimalNatRoundTrip(digits);
      DigitsValuePositive(digits);
      assert s == "-" + digits;
    } else {
      DecimalNatRoundTrip(s);
    }
  }

  /** `int(s)` restricted to the text `str(int)` prints. */
  function ParseCanonicalInt(s: string): (r: Option<int>)
    ensures r.Some? <==> CanonicalInt(s)
    ensures r.Some? ==> IntToDecimal(r.value) == s
  {
    if CanonicalInt(s) then
      CanonicalIntUnique(s);
      ParseInt(s)
    else None
  }

  /** `int(s)` for an optionally signed decimal string. */
  function ParseInt(s: string): Option<int> {
    if |s| > 0 && s[0] == '-' then
      match ParseNat(s[1..])
      case Some(n) => var v: int := n; Some(-v)
      case None => None
    else
      match ParseNat(s)
      case Some(n) => Some(n)
      case None => None
  }

  /** Two-digit zero-padded rendering, as `%d`, `%I` and `%M` print. */
  function Pad2(n: nat): (r: string)
    requires n < 100
    ensures |r| == 2 && ParseNat(r) == Some(n)
  {
    var r := [DigitChar(n / 10), DigitChar(n % 10)];
    assert r[..1][..0] == [];
    assert DigitsValue(r[..1]) == DigitValue(r[0]);
    assert DigitsValue(r) == (n / 10) * 10 + n % 10;
    r
  }

  /** A two-character digit string is the padded rendering of its value. */
  lemma Pad2Unique(s: string)
    requires |s| == 2 && ParseNat(s).Some?
    ensures ParseNat(s).value < 100 && Pad2(ParseNat(s).value) == s
  {
    assert s[..1][..0] == [];
    assert DigitsValue(s[..1]) == DigitValue(s[0]);
    var n := DigitsValue(s);
    assert n == DigitValue(s[0]) * 10 + DigitValue(s[1]);
    assert n / 10 == DigitValue(s[0]) && n % 10 == DigitValue(s[1]);
  }
}
