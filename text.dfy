/**
 * String operations the source borrows from Python's `str`: substring
 * containment (`in`, `__contains__`), `split` on a one-character
 * separator, ASCII `upper()` and the `%d` rendering of an integer.
 */
module Text {

  // ---------------------------------------------------------------- containment

  predicate IsPrefix(w: string, s: string) {
    |w| <= |s| && s[..|w|] == w
  }

  /** `w in s` for Python strings: `w` occurs somewhere in `s`. */
  predicate Contains(s: string, w: string)
    decreases |s|
  {
    IsPrefix(w, s) || (|s| > 0 && Contains(s[1..], w))
  }

  /** The first part of a concatenation is its prefix of that length. */
  lemma PrefixOfConcat(p: string, q: string)
    ensures |p + q| == |p| + |q| && (p + q)[..|p|] == p
  {
  }

  /** `w` occurs in `s` starting at position `i`. */
  predicate OccursAt(s: string, w: string, i: int) {
    0 <= i && i + |w| <= |s| && s[i..i + |w|] == w
  }

  /** An occurrence at a known position is enough to establish containment. */
  lemma {:induction false} ContainsAt(s: string, w: string, i: nat)
    requires OccursAt(s, w, i)
    ensures Contains(s, w)
    decreases i
  {
    if i == 0 {
      assert s[..|w|] == s[0..0 + |w|];
    } else {
      assert s[1..][i - 1..i - 1 + |w|] == s[i..i + |w|];
      ContainsAt(s[1..], w, i - 1);
    }
  }

  /** Containment yields a position where the word occurs. */
  lemma {:induction false} OccurrenceOf(s: string, w: string) returns (i: nat)
    requires Contains(s, w)
    ensures OccursAt(s, w, i)
    decreases |s|
  {
    if IsPrefix(w, s) {
      i := 0;
      assert s[0..0 + |w|] == s[..|w|];
    } else {
      var j := OccurrenceOf(s[1..], w);
      i := j + 1;
      assert s[1..][j..j + |w|] == s[j + 1..j + 1 + |w|];
    }
  }

  /** Containment means an occurrence at some position, and conversely. */
  lemma ContainsIff(s: string, w: string)
    ensures Contains(s, w) <==> exists i :: OccursAt(s, w, i)
  {
    if Contains(s, w) {
      var i := OccurrenceOf(s, w);
    }
    forall i | OccursAt(s, w, i)
      ensures Contains(s, w)
    {
      ContainsAt(s, w, i);
    }
  }

  /** A word occurring in a part of a string occurs in the whole. */
  lemma ContainsInConcat(a: string, b: string, w: string)
    requires Contains(b, w)
    ensures Contains(a + b, w)
  {
    var i := OccurrenceOf(b, w);
    assert (a + b)[|a| + i..|a| + i + |w|] == b[i..i + |w|];
    ContainsAt(a + b, w, |a| + i);
  }

  // ---------------------------------------------------------------- split / join

  /** Python's `s.split(c)`: the pieces between occurrences of `c`, never an empty list. */
  function Split(s: string, c: char): (r: seq<string>)
    ensures |r| >= 1
    ensures forall k :: 0 <= k < |r| ==> c !in r[k]
    decreases |s|
  {
    if |s| == 0 then [""]
    else if s[0] == c then [""] + Split(s[1..], c)
    else
      var rest := Split(s[1..], c);
      [[s[0]] + rest[0]] + rest[1..]
  }

  /** Python's `c.join(pieces)`, the inverse of `Split`. */
  function Join(pieces: seq<string>, c: char): string
    requires |pieces| >= 1
    decreases |pieces|
  {
    if |pieces| == 1 then pieces[0] else pieces[0] + [c] + Join(pieces[1..], c)
  }

  /** Joining the pieces of a split gives back the original string. */
  lemma {:induction false} JoinSplit(s: string, c: char)
    ensures Join(Split(s, c), c) == s
    decreases |s|
  {
    if |s| == 0 {
    } else if s[0] == c {
      JoinSplit(s[1..], c);
      assert s == [c] + s[1..];
    } else {
      var rest := Split(s[1..], c);
      JoinSplit(s[1..], c);
      if |rest| == 1 {
        assert s == [s[0]] + s[1..];
      } else {
        assert Join(rest, c) == rest[0] + [c] + Join(rest[1..], c);
        assert ([[s[0]] + rest[0]] + rest[1..])[1..] == rest[1..];
        assert s == [s[0]] + s[1..];
      }
    }
  }

  /** Splitting a join of separator-free pieces gives back the pieces. */
  lemma {:induction false} SplitJoin(pieces: seq<string>, c: char)
    requires |pieces| >= 1
    requires forall k :: 0 <= k < |pieces| ==> c !in pieces[k]
    ensures Split(Join(pieces, c), c) == pieces
    decreases |pieces|, |pieces[0]|
  {
    var p := pieces[0];
    if |pieces| == 1 {
      SplitNoSeparator(p, c);
    } else if |p| == 0 {
      var s := Join(pieces, c);
      assert s == [c] + Join(pieces[1..], c);
      assert s[1..] == Join(pieces[1..], c);
      SplitJoin(pieces[1..], c);
      assert pieces == [""] + pieces[1..];
    } else {
      var s := Join(pieces, c);
      var shorter := [p[1..]] + pieces[1..];
      assert shorter[1..] == pieces[1..];
      assert Join(shorter, c) == p[1..] + [c] + Join(pieces[1..], c);
      assert s == [p[0]] + Join(shorter, c);
      assert s[1..] == Join(shorter, c);
      assert s[0] == p[0] && p[0] != c;
      SplitJoin(shorter, c);
      assert [p[0]] + p[1..] == p;
      assert pieces == [p] + pieces[1..];
    }
  }

  /** A string without the separator splits into itself alone. */
  lemma {:induction false} SplitNoSeparator(s: string, c: char)
    requires c !in s
    ensures Split(s, c) == [s]
    decreases |s|
  {
    if |s| > 0 {
      assert s[1..] == s[1..];
      assert c !in s[1..] by {
        forall k | 0 <= k < |s[1..]| ensures s[1..][k] != c { assert s[1..][k] == s[k + 1]; }
      }
      SplitNoSeparator(s[1..], c);
      assert [s[0]] + s[1..] == s;
    }
  }

  /**
   * The first piece of a split is the longest separator-free prefix: the
   * whole string, or the text up to the first separator.
   */
  lemma {:induction false} FirstPieceIsPrefix(s: string, c: char)
    ensures var f := Split(s, c)[0];
      |f| <= |s| && f == s[..|f|] && (|f| == |s| || s[|f|] == c)
    decreases |s|
  {
    if |s| > 0 && s[0] != c {
      FirstPieceIsPrefix(s[1..], c);
    }
  }

  /**
   * The last piece of a split is the longest separator-free suffix: the
   * whole string, or the text after the last separator.
   */
  lemma {:induction false} LastPieceIsSuffix(s: string, c: char)
    ensures var r := Split(s, c); var l := r[|r| - 1];
      |l| <= |s| && l == s[|s| - |l|..] && (|l| == |s| || s[|s| - |l| - 1] == c)
    decreases |s|
  {
    if |s| > 0 {
      LastPieceIsSuffix(s[1..], c);
      var rest := Split(s[1..], c);
      var r := Split(s, c);
      if s[0] == c {
        assert r[|r| - 1] == rest[|rest| - 1];
      } else if |rest| == 1 {
        JoinSplit(s[1..], c);
        assert r == [[s[0]] + rest[0]];
        assert [s[0]] + s[1..] == s;
      } else {
        SplitOnePieceIff(s[1..], c);
        assert r[|r| - 1] == rest[|rest| - 1];
      }
    }
  }

  /** A split yields a single piece exactly when the separator is absent. */
  lemma SplitOnePieceIff(s: string, c: char)
    ensures |Split(s, c)| == 1 <==> c !in s
  {
    JoinSplit(s, c);
    if c !in s {
      SplitNoSeparator(s, c);
    }
  }

  /** What follows a separator's last occurrence does not depend on what precedes it. */
  lemma {:induction false} LastPieceAfterSeparator(p: string, c: char, q: string)
    ensures var r := Split(p + [c] + q, c); var t := Split(q, c);
      r[|r| - 1] == t[|t| - 1]
    decreases |p|
  {
    var s := p + [c] + q;
    if |p| == 0 {
      assert s[1..] == q;
    } else {
      assert s[1..] == p[1..] + [c] + q;
      LastPieceAfterSeparator(p[1..], c, q);
      var rest := Split(s[1..], c);
      var r := Split(s, c);
      assert s[1..][|p| - 1] == c;
      SplitOnePieceIff(s[1..], c);
      if s[0] == c {
        assert r == [""] + rest;
      } else {
        assert r == [[s[0]] + rest[0]] + rest[1..];
      }
      assert r[|r| - 1] == rest[|rest| - 1];
    }
  }

  // ---------------------------------------------------------------- Python 2 str()

  /** Python 2 `str()` of a unicode string succeeds exactly when every character is ASCII. */
  predicate IsAscii(s: string) {
    forall i :: 0 <= i < |s| ==> s[i] as int < 128
  }

  // ---------------------------------------------------------------- upper case

  /** Python 2 `str.upper()` on one byte: ASCII letters only. */
  function UpperChar(ch: char): char {
    if 'a' <= ch <= 'z' then (ch as int - 'a' as int + 'A' as int) as char else ch
  }

  function Upper(s: string): (r: string)
    ensures |r| == |s|
    ensures forall i :: 0 <= i < |s| ==> r[i] == UpperChar(s[i])
  {
    seq(|s|, i requires 0 <= i < |s| => UpperChar(s[i]))
  }

  /** Upper-casing twice is upper-casing once. */
  lemma UpperIdempotent(s: string)
    ensures Upper(Upper(s)) == Upper(s)
  {
  }

  // ---------------------------------------------------------------- decimal numerals

  function DigitChar(d: nat): char
    requires d < 10
  {
    ('0' as int + d) as char
  }

  predicate IsDigit(ch: char) {
    '0' <= ch <= '9'
  }

  /** The decimal digits of a natural number, most significant first. */
  function Digits(n: nat): (r: string)
    ensures |r| >= 1
    ensures forall i :: 0 <= i < |r| ==> IsDigit(r[i])
    ensures r[0] == '0' ==> n == 0
  {
    if n < 10 then [DigitChar(n)] else Digits(n / 10) + [DigitChar(n % 10)]
  }

  /** Python's `"%d" % n`: an optional minus sign followed by the digits. */
  function Decimal(n: int): (r: string)
    ensures |r| >= 1
  {
    if n < 0 then "-" + Digits(-n) else Digits(n)
  }

  function DigitsValue(s: string): nat
    decreases |s|
  {
    if |s| == 0 then 0
    else DigitsValue(s[..|s| - 1]) * 10 + (if IsDigit(s[|s| - 1]) then s[|s| - 1] as int - '0' as int else 0)
  }

  /** Reads a numeral back, the inverse of `Decimal`. */
  function ParseDecimal(s: string): int {
    if |s| > 0 && s[0] == '-' then 0 - DigitsValue(s[1..]) else DigitsValue(s)
  }

  lemma {:induction false} DigitsRoundTrip(n: nat)
    ensures DigitsValue(Digits(n)) == n
  {
    if n >= 10 {
      DigitsRoundTrip(n / 10);
      var d := Digits(n / 10) + [DigitChar(n % 10)];
      assert d[..|d| - 1] == Digits(n / 10);
    }
  }

  /** The numeral `Decimal` writes reads back as the same integer. */
  lemma DecimalRoundTrip(n: int)
    ensures ParseDecimal(Decimal(n)) == n
    ensures forall i :: 0 <= i < |Decimal(n)| ==> IsDigit(Decimal(n)[i]) || (i == 0 && n < 0)
  {
    if n < 0 {
      DigitsRoundTrip(-n);
      assert ("-" + Digits(-n))[1..] == Digits(-n);
    } else {
      DigitsRoundTrip(n);
    }
  }
}
