/**
 * The string operations the pipeline relies on: ASCII lower-casing,
 * Python's substring test `needle in hay`, Python's ordering of `str`
 * values, `sep.join(xs)` and `str(n)` for a natural number.
 */
module Text {

  // ---------------------------------------------------------------------
  // Lower-casing (ASCII only)
  // ---------------------------------------------------------------------

  predicate IsAsciiUpper(ch: char) {
    'A' <= ch <= 'Z'
  }

  function LowerChar(ch: char): char {
    if IsAsciiUpper(ch) then (ch as int + 32) as char else ch
  }

  /** `s.lower()` on the ASCII letters: upper-case letters become lower-case, nothing else moves. */
  function Lower(s: string): (r: string)
    ensures |r| == |s|
    ensures forall i :: 0 <= i < |r| ==> !IsAsciiUpper(r[i])
    ensures forall i :: 0 <= i < |s| && !IsAsciiUpper(s[i]) ==> r[i] == s[i]
    ensures forall i :: 0 <= i < |s| && IsAsciiUpper(s[i]) ==> r[i] as int == s[i] as int + 32
  {
    seq(|s|, i requires 0 <= i < |s| => LowerChar(s[i]))
  }

  /** Lower-casing twice is lower-casing once. */
  lemma LowerIdempotent(s: string)
    ensures Lower(Lower(s)) == Lower(s)
  {
  }

  // ---------------------------------------------------------------------
  // Substring test
  // ---------------------------------------------------------------------

  /** `needle` sits in `hay` starting at index `i`. */
  ghost predicate OccursAt(needle: string, hay: string, i: int) {
    0 <= i && i + |needle| <= |hay| && hay[i..i + |needle|] == needle
  }

  lemma OccursAtShift(needle: string, hay: string, i: nat)
    requires hay != []
    ensures OccursAt(needle, hay[1..], i) <==> OccursAt(needle, hay, i + 1)
  {
    if 0 <= i && i + |needle| <= |hay[1..]| {
      assert hay[1..][i..i + |needle|] == hay[i + 1..i + 1 + |needle|];
    }
  }

  /** Python's `needle in hay` for strings: some window of `hay` equals `needle`. */
  function Contains(hay: string, needle: string): (b: bool)
    ensures b <==> exists i :: OccursAt(needle, hay, i)
  {
    if needle <= hay then
      assert OccursAt(needle, hay, 0);
      true
    else if hay == [] then
      false
    else
      var b := Contains(hay[1..], needle);
      ContainsStep(hay, needle, b);
      b
  }

  lemma ContainsStep(hay: string, needle: string, b: bool)
    requires hay != [] && !(needle <= hay)
    requires b <==> exists i :: OccursAt(needle, hay[1..], i)
    ensures b <==> exists i :: OccursAt(needle, hay, i)
  {
    if b {
      var i :| OccursAt(needle, hay[1..], i);
      OccursAtShift(needle, hay, i);
    }
    if i :| OccursAt(needle, hay, i) {
      assert i > 0;
      OccursAtShift(needle, hay, i - 1);
    }
  }

  /** The empty string is in every string, as in Python. */
  lemma EmptyContained(hay: string)
    ensures Contains(hay, "")
  {
    assert OccursAt("", hay, 0);
  }

  // ---------------------------------------------------------------------
  // Python's ordering of strings
  // ---------------------------------------------------------------------

  /**
   * Python's `a < b` on `str`: code points compared from the left, and a
   * proper prefix is smaller. (Dafny's own `<` on sequences means "proper
   * prefix" only.)
   */
  function LexLess(a: string, b: string): (r: bool)
    ensures |a| < |b| && a == b[..|a|] ==> r
    ensures |b| <= |a| && b == a[..|b|] ==> !r
    ensures forall i :: 0 <= i < |a| && i < |b| && a[..i] == b[..i] && a[i] != b[i] ==> (r <==> a[i] < b[i])
  {
    if b == [] then false
    else if a == [] then true
    else if a[0] != b[0] then a[0] < b[0]
    else
      var r := LexLess(a[1..], b[1..]);
      forall i | 0 <= i < |a| && i < |b| && a[..i] == b[..i] && a[i] != b[i]
        ensures r <==> a[i] < b[i]
      {
        assert i > 0;
        assert a[1..][..i - 1] == a[..i][1..] && b[1..][..i - 1] == b[..i][1..];
        assert a[1..][i - 1] == a[i] && b[1..][i - 1] == b[i];
      }
      assert |a| < |b| && a == b[..|a|] ==> a[1..] == b[1..][..|a| - 1];
      assert |b| <= |a| && b == a[..|b|] ==> b[1..] == a[1..][..|b| - 1];
      r
  }

  /** Python's `a <= b` on `str`. */
  predicate LexLe(a: string, b: string) {
    !LexLess(b, a)
  }

  lemma {:induction false} LexLessIrreflexive(a: string)
    ensures !LexLess(a, a)
  {
    if a != [] {
      LexLessIrreflexive(a[1..]);
    }
  }

  lemma {:induction false} LexLessTransitive(a: string, b: string, c: string)
    requires LexLess(a, b) && LexLess(b, c)
    ensures LexLess(a, c)
  {
    if a != [] && a[0] == b[0] && b[0] == c[0] {
      LexLessTransitive(a[1..], b[1..], c[1..]);
    }
  }

  /** Any two different strings are ordered one way or the other. */
  lemma {:induction false} LexLessConnected(a: string, b: string)
    ensures a == b || LexLess(a, b) || LexLess(b, a)
  {
    if a != [] && b != [] && a[0] == b[0] {
      LexLessConnected(a[1..], b[1..]);
      if a[1..] == b[1..] {
        assert a == [a[0]] + a[1..] && b == [b[0]] + b[1..];
      }
    }
  }

  lemma LexLessAsymmetric(a: string, b: string)
    requires LexLess(a, b)
    ensures !LexLess(b, a)
  {
    if LexLess(b, a) {
      LexLessTransitive(a, b, a);
      LexLessIrreflexive(a);
    }
  }

  /** `<=` on strings is a total order: total, antisymmetric and transitive. */
  lemma LexLeTotal(a: string, b: string)
    ensures LexLe(a, b) || LexLe(b, a)
  {
    if LexLess(a, b) {
      LexLessAsymmetric(a, b);
    }
  }

  lemma LexLeAntisymmetric(a: string, b: string)
    requires LexLe(a, b) && LexLe(b, a)
    ensures a == b
  {
    LexLessConnected(a, b);
  }

  lemma LexLeTransitive(a: string, b: string, c: string)
    requires LexLe(a, b) && LexLe(b, c)
    ensures LexLe(a, c)
  {
    if LexLess(c, a) {
      LexLessConnected(a, b);
      if a != b {
        LexLessTransitive(c, a, b);
      }
    }
  }

  lemma LexLessImpliesLe(a: string, b: string)
    requires LexLess(a, b)
    ensures LexLe(a, b)
  {
    LexLessAsymmetric(a, b);
  }

  lemma LexLeLessTransitive(a: string, b: string, c: string)
    requires LexLe(a, b) && LexLess(b, c)
    ensures LexLess(a, c)
  {
    LexLessConnected(a, b);
    if a != b {
      LexLessTransitive(a, b, c);
    }
  }

  /** The empty string is the least string, and the only one below or equal to it. */
  lemma EmptyIsLeast(a: string)
    ensures LexLe("", a)
    ensures LexLe(a, "") <==> a == ""
  {
  }

  // ---------------------------------------------------------------------
  // sep.join(xs)
  // ---------------------------------------------------------------------

  /** Python's `sep.join(xs)`. */
  function Join(xs: seq<string>, sep: string): (r: string)
    ensures |xs| == 0 ==> r == ""
    ensures |xs| > 0 ==> |r| == SumLengths(xs) + (|xs| - 1) * |sep|
  {
    if |xs| == 0 then ""
    else if |xs| == 1 then xs[0]
    else xs[0] + sep + Join(xs[1..], sep)
  }

  function SumLengths(xs: seq<string>): nat {
    if xs == [] then 0 else |xs[0]| + SumLengths(xs[1..])
  }

  /** Where the `i`-th piece starts in `Join(xs, sep)`. */
  function PieceStart(xs: seq<string>, sep: string, i: nat): nat
    requires i <= |xs|
  {
    if i == 0 then 0 else |xs[0]| + |sep| + PieceStart(xs[1..], sep, i - 1)
  }

  /**
   * Nothing is lost by joining: every piece stands in the joined string at
   * its start offset, and every separator follows its piece.
   */
  lemma {:induction false} JoinPieces(xs: seq<string>, sep: string, i: nat)
    requires i < |xs|
    ensures OccursAt(xs[i], Join(xs, sep), PieceStart(xs, sep, i))
    ensures i + 1 < |xs| ==> OccursAt(sep, Join(xs, sep), PieceStart(xs, sep, i) + |xs[i]|)
  {
    if |xs| == 1 {
      OccursAtFront(xs[0], "");
    } else if i == 0 {
      OccursAtFront(xs[0], sep + Join(xs[1..], sep));
      OccursAtFront(sep, Join(xs[1..], sep));
      OccursAtAppended(sep, [], xs[0], sep + Join(xs[1..], sep), 0);
    } else {
      JoinPieces(xs[1..], sep, i - 1);
      var tail := Join(xs[1..], sep);
      var k := PieceStart(xs[1..], sep, i - 1);
      OccursAtAppended(xs[i], xs[0], sep, tail, k);
      if i + 1 < |xs| {
        OccursAtAppended(sep, xs[0], sep, tail, k + |xs[i]|);
      }
    }
  }

  lemma OccursAtFront(needle: string, rest: string)
    ensures OccursAt(needle, needle + rest, 0)
  {
    assert (needle + rest)[0..|needle|] == needle;
  }

  lemma OccursAtAppended(needle: string, a: string, b: string, tail: string, k: nat)
    requires OccursAt(needle, tail, k)
    ensures OccursAt(needle, a + b + tail, |a| + |b| + k)
    ensures OccursAt(needle, a + (b + tail), |a| + |b| + k)
  {
    var off := |a| + |b|;
    assert (a + b + tail)[off + k..off + k + |needle|] == tail[k..k + |needle|];
    assert a + (b + tail) == a + b + tail;
  }

  /** Every joined piece can be found in the result (`piece in sep.join(xs)`). */
  lemma JoinContainsEach(xs: seq<string>, sep: string, i: nat)
    requires i < |xs|
    ensures Contains(Join(xs, sep), xs[i])
  {
    JoinPieces(xs, sep, i);
  }

  /** Joining two non-empty lists: the two joins with one separator between them. */
  lemma {:induction false} JoinAppend(xs: seq<string>, ys: seq<string>, sep: string)
    requires |xs| > 0 && |ys| > 0
    ensures Join(xs + ys, sep) == Join(xs, sep) + sep + Join(ys, sep)
  {
    if |xs| == 1 {
      assert (xs + ys)[1..] == ys;
    } else {
      assert (xs + ys)[1..] == xs[1..] + ys;
      JoinAppend(xs[1..], ys, sep);
    }
  }

  // ---------------------------------------------------------------------
  // str(n)
  // ---------------------------------------------------------------------

  predicate IsDigit(ch: char) {
    '0' <= ch <= '9'
  }

  /** A canonical decimal numeral: digits only, no leading zero unless it is "0". */
  predicate IsDecimal(s: string) {
    |s| >= 1 && (forall i :: 0 <= i < |s| ==> IsDigit(s[i])) && (|s| > 1 ==> s[0] != '0')
  }

  function DigitChar(d: nat): (ch: char)
    requires d < 10
    ensures IsDigit(ch) && ch as int - '0' as int == d
  {
    ('0' as int + d) as char
  }

  /** Python's `str(n)` for `n >= 0`. */
  function NatToString(n: nat): (r: string)
    ensures IsDecimal(r)
    ensures ParseDecimal(r) == n
  {
    if n < 10 then
      [DigitChar(n)]
    else
      var prefix := NatToString(n / 10);
      var r := prefix + [DigitChar(n % 10)];
      assert r[..|r| - 1] == prefix;
      r
  }

  /** The value of a string of digits. */
  function ParseDecimal(s: string): nat
    requires forall i :: 0 <= i < |s| ==> IsDigit(s[i])
  {
    if s == [] then 0
    else ParseDecimal(s[..|s| - 1]) * 10 + DigitValue(s[|s| - 1])
  }

  function DigitValue(ch: char): nat
    requires IsDigit(ch)
  {
    ch as int - '0' as int
  }

  /** Two canonical numerals with the same value are the same string, so `str(n)` is the only one. */
  lemma {:induction false} DecimalUnique(s: string, t: string)
    requires IsDecimal(s) && IsDecimal(t) && ParseDecimal(s) == ParseDecimal(t)
    ensures s == t
  {
    var n := ParseDecimal(s);
    var s', t' := s[..|s| - 1], t[..|t| - 1];
    var ds, dt := DigitValue(s[|s| - 1]), DigitValue(t[|t| - 1]);
    assert n % 10 == ds && n % 10 == dt;
    assert ParseDecimal(s') == ParseDecimal(t');
    if |s| == 1 && |t| == 1 {
    } else if |s| == 1 {
      NonZeroLead(t');
      assert false;
    } else if |t| == 1 {
      NonZeroLead(s');
      assert false;
    } else {
      assert IsDecimal(s') && IsDecimal(t');
      DecimalUnique(s', t');
      assert s == s' + [s[|s| - 1]] && t == t' + [t[|t| - 1]];
    }
  }

  lemma {:induction false} NonZeroLead(s: string)
    requires |s| >= 1 && (forall i :: 0 <= i < |s| ==> IsDigit(s[i])) && s[0] != '0'
    ensures ParseDecimal(s) >= 1
  {
    if |s| > 1 {
      NonZeroLead(s[..|s| - 1]);
    }
  }

  lemma NatToStringExamples()
    ensures NatToString(500) == "500"
    ensures NatToString(0) == "0"
  {
  }
}
