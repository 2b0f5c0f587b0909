/**
 * The options of the "Select Region" box:
 * `["All"] + sorted(list(set(regions present in the data)))`.
 */
module Regions {
  import opened Wrappers
  import opened Text
  import opened Countries

  /** Strictly increasing in Python's string order, hence without duplicates. */
  predicate StrictlyIncreasing(s: seq<string>) {
    forall i, j | 0 <= i < j < |s| :: LexLess(s[i], s[j])
  }

  /** `[country.get('region', 'Unknown') for country in countries if 'region' in country]`. */
  function RegionsPresent(cs: seq<Country>): (r: seq<string>)
    ensures forall x :: x in r <==> exists c :: c in cs && c.region == Some(x)
  {
    if cs == [] then []
    else
      var head := match cs[0].region case Some(x) => [x] case None => [];
      var r := head + RegionsPresent(cs[1..]);
      assert cs == [cs[0]] + cs[1..];
      r
  }

  lemma StrictCons(a: string, s: seq<string>)
    ensures StrictlyIncreasing([a] + s) <==> (forall y :: y in s ==> LexLess(a, y)) && StrictlyIncreasing(s)
  {
    var r := [a] + s;
    if (forall y :: y in s ==> LexLess(a, y)) && StrictlyIncreasing(s) {
      forall i, j | 0 <= i < j < |r|
        ensures LexLess(r[i], r[j])
      {
        assert r[j] == s[j - 1];
        if i > 0 {
          assert r[i] == s[i - 1];
        }
      }
    }
    if StrictlyIncreasing(r) {
      forall y | y in s
        ensures LexLess(a, y)
      {
        var j :| 0 <= j < |s| && s[j] == y;
        assert r[0] == a && r[j + 1] == y;
      }
      forall i, j | 0 <= i < j < |s|
        ensures LexLess(s[i], s[j])
      {
        assert r[i + 1] == s[i] && r[j + 1] == s[j];
      }
    }
  }

  /** Adds `x` to a strictly increasing list unless it is already there. */
  function InsertDistinct(x: string, t: seq<string>): (r: seq<string>)
    ensures forall y :: y in r <==> y in t || y == x
  {
    if t == [] then [x]
    else if x == t[0] then t
    else if LexLess(t[0], x) then
      assert t == [t[0]] + t[1..];
      [t[0]] + InsertDistinct(x, t[1..])
    else
      [x] + t
  }

  lemma {:induction false} InsertDistinctIncreasing(x: string, t: seq<string>)
    requires StrictlyIncreasing(t)
    ensures StrictlyIncreasing(InsertDistinct(x, t))
  {
    if t == [] || x == t[0] {
    } else if LexLess(t[0], x) {
      assert t == [t[0]] + t[1..];
      StrictCons(t[0], t[1..]);
      InsertDistinctIncreasing(x, t[1..]);
      StrictCons(t[0], InsertDistinct(x, t[1..]));
    } else {
      assert t == [t[0]] + t[1..];
      StrictCons(t[0], t[1..]);
      LexLessConnected(x, t[0]);
      forall y | y in t
        ensures LexLess(x, y)
      {
        if y != t[0] {
          LexLessTransitive(x, t[0], y);
        }
      }
      StrictCons(x, t);
    }
  }

  /** `sorted(set(xs))`: the distinct values of `xs`, strictly increasing. */
  function SortedDistinct(xs: seq<string>): (r: seq<string>)
    ensures StrictlyIncreasing(r)
    ensures forall x :: x in r <==> x in xs
  {
    if xs == [] then []
    else
      var t := SortedDistinct(xs[1..]);
      InsertDistinctIncreasing(xs[0], t);
      assert xs == [xs[0]] + xs[1..];
      InsertDistinct(xs[0], t)
  }

  /**
   * A strictly increasing list is determined by its elements, so
   * `SortedDistinct` is what `sorted(list(set(...)))` gives, whatever the
   * set's iteration order.
   */
  lemma {:induction false} StrictlyIncreasingUnique(a: seq<string>, b: seq<string>)
    requires StrictlyIncreasing(a) && StrictlyIncreasing(b)
    requires forall x :: x in a <==> x in b
    ensures a == b
  {
    if a != [] && b != [] {
      assert a == [a[0]] + a[1..] && b == [b[0]] + b[1..];
      StrictCons(a[0], a[1..]);
      StrictCons(b[0], b[1..]);
      if a[0] != b[0] {
        assert a[0] in a && b[0] in b;
        assert a[0] in b[1..];
        assert b[0] in a[1..];
        LexLessAsymmetric(a[0], b[0]);
        assert false;
      }
      LexLessIrreflexive(a[0]);
      forall x
        ensures x in a[1..] <==> x in b[1..]
      {
        if x in a[1..] {
          assert x != a[0];
          assert x in b;
        }
        if x in b[1..] {
          assert x != b[0];
          assert x in a;
        }
      }
      StrictlyIncreasingUnique(a[1..], b[1..]);
    } else if a != [] {
      FirstIsMember(a);
    } else if b != [] {
      FirstIsMember(b);
    }
  }

  lemma FirstIsMember(a: seq<string>)
    requires a != []
    ensures a[0] in a
  {
  }

  const AllRegions := "All"

  /**
   * The region options: "All" first, then each region some record carries,
   * once, in increasing order. Records without a region contribute nothing.
   */
  function RegionOptions(cs: seq<Country>): (r: seq<string>)
    ensures |r| >= 1 && r[0] == AllRegions
    ensures StrictlyIncreasing(r[1..])
    ensures forall x :: x in r[1..] <==> exists c :: c in cs && c.region == Some(x)
  {
    var r := [AllRegions] + SortedDistinct(RegionsPresent(cs));
    assert r[1..] == SortedDistinct(RegionsPresent(cs));
    r
  }

  /** Any strictly increasing list of exactly the regions present is the options' tail. */
  lemma RegionOptionsUnique(cs: seq<Country>, rs: seq<string>)
    requires StrictlyIncreasing(rs)
    requires forall x :: x in rs <==> exists c :: c in cs && c.region == Some(x)
    ensures RegionOptions(cs) == [AllRegions] + rs
  {
    var opts := RegionOptions(cs);
    StrictlyIncreasingUnique(opts[1..], rs);
    assert opts == [opts[0]] + opts[1..];
  }
}
