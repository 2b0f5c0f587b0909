/**
 * `sorted(filtered_countries, key=lambda x: x.get('name', {}).get('common', ''))`:
 * a stable sort by the common name, with Python's string ordering and `''`
 * for a missing name. Python's sort is a merge sort; any stable sort gives
 * the same list (`StableSortUnique`), so the model uses insertion.
 */
module Sorting {
  import opened Text
  import opened Countries

  /** Non-decreasing by name key. */
  predicate SortedByName(s: seq<Country>) {
    forall i, j | 0 <= i < j < |s| :: LexLe(NameKey(s[i]), NameKey(s[j]))
  }

  /** Every record of `s` has a name key at least `k`. */
  ghost predicate AllAtLeast(k: string, s: seq<Country>) {
    forall y | y in s :: LexLe(k, NameKey(y))
  }

  /** Puts `x` after the records whose name is strictly smaller than its own. */
  function Insert(x: Country, t: seq<Country>): (r: seq<Country>)
    ensures multiset(r) == multiset(t) + multiset{x}
  {
    if t == [] then [x]
    else if LexLess(NameKey(t[0]), NameKey(x)) then
      assert t == [t[0]] + t[1..];
      [t[0]] + Insert(x, t[1..])
    else
      [x] + t
  }

  /** The sorted list: non-decreasing by name and a permutation of the input. */
  function SortByName(s: seq<Country>): (r: seq<Country>)
    ensures multiset(r) == multiset(s)
    ensures SortedByName(r)
  {
    if s == [] then []
    else
      var t := SortByName(s[1..]);
      InsertSorted(s[0], t);
      assert s == [s[0]] + s[1..];
      Insert(s[0], t)
  }

  lemma SortedCons(a: Country, s: seq<Country>)
    ensures SortedByName([a] + s) <==> AllAtLeast(NameKey(a), s) && SortedByName(s)
  {
    if AllAtLeast(NameKey(a), s) && SortedByName(s) {
      SortedConsJoin(a, s);
    }
    if SortedByName([a] + s) {
      SortedConsSplit(a, s);
    }
  }

  lemma SortedConsJoin(a: Country, s: seq<Country>)
    requires AllAtLeast(NameKey(a), s) && SortedByName(s)
    ensures SortedByName([a] + s)
  {
    var r := [a] + s;
    forall i, j | 0 <= i < j < |r|
      ensures LexLe(NameKey(r[i]), NameKey(r[j]))
    {
      assert r[j] == s[j - 1];
      if i > 0 {
        assert r[i] == s[i - 1];
        assert LexLe(NameKey(s[i - 1]), NameKey(s[j - 1]));
      } else {
        assert s[j - 1] in s;
      }
    }
  }

  lemma SortedConsSplit(a: Country, s: seq<Country>)
    requires SortedByName([a] + s)
    ensures AllAtLeast(NameKey(a), s) && SortedByName(s)
  {
    var r := [a] + s;
    forall y | y in s
      ensures LexLe(NameKey(a), NameKey(y))
    {
      var j :| 0 <= j < |s| && s[j] == y;
      assert r[0] == a && r[j + 1] == y;
      assert LexLe(NameKey(r[0]), NameKey(r[j + 1]));
    }
    forall i, j | 0 <= i < j < |s|
      ensures LexLe(NameKey(s[i]), NameKey(s[j]))
    {
      assert r[i + 1] == s[i] && r[j + 1] == s[j];
      assert LexLe(NameKey(r[i + 1]), NameKey(r[j + 1]));
    }
  }

  /** Inserting into a sorted list keeps it sorted. */
  lemma {:induction false} InsertSorted(x: Country, t: seq<Country>)
    requires SortedByName(t)
    ensures SortedByName(Insert(x, t))
  {
    if t == [] {
    } else if LexLess(NameKey(t[0]), NameKey(x)) {
      assert t == [t[0]] + t[1..];
      SortedCons(t[0], t[1..]);
      InsertSorted(x, t[1..]);
      var rest := Insert(x, t[1..]);
      forall y | y in rest
        ensures LexLe(NameKey(t[0]), NameKey(y))
      {
        assert y in multiset(rest);
        if y == x {
          LexLessImpliesLe(NameKey(t[0]), NameKey(x));
        } else {
          assert y in t[1..];
        }
      }
      SortedCons(t[0], rest);
    } else {
      assert t == [t[0]] + t[1..];
      SortedCons(t[0], t[1..]);
      forall y | y in t
        ensures LexLe(NameKey(x), NameKey(y))
      {
        if y != t[0] {
          assert y in t[1..];
          LexLeTransitive(NameKey(x), NameKey(t[0]), NameKey(y));
        }
      }
      SortedCons(x, t);
    }
  }

  // ---------------------------------------------------------------------
  // Stability
  // ---------------------------------------------------------------------

  /** The records of `s` whose name key is `k`, in their order in `s`. */
  function WithName(s: seq<Country>, k: string): (r: seq<Country>)
    ensures forall y :: y in r <==> y in s && NameKey(y) == k
    ensures |r| <= |s|
  {
    if s == [] then []
    else (if NameKey(s[0]) == k then [s[0]] else []) + WithName(s[1..], k)
  }

  lemma WithNameCons(a: Country, s: seq<Country>, k: string)
    ensures WithName([a] + s, k) == (if NameKey(a) == k then [a] else []) + WithName(s, k)
  {
    assert ([a] + s)[1..] == s;
  }

  lemma {:induction false} InsertWithName(x: Country, t: seq<Country>, k: string)
    ensures WithName(Insert(x, t), k) == if NameKey(x) == k then [x] + WithName(t, k) else WithName(t, k)
  {
    if t == [] {
    } else if LexLess(NameKey(t[0]), NameKey(x)) {
      InsertWithName(x, t[1..], k);
      WithNameCons(t[0], Insert(x, t[1..]), k);
      if NameKey(x) == k {
        LexLessIrreflexive(k);
      }
    } else {
      WithNameCons(x, t, k);
    }
  }

  /** The sort is stable: records with equal names keep their input order. */
  lemma {:induction false} SortStable(s: seq<Country>, k: string)
    ensures WithName(SortByName(s), k) == WithName(s, k)
  {
    if s != [] {
      SortStable(s[1..], k);
      InsertWithName(s[0], SortByName(s[1..]), k);
    }
  }

  /** Sorting a sorted list changes nothing, so sorting twice is sorting once. */
  lemma {:induction false} SortOfSorted(s: seq<Country>)
    requires SortedByName(s)
    ensures SortByName(s) == s
  {
    if s != [] {
      assert s == [s[0]] + s[1..];
      SortedCons(s[0], s[1..]);
      SortOfSorted(s[1..]);
      if s[1..] != [] {
        assert s[1] in s[1..];
      }
    }
  }

  lemma SortIdempotent(s: seq<Country>)
    ensures SortByName(SortByName(s)) == SortByName(s)
  {
    SortOfSorted(SortByName(s));
  }

  /**
   * A sorted list is fixed by the order of each name's records: two sorted
   * lists that agree on `WithName` for every name are equal.
   */
  lemma {:induction false} StableSortUnique(r: seq<Country>, s: seq<Country>)
    requires SortedByName(r) && SortedByName(s)
    requires forall k :: WithName(r, k) == WithName(s, k)
    ensures r == s
  {
    if r != [] && s != [] {
      SameFirstKey(r, s);
      SameFirst(r, s);
      assert r == [r[0]] + r[1..] && s == [s[0]] + s[1..];
      SortedCons(r[0], r[1..]);
      SortedCons(s[0], s[1..]);
      StableSortUnique(r[1..], s[1..]);
    } else if r != [] {
      WithNameSplit(r, NameKey(r[0]));
    } else if s != [] {
      WithNameSplit(s, NameKey(s[0]));
    }
  }

  /** Two sorted lists with the same records per name start with the same name. */
  lemma SameFirstKey(r: seq<Country>, s: seq<Country>)
    requires SortedByName(r) && SortedByName(s) && r != [] && s != []
    requires forall k :: WithName(r, k) == WithName(s, k)
    ensures NameKey(r[0]) == NameKey(s[0])
  {
    var a, b := NameKey(r[0]), NameKey(s[0]);
    assert r[0] in WithName(r, a);
    assert r[0] in WithName(s, a);
    var i :| 0 <= i < |s| && s[i] == r[0];
    assert s[0] in WithName(s, b);
    assert s[0] in WithName(r, b);
    var j :| 0 <= j < |r| && r[j] == s[0];
    LexLessIrreflexive(a);
    LexLessIrreflexive(b);
    assert LexLe(NameKey(s[0]), NameKey(s[i]));
    assert LexLe(NameKey(r[0]), NameKey(r[j]));
    LexLeAntisymmetric(a, b);
  }

  /** ... and then with the same record, and their tails again agree name by name. */
  lemma SameFirst(r: seq<Country>, s: seq<Country>)
    requires r != [] && s != [] && NameKey(r[0]) == NameKey(s[0])
    requires forall k :: WithName(r, k) == WithName(s, k)
    ensures r[0] == s[0]
    ensures forall k :: WithName(r[1..], k) == WithName(s[1..], k)
  {
    var a := NameKey(r[0]);
    WithNameSplit(r, a);
    WithNameSplit(s, a);
    forall k
      ensures WithName(r[1..], k) == WithName(s[1..], k)
    {
      WithNameSplit(r, k);
      WithNameSplit(s, k);
    }
  }

  lemma WithNameSplit(s: seq<Country>, k: string)
    requires s != []
    ensures NameKey(s[0]) == k ==> WithName(s, k) != [] && WithName(s, k)[0] == s[0] && WithName(s, k)[1..] == WithName(s[1..], k)
    ensures NameKey(s[0]) != k ==> WithName(s, k) == WithName(s[1..], k)
  {
  }

  /**
   * `SortByName` is the one sorted, stable rearrangement of its input, so it
   * is what Python's `sorted` returns whatever algorithm performs it.
   */
  lemma SortIsStableSort(s: seq<Country>, r: seq<Country>)
    requires SortedByName(r)
    requires forall k :: WithName(r, k) == WithName(s, k)
    ensures r == SortByName(s)
  {
    forall k
      ensures WithName(r, k) == WithName(SortByName(s), k)
    {
      SortStable(s, k);
    }
    StableSortUnique(r, SortByName(s));
  }

  /** Records without a name sort first: nothing before an unnamed record has a name. */
  lemma MissingNamesFirst(r: seq<Country>, i: nat, j: nat)
    requires SortedByName(r)
    requires i < j < |r| && NameKey(r[j]) == ""
    ensures NameKey(r[i]) == ""
  {
    EmptyIsLeast(NameKey(r[i]));
  }
}
