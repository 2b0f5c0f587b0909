/**
 * The filter pipeline: the name search, the region select box and the
 * population-range select box, each rebinding `filtered_countries` to a
 * list comprehension over the previous list, then the sort by name.
 */
module Filters {
  import opened Wrappers
  import opened Text
  import opened Countries
  import opened Population
  import opened Sorting
  import opened Regions

  // ---------------------------------------------------------------------
  // Subsequences
  // ---------------------------------------------------------------------

  /** `a` is `b` with some elements dropped, the rest in their order. */
  ghost predicate IsSubsequence(a: seq<Country>, b: seq<Country>)
    decreases |b|
  {
    if a == [] then true
    else if b == [] then false
    else (a[0] == b[0] && IsSubsequence(a[1..], b[1..])) || IsSubsequence(a, b[1..])
  }

  lemma {:induction false} SubsequenceReflexive(a: seq<Country>)
    ensures IsSubsequence(a, a)
  {
    if a != [] {
      SubsequenceReflexive(a[1..]);
    }
  }

  lemma {:induction false} SubsequenceTransitive(a: seq<Country>, b: seq<Country>, c: seq<Country>)
    requires IsSubsequence(a, b) && IsSubsequence(b, c)
    ensures IsSubsequence(a, c)
    decreases |c|
  {
    if a != [] {
      assert b != [] && c != [];
      if b[0] == c[0] && IsSubsequence(b[1..], c[1..]) {
        if a[0] == b[0] && IsSubsequence(a[1..], b[1..]) {
          SubsequenceTransitive(a[1..], b[1..], c[1..]);
        } else {
          SubsequenceTransitive(a, b[1..], c[1..]);
        }
      } else {
        SubsequenceTransitive(a, b, c[1..]);
      }
    }
  }

  /** A subsequence is no longer than the list it comes from, and holds only its elements. */
  lemma {:induction false} SubsequenceBounds(a: seq<Country>, b: seq<Country>)
    requires IsSubsequence(a, b)
    ensures |a| <= |b|
    ensures forall x :: x in a ==> x in b
    decreases |b|
  {
    if a != [] {
      if a[0] == b[0] && IsSubsequence(a[1..], b[1..]) {
        SubsequenceBounds(a[1..], b[1..]);
        assert a == [a[0]] + a[1..] && b == [b[0]] + b[1..];
      } else {
        SubsequenceBounds(a, b[1..]);
        assert b == [b[0]] + b[1..];
      }
    }
  }

  // ---------------------------------------------------------------------
  // One comprehension
  // ---------------------------------------------------------------------

  /** The condition of one list comprehension. */
  datatype Criterion =
    | NameContains(query: string)
    | RegionIs(region: string)
    | PopulationIn(bucket: Bucket)

  /**
   * The test of one comprehension: a substring match on the lowered name, an
   * exact region match (a missing region never matches), or the range class
   * of the population (0 when missing).
   */
  function Holds(crit: Criterion, c: Country): (r: bool)
    ensures crit.NameContains? ==> (r <==> exists i :: OccursAt(Lower(crit.query), Lower(NameKey(c)), i))
    ensures crit.RegionIs? ==> (r <==> c.region.Some? && c.region.value == crit.region)
    ensures crit.PopulationIn? ==> (r <==> crit.bucket == BucketOf(PopulationOf(c)))
  {
    match crit
    // search_term.lower() in country.get('name', {}).get('common', '').lower()
    case NameContains(q) => Contains(Lower(NameKey(c)), Lower(q))
    // country.get('region') == selected_region
    case RegionIs(r) => c.region == Some(r)
    // the range test on country.get('population', 0)
    case PopulationIn(b) => InBucket(b, PopulationOf(c))
  }

  /**
   * `[c for c in cs if crit]`: an order-preserving subsequence that keeps
   * every copy of a satisfying record and nothing else.
   */
  function Filter(cs: seq<Country>, crit: Criterion): (r: seq<Country>)
    ensures IsSubsequence(r, cs)
    ensures forall c :: multiset(r)[c] == if Holds(crit, c) then multiset(cs)[c] else 0
    ensures forall c :: c in r <==> c in cs && Holds(crit, c)
  {
    if cs == [] then []
    else
      var rest := Filter(cs[1..], crit);
      assert cs == [cs[0]] + cs[1..];
      if Holds(crit, cs[0]) then [cs[0]] + rest else rest
  }

  lemma FilterCons(x: Country, t: seq<Country>, crit: Criterion)
    ensures Filter([x] + t, crit) == (if Holds(crit, x) then [x] else []) + Filter(t, crit)
  {
    assert ([x] + t)[1..] == t;
  }

  /** A comprehension whose condition holds everywhere returns its input. */
  lemma {:induction false} FilterKeepsAll(cs: seq<Country>, crit: Criterion)
    requires forall c :: c in cs ==> Holds(crit, c)
    ensures Filter(cs, crit) == cs
  {
    if cs != [] {
      assert cs == [cs[0]] + cs[1..];
      assert Holds(crit, cs[0]);
      FilterKeepsAll(cs[1..], crit);
      FilterCons(cs[0], cs[1..], crit);
    }
  }

  /** Applying the same comprehension twice is applying it once. */
  lemma FilterIdempotent(cs: seq<Country>, crit: Criterion)
    ensures Filter(Filter(cs, crit), crit) == Filter(cs, crit)
  {
    FilterKeepsAll(Filter(cs, crit), crit);
  }

  // ---------------------------------------------------------------------
  // The three stages
  // ---------------------------------------------------------------------

  /** `if search_term:` filter by name; an empty search keeps every record. */
  function NameStage(cs: seq<Country>, query: string): (r: seq<Country>)
    ensures IsSubsequence(r, cs)
    ensures forall c :: multiset(r)[c] == if KeepsName(query, c) then multiset(cs)[c] else 0
  {
    if query != "" then Filter(cs, NameContains(query))
    else SubsequenceReflexive(cs); cs
  }

  predicate KeepsName(query: string, c: Country) {
    query == "" || Holds(NameContains(query), c)
  }

  /** `if selected_region != "All":` keep the records of that region. */
  function RegionStage(cs: seq<Country>, region: string): (r: seq<Country>)
    ensures IsSubsequence(r, cs)
    ensures forall c :: multiset(r)[c] == if KeepsRegion(region, c) then multiset(cs)[c] else 0
  {
    if region != AllRegions then Filter(cs, RegionIs(region))
    else SubsequenceReflexive(cs); cs
  }

  predicate KeepsRegion(region: string, c: Country) {
    region == AllRegions || Holds(RegionIs(region), c)
  }

  /**
   * `if selected_pop_range != "All":` and the `elif` chain on the label;
   * a label the chain does not name filters nothing.
   */
  function PopulationStage(cs: seq<Country>, popRange: string): (r: seq<Country>)
    ensures IsSubsequence(r, cs)
    ensures forall c :: multiset(r)[c] == if KeepsPopulation(popRange, c) then multiset(cs)[c] else 0
  {
    match LabelBucket(popRange)
    case Some(b) => Filter(cs, PopulationIn(b))
    case None => SubsequenceReflexive(cs); cs
  }

  predicate KeepsPopulation(popRange: string, c: Country) {
    match LabelBucket(popRange)
    case Some(b) => Holds(PopulationIn(b), c)
    case None => true
  }

  /** A record passes the sidebar's filters: the conjunction of the three conditions. */
  predicate Selected(c: Country, query: string, region: string, popRange: string) {
    KeepsName(query, c) && KeepsRegion(region, c) && KeepsPopulation(popRange, c)
  }

  /** The stages as they run in the script: name, then region, then population. */
  function Filtered(cs: seq<Country>, query: string, region: string, popRange: string): (r: seq<Country>)
    ensures IsSubsequence(r, cs)
    ensures |r| <= |cs|
    ensures forall c :: multiset(r)[c] == if Selected(c, query, region, popRange) then multiset(cs)[c] else 0
  {
    var byName := NameStage(cs, query);
    var byRegion := RegionStage(byName, region);
    var r := PopulationStage(byRegion, popRange);
    SubsequenceTransitive(byRegion, byName, cs);
    SubsequenceTransitive(r, byRegion, cs);
    SubsequenceBounds(r, cs);
    r
  }

  /** The list the cards are drawn from: the filtered records sorted by name. */
  function Pipeline(cs: seq<Country>, query: string, region: string, popRange: string): (r: seq<Country>)
    ensures SortedByName(r)
    ensures |r| <= |cs|
    ensures forall c :: multiset(r)[c] == if Selected(c, query, region, popRange) then multiset(cs)[c] else 0
    ensures forall c :: c in r <==> c in cs && Selected(c, query, region, popRange)
  {
    SortByName(Filtered(cs, query, region, popRange))
  }

  // ---------------------------------------------------------------------
  // Order of the stages
  // ---------------------------------------------------------------------

  /** One of the three stages with its sidebar value. */
  datatype Stage = ByName(query: string) | ByRegion(region: string) | ByPopulation(popRange: string)

  function ApplyStage(cs: seq<Country>, st: Stage): seq<Country> {
    match st
    case ByName(q) => NameStage(cs, q)
    case ByRegion(reg) => RegionStage(cs, reg)
    case ByPopulation(p) => PopulationStage(cs, p)
  }

  predicate StageKeeps(st: Stage, c: Country) {
    match st
    case ByName(q) => KeepsName(q, c)
    case ByRegion(reg) => KeepsRegion(reg, c)
    case ByPopulation(p) => KeepsPopulation(p, c)
  }

  lemma StageCons(x: Country, t: seq<Country>, st: Stage)
    ensures ApplyStage([x] + t, st) == (if StageKeeps(st, x) then [x] else []) + ApplyStage(t, st)
  {
    match st
    case ByName(q) =>
      if q != "" {
        FilterCons(x, t, NameContains(q));
      }
    case ByRegion(reg) =>
      if reg != AllRegions {
        FilterCons(x, t, RegionIs(reg));
      }
    case ByPopulation(p) =>
      if LabelBucket(p).Some? {
        FilterCons(x, t, PopulationIn(LabelBucket(p).value));
      }
  }

  /** Two stages applied in either order give the same list. */
  lemma {:induction false} StagesCommute(cs: seq<Country>, s1: Stage, s2: Stage)
    ensures ApplyStage(ApplyStage(cs, s1), s2) == ApplyStage(ApplyStage(cs, s2), s1)
  {
    if cs != [] {
      var x, t := cs[0], cs[1..];
      assert cs == [x] + t;
      StagesCommute(t, s1, s2);
      StageCons(x, t, s1);
      StageCons(x, t, s2);
      StageCons(x, ApplyStage(t, s1), s2);
      StageCons(x, ApplyStage(t, s2), s1);
    }
  }

  /** `[c for c in cs if Selected(c)]`: one comprehension with the conjunction. */
  function SelectAll(cs: seq<Country>, query: string, region: string, popRange: string): seq<Country> {
    if cs == [] then []
    else (if Selected(cs[0], query, region, popRange) then [cs[0]] else []) + SelectAll(cs[1..], query, region, popRange)
  }

  /**
   * The three successive comprehensions are one comprehension over the
   * conjunction of their conditions, in every order of the stages.
   */
  lemma {:induction false} FilteredIsConjunction(cs: seq<Country>, query: string, region: string, popRange: string)
    ensures Filtered(cs, query, region, popRange) == SelectAll(cs, query, region, popRange)
    ensures ApplyStage(ApplyStage(ApplyStage(cs, ByName(query)), ByRegion(region)), ByPopulation(popRange))
         == SelectAll(cs, query, region, popRange)
  {
    if cs != [] {
      var x, t := cs[0], cs[1..];
      assert cs == [x] + t;
      FilteredIsConjunction(t, query, region, popRange);
      var n, r, p := ByName(query), ByRegion(region), ByPopulation(popRange);
      StageCons(x, t, n);
      StageCons(x, ApplyStage(t, n), r);
      StageCons(x, ApplyStage(ApplyStage(t, n), r), p);
    }
  }

  /** Every order of the three stages yields the script's list. */
  lemma FiltersAnyOrder(cs: seq<Country>, query: string, region: string, popRange: string)
    ensures var n, r, p := ByName(query), ByRegion(region), ByPopulation(popRange);
      var f := Filtered(cs, query, region, popRange);
      && ApplyStage(ApplyStage(ApplyStage(cs, n), p), r) == f
      && ApplyStage(ApplyStage(ApplyStage(cs, r), n), p) == f
      && ApplyStage(ApplyStage(ApplyStage(cs, r), p), n) == f
      && ApplyStage(ApplyStage(ApplyStage(cs, p), n), r) == f
      && ApplyStage(ApplyStage(ApplyStage(cs, p), r), n) == f
  {
    var n, r, p := ByName(query), ByRegion(region), ByPopulation(popRange);
    // name, region, population is the script's order
    StagesCommute(ApplyStage(cs, n), r, p);  // n p r
    StagesCommute(cs, n, r);                 // r n p
    StagesCommute(ApplyStage(cs, r), n, p);  // r p n
    StagesCommute(cs, n, p);                 // p n r
    StagesCommute(ApplyStage(cs, p), n, r);  // p r n
  }

  // ---------------------------------------------------------------------
  // Re-running the pipeline
  // ---------------------------------------------------------------------

  /** Filtering a list all of whose records pass changes nothing. */
  lemma {:induction false} FilteredKeepsSelected(cs: seq<Country>, query: string, region: string, popRange: string)
    requires forall c :: c in cs ==> Selected(c, query, region, popRange)
    ensures Filtered(cs, query, region, popRange) == cs
  {
    FilteredIsConjunction(cs, query, region, popRange);
    SelectAllKeepsAll(cs, query, region, popRange);
  }

  lemma {:induction false} SelectAllKeepsAll(cs: seq<Country>, query: string, region: string, popRange: string)
    requires forall c :: c in cs ==> Selected(c, query, region, popRange)
    ensures SelectAll(cs, query, region, popRange) == cs
  {
    if cs != [] {
      SelectAllKeepsAll(cs[1..], query, region, popRange);
      assert cs == [cs[0]] + cs[1..];
    }
  }

  /** Applying the same filters and sort to the displayed list gives the displayed list again. */
  lemma PipelineIdempotent(cs: seq<Country>, query: string, region: string, popRange: string)
    ensures Pipeline(Pipeline(cs, query, region, popRange), query, region, popRange)
         == Pipeline(cs, query, region, popRange)
  {
    var shown := Pipeline(cs, query, region, popRange);
    FilteredKeepsSelected(shown, query, region, popRange);
    SortOfSorted(shown);
  }

  /** The displayed list keeps the filtered order among records of equal name. */
  lemma PipelineStable(cs: seq<Country>, query: string, region: string, popRange: string, k: string)
    ensures WithName(Pipeline(cs, query, region, popRange), k) == WithName(Filtered(cs, query, region, popRange), k)
  {
    SortStable(Filtered(cs, query, region, popRange), k);
  }

  // ---------------------------------------------------------------------
  // The individual conditions
  // ---------------------------------------------------------------------

  /** The search ignores ASCII case in the query and in the name. */
  lemma SearchIgnoresCase(query: string, c: Country)
    ensures Holds(NameContains(query), c) == Holds(NameContains(Lower(query)), c)
  {
    LowerIdempotent(query);
  }

  /** A record without a common name (searched as `''`) matches only the empty query. */
  lemma MissingNameMatchesOnlyEmpty(query: string, c: Country)
    requires NameKey(c) == ""
    ensures KeepsName(query, c) <==> query == ""
  {
    if Holds(NameContains(query), c) {
      var i :| OccursAt(Lower(query), Lower(""), i);
    }
  }

  /** A record without a region is dropped by every region other than "All". */
  lemma MissingRegionDropped(region: string, c: Country)
    requires c.region.None?
    ensures KeepsRegion(region, c) <==> region == AllRegions
  {
  }

  /** A record without a population is counted as 0, which is "Less than 1 million". */
  lemma MissingPopulationIsSmall(popRange: string, c: Country)
    requires c.population.None?
    ensures KeepsPopulation(popRange, c) <==> LabelBucket(popRange) !in {Some(OneToTenMillion), Some(TenToHundredMillion), Some(OverHundredMillion)}
  {
  }

  /**
   * The four population ranges split any list: each record lands in exactly
   * one of the four filtered lists.
   */
  lemma RangesSplitList(cs: seq<Country>)
    ensures multiset(PopulationStage(cs, BucketLabel(UnderOneMillion)))
          + multiset(PopulationStage(cs, BucketLabel(OneToTenMillion)))
          + multiset(PopulationStage(cs, BucketLabel(TenToHundredMillion)))
          + multiset(PopulationStage(cs, BucketLabel(OverHundredMillion)))
         == multiset(cs)
  {
    var b1, b2, b3, b4 := UnderOneMillion, OneToTenMillion, TenToHundredMillion, OverHundredMillion;
    StageOfRange(cs, b1);
    StageOfRange(cs, b2);
    StageOfRange(cs, b3);
    StageOfRange(cs, b4);
    forall c
      ensures (multiset(Filter(cs, PopulationIn(b1))) + multiset(Filter(cs, PopulationIn(b2)))
             + multiset(Filter(cs, PopulationIn(b3))) + multiset(Filter(cs, PopulationIn(b4))))[c]
           == multiset(cs)[c]
    {
      RangesSplitRecord(cs, c);
    }
  }

  lemma StageOfRange(cs: seq<Country>, b: Bucket)
    ensures PopulationStage(cs, BucketLabel(b)) == Filter(cs, PopulationIn(b))
  {
    LabelRoundTrip(b);
  }

  lemma RangesSplitRecord(cs: seq<Country>, c: Country)
    ensures multiset(Filter(cs, PopulationIn(UnderOneMillion)))[c]
          + multiset(Filter(cs, PopulationIn(OneToTenMillion)))[c]
          + multiset(Filter(cs, PopulationIn(TenToHundredMillion)))[c]
          + multiset(Filter(cs, PopulationIn(OverHundredMillion)))[c]
         == multiset(cs)[c]
  {
  }

  /** Chad (Africa) and Chile (Americas): the "Africa" region keeps only Chad. */
  lemma RegionExample()
    ensures var chad := Bare.(name := Some(NameField(Some("Chad"))), population := Some(17_000_000), region := Some("Africa"));
      var chile := Bare.(name := Some(NameField(Some("Chile"))), population := Some(19_000_000), region := Some("Americas"));
      Pipeline([chad, chile], "", "Africa", AllRanges) == [chad]
  {
    var chad := Bare.(name := Some(NameField(Some("Chad"))), population := Some(17_000_000), region := Some("Africa"));
    var chile := Bare.(name := Some(NameField(Some("Chile"))), population := Some(19_000_000), region := Some("Americas"));
    assert [chad, chile] == [chad] + [chile];
    FilterCons(chad, [chile], RegionIs("Africa"));
    FilterCons(chile, [], RegionIs("Africa"));
  }
}
