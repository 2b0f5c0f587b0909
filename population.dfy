/**
 * Population: the magnitude chosen by `format_population`, and the four
 * population ranges the sidebar offers for filtering.
 */
module Population {
  import opened Wrappers
  import opened Text

  // ---------------------------------------------------------------------
  // format_population
  // ---------------------------------------------------------------------

  datatype Unit = Thousand | Million | Billion

  function Divisor(u: Unit): nat {
    match u
    case Thousand => 1_000
    case Million => 1_000_000
    case Billion => 1_000_000_000
  }

  function UnitWord(u: Unit): string {
    match u
    case Thousand => "thousand"
    case Million => "million"
    case Billion => "billion"
  }

  /**
   * What `format_population` prints: either `population / Divisor(unit)`
   * written with two decimals and followed by the unit's word, or the exact
   * integer. The two-decimal digits come from float division and are not
   * part of this model; `Render` takes them as a parameter.
   */
  datatype PopulationText =
    | Scaled(population: nat, unit: Unit)
    | Exact(digits: string)

  /**
   * The branch `format_population` takes. The unit is the largest one not
   * above the population, so the scaled value is at least 1 and, below a
   * billion, less than 1000; below 1000 the number is printed exactly.
   * These bounds are about `n / d` itself: the printed two decimals round,
   * so 999,999 prints as "1000.00 thousand" and 999,999,999 as
   * "1000.00 million".
   */
  function FormatPopulation(n: nat): (r: PopulationText)
    ensures r.Exact? <==> n < 1_000
    ensures r.Exact? ==> IsDecimal(r.digits) && ParseDecimal(r.digits) == n
    ensures r.Scaled? ==> r.population == n && Divisor(r.unit) <= n
    ensures r.Scaled? && r.unit != Billion ==> n < 1_000 * Divisor(r.unit)
  {
    if n >= 1_000_000_000 then Scaled(n, Billion)
    else if n >= 1_000_000 then Scaled(n, Million)
    else if n >= 1_000 then Scaled(n, Thousand)
    else Exact(NatToString(n))
  }

  /**
   * The printed text. `fixed2(n, d)` stands for the float formatting
   * `f"{n / d:.2f}"`, which is not modelled.
   */
  function Render(t: PopulationText, fixed2: (nat, nat) -> string): (r: string)
    ensures t.Exact? ==> r == t.digits
    ensures t.Scaled? ==> |r| > |UnitWord(t.unit)| && r[|r| - |UnitWord(t.unit)| - 1..] == " " + UnitWord(t.unit)
  {
    match t
    case Exact(digits) => digits
    case Scaled(n, u) => fixed2(n, Divisor(u)) + " " + UnitWord(u)
  }

  /** 0 for the exact branch, then thousand, million, billion. */
  function Rank(t: PopulationText): nat {
    match t
    case Exact(_) => 0
    case Scaled(_, Thousand) => 1
    case Scaled(_, Million) => 2
    case Scaled(_, Billion) => 3
  }

  /** A larger population never gets a smaller unit. */
  lemma FormatMonotonic(n: nat, m: nat)
    requires n <= m
    ensures Rank(FormatPopulation(n)) <= Rank(FormatPopulation(m))
  {
  }

  /** The boundary values belong to the larger unit; below 1000 the integer is printed as is. */
  lemma FormatBoundaries()
    ensures FormatPopulation(999) == Exact("999")
    ensures FormatPopulation(500) == Exact("500")
    ensures FormatPopulation(1_000) == Scaled(1_000, Thousand)
    ensures FormatPopulation(999_999) == Scaled(999_999, Thousand)
    ensures FormatPopulation(1_000_000) == Scaled(1_000_000, Million)
    ensures FormatPopulation(2_500_000) == Scaled(2_500_000, Million)
    ensures FormatPopulation(1_000_000_000) == Scaled(1_000_000_000, Billion)
    ensures FormatPopulation(3_200_000_000) == Scaled(3_200_000_000, Billion)
  {
    NatToStringExamples();
    assert NatToString(999) == "999";
  }

  // ---------------------------------------------------------------------
  // Population ranges of the sidebar
  // ---------------------------------------------------------------------

  datatype Bucket = UnderOneMillion | OneToTenMillion | TenToHundredMillion | OverHundredMillion

  /**
   * The test each population range applies to `country.get('population', 0)`.
   * A population passes a range's test exactly when that range is its
   * threshold class.
   */
  function InBucket(b: Bucket, n: nat): (r: bool)
    ensures r <==> b == BucketOf(n)
  {
    match b
    case UnderOneMillion => n < 1_000_000
    case OneToTenMillion => 1_000_000 <= n < 10_000_000
    case TenToHundredMillion => 10_000_000 <= n < 100_000_000
    case OverHundredMillion => n >= 100_000_000
  }

  /** An independent classification by thresholds, to compare the range tests against. */
  function BucketOf(n: nat): Bucket {
    if n < 1_000_000 then UnderOneMillion
    else if n < 10_000_000 then OneToTenMillion
    else if n < 100_000_000 then TenToHundredMillion
    else OverHundredMillion
  }

  /** The four ranges partition the naturals: every population passes exactly one test. */
  lemma BucketsPartition(n: nat)
    ensures exists b :: InBucket(b, n)
    ensures forall b1, b2 :: InBucket(b1, n) && InBucket(b2, n) ==> b1 == b2
  {
    assert InBucket(BucketOf(n), n);
  }

  /** A boundary value belongs to the higher range; a missing population (0) to the lowest. */
  lemma BucketBoundaries()
    ensures BucketOf(0) == UnderOneMillion
    ensures BucketOf(999_999) == UnderOneMillion
    ensures BucketOf(1_000_000) == OneToTenMillion
    ensures BucketOf(10_000_000) == TenToHundredMillion
    ensures BucketOf(100_000_000) == OverHundredMillion
  {
  }

  const AllRanges := "All"

  /** The label of a range: one of the four options after "All". */
  function BucketLabel(b: Bucket): (r: string)
    ensures r != AllRanges && r in PopulationRanges[1..]
  {
    match b
    case UnderOneMillion => "Less than 1 million"
    case OneToTenMillion => "1-10 million"
    case TenToHundredMillion => "10-100 million"
    case OverHundredMillion => "More than 100 million"
  }

  /** The options of the "Population Range" select box, in display order. */
  const PopulationRanges: seq<string> := [
    AllRanges,
    "Less than 1 million",
    "1-10 million",
    "10-100 million",
    "More than 100 million"
  ]

  /**
   * The `if`/`elif` chain on the selected label: the range it selects, or
   * `None` for "All" and for any label the chain does not name (no filter).
   */
  function LabelBucket(selected: string): (r: Option<Bucket>)
    ensures r.Some? ==> BucketLabel(r.value) == selected
    ensures selected == AllRanges ==> r.None?
  {
    if selected == AllRanges then None
    else if selected == "Less than 1 million" then Some(UnderOneMillion)
    else if selected == "1-10 million" then Some(OneToTenMillion)
    else if selected == "10-100 million" then Some(TenToHundredMillion)
    else if selected == "More than 100 million" then Some(OverHundredMillion)
    else None
  }

  /** Every range's label reads back as that range, so the five options are distinct. */
  lemma LabelRoundTrip(b: Bucket)
    ensures LabelBucket(BucketLabel(b)) == Some(b)
    ensures BucketLabel(b) != AllRanges
  {
  }

  /** The first option disables the filter and each other option selects its own range. */
  lemma RangeOptions()
    ensures |PopulationRanges| == 5
    ensures LabelBucket(PopulationRanges[0]).None?
    ensures forall i :: 1 <= i < 5 ==> LabelBucket(PopulationRanges[i]).Some?
    ensures forall i, j :: 1 <= i < j < 5 ==> LabelBucket(PopulationRanges[i]) != LabelBucket(PopulationRanges[j])
  {
  }
}
