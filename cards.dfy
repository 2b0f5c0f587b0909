/**
 * The fields of one country card, with the defaults the script applies
 * when a key is missing.
 */
module Cards {
  import opened Wrappers
  import opened Text
  import opened Countries
  import opened Population

  const Unknown := "Unknown"
  const ListSeparator := ", "

  // ---------------------------------------------------------------------
  // Capital, languages, currencies
  // ---------------------------------------------------------------------

  /** `country.get('capital', ['Unknown'])[0] if country.get('capital') else 'Unknown'`. */
  function CapitalOf(c: Country): (r: string)
    ensures c.capital.None? || c.capital.value == [] ==> r == Unknown
    ensures c.capital.Some? && c.capital.value != [] ==> r == c.capital.value[0]
  {
    match c.capital
    case Some(names) => if names != [] then names[0] else Unknown
    case None => Unknown
  }

  /** `', '.join(languages.values()) if country.get('languages') else 'Unknown'`. */
  function LanguagesOf(c: Country): (r: string)
    ensures c.languages.None? || c.languages.value == [] ==> r == Unknown
    ensures c.languages.Some? && c.languages.value != [] ==> r == Join(c.languages.value, ListSeparator)
    ensures c.languages.Some? ==> forall i :: 0 <= i < |c.languages.value| ==> Contains(r, c.languages.value[i])
  {
    match c.languages
    case Some(names) =>
      if names != [] then
        var r := Join(names, ListSeparator);
        assert forall i :: 0 <= i < |names| ==> Contains(r, names[i]) by {
          forall i | 0 <= i < |names| {
            JoinContainsEach(names, ListSeparator, i);
          }
        }
        r
      else Unknown
    case None => Unknown
  }

  /**
   * `f"{curr.get('name', 'Unknown')} ({curr.get('symbol', 'Unknown')})"`:
   * the name, then `" ("`, then the symbol, then `")"`.
   */
  function CurrencyLabel(cur: Currency): (r: string)
    ensures var n, m := cur.name.GetOr(Unknown), cur.symbol.GetOr(Unknown);
      |r| == |n| + |m| + 3 && r[..|n|] == n && r[|n|..|n| + 2] == " (" && r[|n| + 2..|r| - 1] == m && r[|r| - 1] == ')'
  {
    cur.name.GetOr(Unknown) + " (" + cur.symbol.GetOr(Unknown) + ")"
  }

  /** The index of the last `ch` in `s`. */
  function LastIndexOf(s: string, ch: char): (r: Option<nat>)
    ensures r.None? <==> ch !in s
    ensures r.Some? ==> r.value < |s| && s[r.value] == ch && forall j :: r.value < j < |s| ==> s[j] != ch
  {
    if s == [] then None
    else if s[|s| - 1] == ch then Some(|s| - 1)
    else
      var r := LastIndexOf(s[..|s| - 1], ch);
      assert s == s[..|s| - 1] + [s[|s| - 1]];
      r
  }

  /** Reads a label `"<name> (<symbol>)"` back, splitting at the last `(`. */
  function ParseCurrencyLabel(s: string): Option<(string, string)> {
    if |s| < 3 || s[|s| - 1] != ')' then None
    else
      match LastIndexOf(s[..|s| - 1], '(')
      case None => None
      case Some(i) =>
        if i >= 1 && s[i - 1] == ' ' then Some((s[..i - 1], s[i + 1..|s| - 1])) else None
  }

  /**
   * A currency label loses nothing: the name and symbol it shows (each
   * defaulted to "Unknown") can be read back, provided the symbol has no `(`.
   */
  lemma CurrencyLabelRoundTrip(cur: Currency)
    requires '(' !in cur.symbol.GetOr(Unknown)
    ensures ParseCurrencyLabel(CurrencyLabel(cur)) == Some((cur.name.GetOr(Unknown), cur.symbol.GetOr(Unknown)))
  {
    var n, m := cur.name.GetOr(Unknown), cur.symbol.GetOr(Unknown);
    var s := CurrencyLabel(cur);
    assert s == n + " (" + m + ")";
    var body := s[..|s| - 1];
    assert body == n + " (" + m;
    var p := |n| + 1;
    assert body[p] == '(';
    var r := LastIndexOf(body, '(');
    assert r.Some?;
    assert r.value == p;
    assert s[p - 1] == ' ';
    assert s[..p - 1] == n;
    assert s[p + 1..|s| - 1] == m;
  }

  function CurrencyLabels(currencies: seq<Currency>): (r: seq<string>)
    ensures |r| == |currencies|
    ensures forall i :: 0 <= i < |r| ==> r[i] == CurrencyLabel(currencies[i])
  {
    seq(|currencies|, i requires 0 <= i < |currencies| => CurrencyLabel(currencies[i]))
  }

  /** The labels of all currencies joined with `", "`, or "Unknown" when there are none. */
  function CurrenciesOf(c: Country): (r: string)
    ensures c.currencies.None? || c.currencies.value == [] ==> r == Unknown
    ensures c.currencies.Some? && c.currencies.value != [] ==> r == Join(CurrencyLabels(c.currencies.value), ListSeparator)
    ensures c.currencies.Some? ==> forall i :: 0 <= i < |c.currencies.value| ==> Contains(r, CurrencyLabel(c.currencies.value[i]))
  {
    match c.currencies
    case Some(currencies) =>
      if currencies != [] then
        var labels := CurrencyLabels(currencies);
        var r := Join(labels, ListSeparator);
        assert forall i :: 0 <= i < |currencies| ==> Contains(r, CurrencyLabel(currencies[i])) by {
          forall i | 0 <= i < |currencies| {
            JoinContainsEach(labels, ListSeparator, i);
          }
        }
        r
      else Unknown
    case None => Unknown
  }

  // ---------------------------------------------------------------------
  // Map link and flag
  // ---------------------------------------------------------------------

  /** `if 'maps' in country and 'googleMaps' in country['maps']`: the link, when both keys exist. */
  function MapLink(c: Country): (r: Option<string>)
    ensures r.Some? <==> c.maps.Some? && c.maps.value.googleMaps.Some?
    ensures r.Some? ==> r.value == c.maps.value.googleMaps.value
  {
    match c.maps
    case Some(m) => m.googleMaps
    case None => None
  }

  /**
   * `country.get('flags', {}).get('png', '')` and `if flag_url:`: the URL to
   * fetch, present only when it is a non-empty string.
   */
  function FlagRequest(c: Country): (r: Option<string>)
    ensures r.Some? <==> c.flags.Some? && c.flags.value.png.Some? && c.flags.value.png.value != ""
    ensures r.Some? ==> r.value == c.flags.value.png.value
  {
    var url := match c.flags case Some(f) => f.png.GetOr("") case None => "";
    if url != "" then Some(url) else None
  }

  /** What the card shows in place of the flag. */
  datatype FlagView = FlagImage(url: string) | FlagNotAvailable | NoFlag

  /**
   * `loaded` says whether the download, the image decoding and the display
   * succeeded (all outside the model); `false` stands for one of the three
   * exceptions the card catches (a request error, an unidentified image or
   * an I/O error), which shows "Flag not available" on this card only.
   */
  function ShowFlag(request: Option<string>, loaded: bool): (v: FlagView)
    ensures v.NoFlag? <==> request.None?
    ensures v.FlagImage? <==> request.Some? && loaded
    ensures v.FlagImage? ==> v.url == request.value
  {
    match request
    case None => NoFlag
    case Some(url) => if loaded then FlagImage(url) else FlagNotAvailable
  }

  // ---------------------------------------------------------------------
  // The card
  // ---------------------------------------------------------------------

  datatype Card = Card(
    name: string,
    flag: Option<string>,
    capital: string,
    region: string,
    subregion: string,
    population: PopulationText,
    languages: string,
    currencies: string,
    mapLink: Option<string>)

  /** Everything one card displays, derived from one record. */
  function CardOf(c: Country): (card: Card)
    ensures card.name == CommonName(c, Unknown)
    ensures card.region == c.region.GetOr(Unknown) && card.subregion == c.subregion.GetOr(Unknown)
    ensures card.population == FormatPopulation(PopulationOf(c))
    ensures card.capital == CapitalOf(c) && card.languages == LanguagesOf(c) && card.currencies == CurrenciesOf(c)
    ensures card.flag == FlagRequest(c) && card.mapLink == MapLink(c)
  {
    Card(
      CommonName(c, Unknown),
      FlagRequest(c),
      CapitalOf(c),
      c.region.GetOr(Unknown),
      c.subregion.GetOr(Unknown),
      FormatPopulation(PopulationOf(c)),
      LanguagesOf(c),
      CurrenciesOf(c),
      MapLink(c))
  }

  /**
   * A record with every key missing still yields a card: every text field
   * reads "Unknown", the population reads "0", and there is no flag and no
   * map link.
   */
  lemma BareCard()
    ensures CardOf(Bare) == Card(Unknown, None, Unknown, Unknown, Unknown, Exact("0"), Unknown, Unknown, None)
  {
    NatToStringExamples();
  }

  /** An absent key and an empty list give the same "Unknown" default. */
  lemma EmptyListsDefault(c: Country)
    requires c.capital == Some([]) && c.languages == Some([]) && c.currencies == Some([])
    ensures CapitalOf(c) == Unknown && LanguagesOf(c) == Unknown && CurrenciesOf(c) == Unknown
  {
  }

  /** A `maps` object without `googleMaps` shows no link, like a missing `maps`. */
  lemma MapLinkNeedsBothKeys(c: Country)
    requires c.maps == Some(MapsField(None))
    ensures MapLink(c).None?
  {
  }

  /** The card's name is the search name, except that a missing name reads "Unknown" instead of `''`. */
  lemma CardNameVersusSortKey(c: Country)
    ensures CardOf(c).name == (if c.name.Some? && c.name.value.common.Some? then NameKey(c) else Unknown)
  {
  }
}
