/**
 * A country record as the REST Countries API returns it, restricted to the
 * fields the application asks for. Every key may be missing from the JSON
 * object, so every field is an `Option`; nested objects (`name`, `flags`,
 * `maps`) are optional too, and so are the keys inside them.
 */
module Countries {
  import opened Wrappers

  /** The `name` object; only `common` is read. */
  datatype NameField = NameField(common: Option<string>)

  /** The `flags` object; only `png` is read. */
  datatype FlagsField = FlagsField(png: Option<string>)

  /** The `maps` object; only `googleMaps` is read. */
  datatype MapsField = MapsField(googleMaps: Option<string>)

  /** One value of the `currencies` mapping. */
  datatype Currency = Currency(name: Option<string>, symbol: Option<string>)

  /**
   * `languages` and `currencies` are JSON objects keyed by code; only their
   * values are used, in the object's own order, so they are kept as
   * sequences of values.
   */
  datatype Country = Country(
    name: Option<NameField>,
    capital: Option<seq<string>>,
    region: Option<string>,
    subregion: Option<string>,
    population: Option<nat>,
    languages: Option<seq<string>>,
    currencies: Option<seq<Currency>>,
    flags: Option<FlagsField>,
    maps: Option<MapsField>)

  /** A record with every key missing. */
  const Bare: Country := Country(None, None, None, None, None, None, None, None, None)

  /** `country.get('name', {}).get('common', default)`. */
  function CommonName(c: Country, default: string): (r: string)
    ensures c.name.Some? && c.name.value.common.Some? ==> r == c.name.value.common.value
    ensures c.name.None? || c.name.value.common.None? ==> r == default
  {
    match c.name
    case None => default
    case Some(n) => n.common.GetOr(default)
  }

  /** The name used for searching and sorting: a missing name is `''`. */
  function NameKey(c: Country): (r: string)
    ensures c.name.Some? && c.name.value.common.Some? ==> r == c.name.value.common.value
    ensures c.name.None? || c.name.value.common.None? ==> r == ""
  {
    CommonName(c, "")
  }

  /** `country.get('population', 0)`. */
  function PopulationOf(c: Country): (r: nat)
    ensures c.population.Some? ==> r == c.population.value
    ensures c.population.None? ==> r == 0
  {
    c.population.GetOr(0)
  }
}
