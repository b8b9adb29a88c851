/**
 * The storefront header's country picker options: every country of every
 * region becomes one option `{country: iso_2, region: region.id, label:
 * display_name}`, and the options are sorted by label, a missing label
 * comparing as the empty string.
 */
module Header {
  import opened Wrappers
  import StableSort

  /** A country of a store region; both fields are optional in the store API. */
  datatype Country = Country(iso2: Option<string>, displayName: Option<string>)

  /** A store region; `countries` may be missing. */
  datatype Region = Region(id: string, countries: Option<seq<Country>>)

  /** One entry of the region switcher. */
  datatype CountryOption = CountryOption(country: Option<string>, region: string, labelText: Option<string>)

  /** The entry for country `c` of region `r`. */
  function OptionFor(r: Region, c: Country): CountryOption {
    CountryOption(c.iso2, r.id, c.displayName)
  }

  /** The number of countries across all regions, a missing list counting as none. */
  function TotalCountries(regions: seq<Region>): nat {
    if regions == [] then 0 else |regions[0].countries.GetOr([])| + TotalCountries(regions[1..])
  }

  /** `(r.countries ?? []).map(...)`: one entry per country of `r`, in order. */
  function RegionOptions(r: Region): (os: seq<CountryOption>)
    ensures |os| == |r.countries.GetOr([])|
    ensures r.countries.Some? ==>
      forall j :: 0 <= j < |os| ==> os[j] == OptionFor(r, r.countries.value[j])
  {
    match r.countries
    case None => []
    case Some(cs) => seq(|cs|, j requires 0 <= j < |cs| => OptionFor(r, cs[j]))
  }

  /** `regions.map(...).flat()`: the regions' entries, region after region. */
  function Flatten(regions: seq<Region>): (os: seq<CountryOption>)
    ensures |os| == TotalCountries(regions)
  {
    if regions == [] then [] else RegionOptions(regions[0]) + Flatten(regions[1..])
  }

  /** The key the header sorts by: `label ?? ""` (the field is `labelText` here, `label` being a Dafny keyword). */
  function SortLabel(o: CountryOption): string {
    o.labelText.GetOr("")
  }

  /** `countryOptions`: the flattened entries, sorted by label with `le` as `localeCompare`. */
  function CountryOptions(regions: seq<Region>, le: (string, string) -> bool): (os: seq<CountryOption>)
    ensures multiset(os) == multiset(Flatten(regions))
    ensures |os| == TotalCountries(regions)
  {
    StableSort.Sort(Flatten(regions), SortLabel, le)
  }

  /** The options come out in ascending label order, a missing label sorting as "". */
  lemma CountryOptionsSorted(regions: seq<Region>, le: (string, string) -> bool)
    requires StableSort.TotalPreorder(le)
    ensures StableSort.SortedBy(CountryOptions(regions, le), SortLabel, le)
  {
    StableSort.SortSorted(Flatten(regions), SortLabel, le);
  }

  /** Region `i`, country `j` exists in `regions`. */
  ghost predicate IsPair(regions: seq<Region>, i: int, j: int) {
    0 <= i < |regions| && regions[i].countries.Some? && 0 <= j < |regions[i].countries.value|
  }

  /** Flattening neither drops nor invents entries: its entries are exactly the (region, country) pairs. */
  lemma {:induction false} FlattenMembers(regions: seq<Region>, o: CountryOption)
    ensures o in Flatten(regions) <==>
      exists i, j :: IsPair(regions, i, j) && o == OptionFor(regions[i], regions[i].countries.value[j])
    decreases |regions|
  {
    if regions != [] {
      FlattenMembers(regions[1..], o);
      var head := RegionOptions(regions[0]);
      if o in head {
        var j :| 0 <= j < |head| && head[j] == o;
        assert IsPair(regions, 0, j);
      } else if o in Flatten(regions[1..]) {
        var i, j :| IsPair(regions[1..], i, j) && o == OptionFor(regions[1..][i], regions[1..][i].countries.value[j]);
        assert IsPair(regions, i + 1, j);
      }
      if exists i, j :: IsPair(regions, i, j) && o == OptionFor(regions[i], regions[i].countries.value[j]) {
        var i, j :| IsPair(regions, i, j) && o == OptionFor(regions[i], regions[i].countries.value[j]);
        if i == 0 {
          assert head[j] == o;
        } else {
          assert IsPair(regions[1..], i - 1, j);
          assert o == OptionFor(regions[1..][i - 1], regions[1..][i - 1].countries.value[j]);
        }
      }
    }
  }

  /**
   * Every option the header offers is the entry of some (region, country)
   * pair with its fields intact, and every pair is offered.
   */
  lemma CountryOptionsMembers(regions: seq<Region>, le: (string, string) -> bool, o: CountryOption)
    ensures o in CountryOptions(regions, le) <==>
      exists i, j :: IsPair(regions, i, j) && o == OptionFor(regions[i], regions[i].countries.value[j])
  {
    var os := CountryOptions(regions, le);
    assert o in os <==> o in multiset(os);
    assert o in Flatten(regions) <==> o in multiset(Flatten(regions));
    FlattenMembers(regions, o);
  }

  /** A region whose `countries` is missing contributes no entries. */
  lemma {:induction false} RegionWithoutCountries(before: seq<Region>, id: string, after: seq<Region>)
    ensures Flatten(before + [Region(id, None)] + after) == Flatten(before) + Flatten(after)
    decreases |before|
  {
    if before == [] {
      assert (before + [Region(id, None)] + after)[1..] == after;
    } else {
      assert (before + [Region(id, None)] + after)[1..] == before[1..] + [Region(id, None)] + after;
      RegionWithoutCountries(before[1..], id, after);
    }
  }
}
