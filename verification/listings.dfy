/** The matching rules shared by the Rent, Buy and Projects pages: a
    case-insensitive substring search, an exact type match, a
    case-insensitive location match, and price bands selected by a label.
    An empty filter value imposes no restriction. */
module Listings {
  import opened Wrappers
  import Text

  /** `field.toLowerCase().includes(term.toLowerCase())`. */
  predicate Mentions(field: string, term: string)
  {
    Text.Includes(Text.Lower(field), Text.Lower(term))
  }

  /** `!filter || value === filter`. */
  predicate MatchesExactly(value: string, filter: string)
  {
    filter == "" || value == filter
  }

  /** `!filter || field.toLowerCase().includes(filter.toLowerCase())`. */
  predicate MatchesPart(field: string, filter: string)
  {
    filter == "" || Mentions(field, filter)
  }

  /** The four filters of the Rent and Buy pages. */
  datatype Filters = Filters(search: string, price: string, kind: string, location: string)

  /** The filters as first shown and after "clear filters". */
  const NoFilters: Filters := Filters("", "", "", "")

  /** `f` leaves open whatever `g` restricts: each filter of `f` is empty or
      the same as in `g`. */
  predicate Narrows(g: Filters, f: Filters)
  {
    && (f.search == "" || f.search == g.search)
    && (f.price == "" || f.price == g.price)
    && (f.kind == "" || f.kind == g.kind)
    && (f.location == "" || f.location == g.location)
  }

  /** An empty search term is found in every field. */
  lemma MentionsEmpty(field: string)
    ensures Mentions(field, "")
  {
    Text.IncludesEmpty(Text.Lower(field));
  }

  /** The four price bands of a listing page: the option values of the price
      select and the three upper bounds that separate them. */
  datatype PriceBands = PriceBands(under: string, low: string, high: string, over: string, t1: int, t2: int, t3: int)
  {
    predicate Valid()
    {
      && t1 < t2 < t3
      && under != "" && low != "" && high != "" && over != ""
      && |{under, low, high, over}| == 4
    }

    function Labels(): seq<string>
    {
      [under, low, high, over]
    }
  }

  /** The `switch` on the price filter: each known label bounds the parsed
      price, `NaN` fails every bound, and an empty or unknown label leaves
      the price unrestricted. */
  predicate MatchesPrice(bands: PriceBands, filter: string, price: Option<int>)
  {
    if filter == "" then true
    else if filter == bands.under then price.Some? && price.value <= bands.t1
    else if filter == bands.low then price.Some? && bands.t1 < price.value <= bands.t2
    else if filter == bands.high then price.Some? && bands.t2 < price.value <= bands.t3
    else if filter == bands.over then price.Some? && price.value > bands.t3
    else true
  }

  /** The bands partition the integers: every price lies in exactly one. */
  lemma BandsPartition(bands: PriceBands, n: int)
    requires bands.Valid()
    ensures exists k :: 0 <= k < 4 && MatchesPrice(bands, bands.Labels()[k], Some(n))
    ensures forall j, k :: 0 <= j < k < 4 ==>
      !(MatchesPrice(bands, bands.Labels()[j], Some(n)) && MatchesPrice(bands, bands.Labels()[k], Some(n)))
  {
    var ls := bands.Labels();
    assert bands.under != bands.low && bands.under != bands.high && bands.under != bands.over;
    assert bands.low != bands.high && bands.low != bands.over && bands.high != bands.over;
    if n <= bands.t1 {
      assert MatchesPrice(bands, ls[0], Some(n));
    } else if n <= bands.t2 {
      assert MatchesPrice(bands, ls[1], Some(n));
    } else if n <= bands.t3 {
      assert MatchesPrice(bands, ls[2], Some(n));
    } else {
      assert MatchesPrice(bands, ls[3], Some(n));
    }
  }

  /** A price that did not parse is in no band. */
  lemma NaNInNoBand(bands: PriceBands, k: nat)
    requires bands.Valid() && k < 4
    ensures !MatchesPrice(bands, bands.Labels()[k], None)
  {
  }

  /** A label that is none of the four restricts nothing. */
  lemma UnknownLabelUnrestricted(bands: PriceBands, filter: string, price: Option<int>)
    requires filter !in bands.Labels()
    ensures MatchesPrice(bands, filter, price)
  {
  }
}
