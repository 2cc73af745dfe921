/** The Rent page (`Rent.tsx`): six rental listings filtered by search term,
    price band, type and location. */
module RentPage {
  import opened Wrappers
  import Seqs
  import Text
  import opened Listings

  /** The fields of a rental listing that the filters read. */
  datatype Rental = Rental(id: int, title: string, location: string, price: string, kind: string)

  function RentalProperties(): seq<Rental>
  {
    [ Rental(1, "Spacious Downtown Apartment", "123 Main Street, Downtown", "रू 22,000/month", "apartment"),
      Rental(2, "Modern Studio Loft", "456 Oak Avenue, Arts District", "रू 18,000/month", "studio"),
      Rental(3, "Family House with Yard", "789 Pine Street, Suburbs", "रू 35,000/month", "house"),
      Rental(4, "Luxury Penthouse", "321 Tower Drive, Uptown", "रू 42,000/month", "penthouse"),
      Rental(5, "Cozy One Bedroom", "654 Elm Street, Midtown", "रू 16,000/month", "apartment"),
      Rental(6, "Shared Townhouse", "987 Cedar Lane, West Side", "रू 28,000/month", "townhouse")]
  }

  /** The character class `[रू,\/month]` removed before parsing a price. */
  predicate IsPriceNoise(c: char)
  {
    c in {'र', 'ू', ',', '/', 'm', 'o', 'n', 't', 'h'}
  }

  function PriceNoise(): char -> bool
  {
    (c: char) => IsPriceNoise(c)
  }

  const Bands: PriceBands := PriceBands("0-15000", "15000-25000", "25000-35000", "35000+", 15000, 25000, 35000)

  /** `parseInt(price.replace(/[रू,\/month]/g, ''))`. */
  function RentPrice(price: string): Option<int>
  {
    Text.ParseInt(Text.RemoveAll(price, PriceNoise()))
  }

  /** The filter callback: search in title or location, exact type,
      location substring and price band must all hold. */
  predicate Keep(f: Filters, p: Rental)
  {
    && (Mentions(p.title, f.search) || Mentions(p.location, f.search))
    && MatchesExactly(p.kind, f.kind)
    && MatchesPart(p.location, f.location)
    && MatchesPrice(Bands, f.price, RentPrice(p.price))
  }

  function KeepFor(f: Filters): Rental -> bool
  {
    (p: Rental) => Keep(f, p)
  }

  /** `filteredProperties`. */
  function Filtered(f: Filters): (r: seq<Rental>)
    ensures Seqs.IsSublist(r, RentalProperties())
    ensures |r| <= |RentalProperties()|
    ensures forall p :: p in r <==> p in RentalProperties() && Keep(f, p)
  {
    var r := Seqs.Filter(RentalProperties(), KeepFor(f));
    assert forall p :: p in r <==> p in RentalProperties() && Keep(f, p) by {
      forall p
        ensures p in r <==> p in RentalProperties() && Keep(f, p)
      {
        Seqs.FilterMembership(RentalProperties(), KeepFor(f), p);
      }
    }
    r
  }

  /** The band labels are four distinct non-empty values over increasing
      bounds, so they partition the prices. */
  lemma BandsValid()
    ensures Bands.Valid()
  {
  }

  /** The "clear filters" button of the empty-result message: every filter
      is emptied, which shows every listing and is the widest choice. */
  function ClearFilters(f: Filters): (r: Filters)
    ensures Filtered(r) == RentalProperties()
    ensures forall g :: Narrows(g, r)
  {
    NoFiltersKeepAll();
    NoFilters
  }

  /** With every filter empty, every listing is shown. */
  lemma NoFiltersKeepAll()
    ensures Filtered(NoFilters) == RentalProperties()
  {
    forall i | 0 <= i < |RentalProperties()|
      ensures Keep(NoFilters, RentalProperties()[i])
    {
      MentionsEmpty(RentalProperties()[i].title);
    }
    Seqs.FilterAll(RentalProperties(), KeepFor(NoFilters));
  }

  /** Filling in an empty filter never brings a listing back: the result
      under the narrower filters is a sublist of the wider one. */
  lemma NarrowingShrinks(g: Filters, f: Filters)
    requires Narrows(g, f)
    ensures Seqs.IsSublist(Filtered(g), Filtered(f))
  {
    var xs := RentalProperties();
    forall i | 0 <= i < |xs| && Keep(g, xs[i])
      ensures Keep(f, xs[i])
    {
      MentionsEmpty(xs[i].title);
    }
    Seqs.FilterMonotone(xs, KeepFor(g), KeepFor(f));
  }

  lemma DigitsKept(a: string)
    requires Text.IsDecimal(a)
    ensures Text.RemoveAll(a, PriceNoise()) == a
  {
    forall i | 0 <= i < |a|
      ensures !PriceNoise()(a[i])
    {
      assert '0' <= a[i] <= '9';
    }
    Text.RemoveAllNone(a, PriceNoise());
  }

  /** The currency sign loses all but its space; the comma and the
      `/month` suffix disappear. */
  lemma NoiseDropped()
    ensures Text.RemoveAll("रू ", PriceNoise()) == " "
    ensures Text.RemoveAll(",", PriceNoise()) == ""
    ensures Text.RemoveAll("/month", PriceNoise()) == ""
  {
    assert "रू "[1..][1..] == " ";
    Text.RemoveAllEvery("/month", PriceNoise());
  }

  lemma StripHead(a: string)
    requires Text.IsDecimal(a)
    ensures Text.RemoveAll("रू " + a + ",", PriceNoise()) == " " + a
  {
    var noise := PriceNoise();
    DigitsKept(a);
    NoiseDropped();
    assert Text.RemoveAll("रू " + a, noise) == " " + a by {
      Text.RemoveAllConcat("रू ", a, noise);
    }
    Text.RemoveAllConcat("रू " + a, ",", noise);
  }

  lemma StripTail(b: string)
    requires Text.IsDecimal(b)
    ensures Text.RemoveAll(b + "/month", PriceNoise()) == b
  {
    DigitsKept(b);
    NoiseDropped();
    Text.RemoveAllConcat(b, "/month", PriceNoise());
  }

  lemma StripPrice(a: string, b: string)
    requires Text.IsDecimal(a) && Text.IsDecimal(b)
    ensures Text.RemoveAll("रू " + a + "," + b + "/month", PriceNoise()) == " " + (a + b)
  {
    var head, tail := "रू " + a + ",", b + "/month";
    assert "रू " + a + "," + b + "/month" == head + tail;
    StripHead(a);
    StripTail(b);
    Text.RemoveAllConcat(head, tail, PriceNoise());
  }

  /** A rent written as the listings write it, `रू <thousands>,<units>/month`,
      parses to the number its digits spell. */
  lemma PriceFormat(a: string, b: string)
    requires Text.IsDecimal(a) && Text.IsDecimal(b)
    ensures RentPrice("रू " + a + "," + b + "/month") == Some(Text.Value(a + b, 10) as int)
  {
    StripPrice(a, b);
    Text.ParseSkipsSpace(" ", a + b);
    Text.ParseDecimal(a + b);
  }

  /** The first listing's price, "रू 22,000/month", is 22000. */
  lemma FirstListingPrice()
    ensures RentPrice(RentalProperties()[0].price) == Some(22000)
  {
    PriceFormat("22", "000");
    Value22000();
    ListedPrice();
  }

  lemma ListedPrice()
    ensures RentalProperties()[0].price == "रू " + "22" + "," + "000" + "/month"
  {
  }

  lemma Value22000()
    ensures Text.Value("22" + "000", 10) == 22000
  {
    assert "22" + "000" == "22000";
    assert "22000"[..4] == "2200" && "2200"[..3] == "220" && "220"[..2] == "22" && "22"[..1] == "2";
  }
}
