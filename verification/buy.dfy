/** The Buy page (`Buy.tsx`): six properties for sale filtered by search
    term, price band, type and location. Prices are written with Nepali
    digit grouping, `रू 1,20,00,000`. */
module BuyPage {
  import opened Wrappers
  import Seqs
  import Text
  import opened Listings

  /** The fields of a property for sale that the filters read. */
  datatype Sale = Sale(id: int, title: string, location: string, price: string, kind: string)

  function Properties(): seq<Sale>
  {
    [ Sale(1, "Luxury Villa with Pool", "123 Ocean View Drive", "रू 1,20,00,000", "house"),
      Sale(2, "Cozy Apartment in Downtown", "456 City Center Plaza", "रू 45,00,000", "apartment"),
      Sale(3, "Charming House with Garden", "789 Green Valley Road", "रू 75,00,000", "house"),
      Sale(4, "Modern Loft in Arts District", "101 Art Lane", "रू 60,00,000", "loft"),
      Sale(5, "Spacious Family Home", "222 Hilltop Avenue", "रू 90,00,000", "house"),
      Sale(6, "Luxury Condo with City View", "333 Skyline Boulevard", "रू 80,00,000", "condo")]
  }

  /** The character class `[रू,\s]` removed before parsing a price. */
  predicate IsPriceNoise(c: char)
  {
    c == 'र' || c == 'ू' || c == ',' || Text.IsSpace(c)
  }

  function PriceNoise(): char -> bool
  {
    (c: char) => IsPriceNoise(c)
  }

  const Bands: PriceBands := PriceBands("0-5000000", "5000000-7500000", "7500000-10000000", "10000000+", 5000000, 7500000, 10000000)

  /** `parseInt(price.replace(/[रू,\s]/g, ''))`. */
  function SalePrice(price: string): Option<int>
  {
    Text.ParseInt(Text.RemoveAll(price, PriceNoise()))
  }

  predicate Keep(f: Filters, p: Sale)
  {
    && (Mentions(p.title, f.search) || Mentions(p.location, f.search))
    && MatchesExactly(p.kind, f.kind)
    && MatchesPart(p.location, f.location)
    && MatchesPrice(Bands, f.price, SalePrice(p.price))
  }

  function KeepFor(f: Filters): Sale -> bool
  {
    (p: Sale) => Keep(f, p)
  }

  /** `filteredProperties`. */
  function Filtered(f: Filters): (r: seq<Sale>)
    ensures Seqs.IsSublist(r, Properties())
    ensures |r| <= |Properties()|
    ensures forall p :: p in r <==> p in Properties() && Keep(f, p)
  {
    var r := Seqs.Filter(Properties(), KeepFor(f));
    assert forall p :: p in r <==> p in Properties() && Keep(f, p) by {
      forall p
        ensures p in r <==> p in Properties() && Keep(f, p)
      {
        Seqs.FilterMembership(Properties(), KeepFor(f), p);
      }
    }
    r
  }

  /** `handleClearFilters`: every filter is emptied, which shows every
      property and is the widest choice. */
  function ClearFilters(f: Filters): (r: Filters)
    ensures Filtered(r) == Properties()
    ensures forall g :: Narrows(g, r)
  {
    NoFiltersKeepAll();
    NoFilters
  }

  lemma BandsValid()
    ensures Bands.Valid()
  {
  }

  /** With every filter empty, every property is shown. */
  lemma NoFiltersKeepAll()
    ensures Filtered(NoFilters) == Properties()
  {
    forall i | 0 <= i < |Properties()|
      ensures Keep(NoFilters, Properties()[i])
    {
      MentionsEmpty(Properties()[i].title);
    }
    Seqs.FilterAll(Properties(), KeepFor(NoFilters));
  }

  /** Filling in an empty filter never brings a property back. */
  lemma NarrowingShrinks(g: Filters, f: Filters)
    requires Narrows(g, f)
    ensures Seqs.IsSublist(Filtered(g), Filtered(f))
  {
    var xs := Properties();
    forall i | 0 <= i < |xs| && Keep(g, xs[i])
      ensures Keep(f, xs[i])
    {
      MentionsEmpty(xs[i].title);
    }
    Seqs.FilterMonotone(xs, KeepFor(g), KeepFor(f));
  }

  /** The digits of a grouped amount with the separators dropped. */
  function Digits(groups: seq<string>): string
  {
    if groups == [] then "" else groups[0] + Digits(groups[1..])
  }

  predicate AllDecimal(groups: seq<string>)
  {
    forall i :: 0 <= i < |groups| ==> Text.IsDecimal(groups[i])
  }

  /** Digits are not noise. */
  lemma DigitsKept(s: string)
    requires Text.IsDecimal(s)
    ensures Text.RemoveAll(s, PriceNoise()) == s
  {
    forall i | 0 <= i < |s|
      ensures !PriceNoise()(s[i])
    {
      assert '0' <= s[i] <= '9';
    }
    Text.RemoveAllNone(s, PriceNoise());
  }

  /** The currency sign, the space after it and the comma are noise. */
  lemma NoiseDropped()
    ensures Text.RemoveAll([','], PriceNoise()) == ""
    ensures Text.RemoveAll("रू ", PriceNoise()) == ""
  {
    assert PriceNoise()(',');
    assert "रू "[1..][1..][1..] == "";
  }

  lemma JoinCons(groups: seq<string>)
    requires |groups| >= 2
    ensures Text.Join(groups, ',') == (groups[0] + [',']) + Text.Join(groups[1..], ',')
  {
  }

  lemma AllDecimalTail(groups: seq<string>)
    requires |groups| >= 1 && AllDecimal(groups)
    ensures AllDecimal(groups[1..])
  {
    var rest := groups[1..];
    forall i | 0 <= i < |rest|
      ensures Text.IsDecimal(rest[i])
    {
      assert rest[i] == groups[i + 1];
    }
  }

  /** Dropping the noise from digit groups joined by commas leaves their
      digits. */
  lemma {:induction false} StripGroups(groups: seq<string>)
    requires AllDecimal(groups)
    ensures Text.RemoveAll(Text.Join(groups, ','), PriceNoise()) == Digits(groups)
  {
    if groups == [] {
    } else if |groups| == 1 {
      DigitsKept(groups[0]);
      assert Digits(groups) == groups[0] + Digits([]);
    } else {
      var noise := PriceNoise();
      var head, rest := groups[0], groups[1..];
      var tail := Text.Join(rest, ',');
      AllDecimalTail(groups);
      assert Text.RemoveAll(tail, noise) == Digits(rest) by {
        StripGroups(rest);
      }
      assert Text.RemoveAll(head + [','], noise) == head by {
        DigitsKept(head);
        NoiseDropped();
        Text.RemoveAllConcat(head, [','], noise);
      }
      JoinCons(groups);
      Text.RemoveAllConcat(head + [','], tail, noise);
    }
  }

  lemma {:induction false} DigitsDecimal(groups: seq<string>)
    requires |groups| >= 1 && AllDecimal(groups)
    ensures Text.IsDecimal(Digits(groups))
  {
    if |groups| > 1 {
      var rest := groups[1..];
      assert AllDecimal(rest) by {
        forall i | 0 <= i < |rest|
          ensures Text.IsDecimal(rest[i])
        {
          assert rest[i] == groups[i + 1];
        }
      }
      DigitsDecimal(rest);
    } else {
      assert Digits(groups) == groups[0] + "";
    }
  }

  /** A price written as the listings write it, `रू ` followed by comma
      separated digit groups, parses to the number its digits spell,
      whatever the grouping. */
  lemma PriceFormat(groups: seq<string>)
    requires |groups| >= 1 && AllDecimal(groups)
    ensures SalePrice("रू " + Text.Join(groups, ',')) == Some(Text.Value(Digits(groups), 10) as int)
  {
    var joined := Text.Join(groups, ',');
    var digits := Digits(groups);
    assert Text.RemoveAll("रू " + joined, PriceNoise()) == digits by {
      StripGroups(groups);
      NoiseDropped();
      Text.RemoveAllConcat("रू ", joined, PriceNoise());
    }
    DigitsDecimal(groups);
    Text.ParseDecimal(digits);
  }

  /** The listed prices of the first two properties. */
  lemma ListedPrices()
    ensures Properties()[0].price == "रू " + "1,20,00,000"
    ensures Properties()[1].price == "रू " + "45,00,000"
  {
  }

  /** "रू 45,00,000" is forty-five lakh, in the lowest band. */
  lemma SecondPropertyPrice()
    ensures SalePrice(Properties()[1].price) == Some(4500000)
    ensures MatchesPrice(Bands, Bands.under, SalePrice(Properties()[1].price))
  {
    var groups := ["45", "00", "000"];
    PriceFormat(groups);
    LakhGroups();
    Value4500000();
    ListedPrices();
  }

  lemma LakhGroups()
    ensures Text.Join(["45", "00", "000"], ',') == "45,00,000"
    ensures Digits(["45", "00", "000"]) == "4500000"
  {
    var groups := ["45", "00", "000"];
    assert groups[1..] == ["00", "000"];
    assert groups[1..][1..] == ["000"];
  }

  lemma Value4500000()
    ensures Text.Value("4500000", 10) == 4500000
  {
    assert "4500000"[..6] == "450000" && "450000"[..5] == "45000" && "45000"[..4] == "4500";
    assert "4500"[..3] == "450" && "450"[..2] == "45" && "45"[..1] == "4";
  }

  /** "रू 1,20,00,000" is one crore twenty lakh, in the top band. */
  lemma FirstPropertyPrice()
    ensures SalePrice(Properties()[0].price) == Some(12000000)
    ensures MatchesPrice(Bands, Bands.over, SalePrice(Properties()[0].price))
  {
    var groups := ["1", "20", "00", "000"];
    PriceFormat(groups);
    CroreGroups();
    Value12000000();
    ListedPrices();
  }

  lemma CroreGroups()
    ensures Text.Join(["1", "20", "00", "000"], ',') == "1,20,00,000"
    ensures Digits(["1", "20", "00", "000"]) == "12000000"
  {
    var groups := ["1", "20", "00", "000"];
    assert groups[1..] == ["20", "00", "000"];
    assert groups[1..][1..] == ["00", "000"];
    assert groups[1..][1..][1..] == ["000"];
  }

  lemma Value12000000()
    ensures Text.Value("12000000", 10) == 12000000
  {
    assert "12000000"[..7] == "1200000" && "1200000"[..6] == "120000" && "120000"[..5] == "12000";
    assert "12000"[..4] == "1200" && "1200"[..3] == "120" && "120"[..2] == "12" && "12"[..1] == "1";
  }
}
