/** The coin classifier: an area is mapped to a Euro coin denomination by a
    first-match lookup over a fixed, ordered table of inclusive area ranges.
    When no range holds the area, the result is an "unknown coin" label that
    carries the area itself. */
module CoinClassifier {

  /** One row of the range table: a denomination and its inclusive bounds. */
  datatype Range = Range(name: string, lo: real, hi: real) {
    /** The source's test `lo <= area <= hi`: both bounds are inclusive. */
    predicate Contains(area: real) {
      lo <= area <= hi
    }
  }

  /** The classification of one area: a denomination from the table, or the
      unknown-coin label carrying the area that matched no range. */
  datatype Label = Named(name: string) | Unknown(area: real)

  /** No two entries of the table carry the same name. */
  ghost predicate DistinctNames(table: seq<Range>) {
    forall i, j :: 0 <= i < j < |table| ==> table[i].name != table[j].name
  }

  /** Every range of the table is a non-empty interval. */
  ghost predicate ProperRanges(table: seq<Range>) {
    forall i :: 0 <= i < |table| ==> table[i].lo < table[i].hi
  }

  /** The calibration table, in its definition order (that order decides
      overlaps, since the first matching entry wins). */
  function EuroCoinRanges(): (table: seq<Range>)
    ensures |table| == 8
  {
    [ Range("1 Euro", 7000.0, 7500.0),
      Range("2 Euro", 8000.0, 8500.0),
      Range("50 Cent", 7500.0, 8500.0),
      Range("20 Cent", 6000.0, 7000.0),
      Range("10 Cent", 5000.0, 5500.0),
      Range("5 Cent", 5500.0, 6000.0),
      Range("2 Cent", 4000.0, 5000.0),
      Range("1 Cent", 3000.0, 3500.0) ]
  }

  /** The eight denominations of the table: exactly the names of its entries. */
  function CoinNames(): (names: set<string>)
    ensures names == set i | 0 <= i < |EuroCoinRanges()| :: EuroCoinRanges()[i].name
  {
    var t := EuroCoinRanges();
    assert t[0].name == "1 Euro" && t[1].name == "2 Euro" && t[2].name == "50 Cent" && t[3].name == "20 Cent";
    assert t[4].name == "10 Cent" && t[5].name == "5 Cent" && t[6].name == "2 Cent" && t[7].name == "1 Cent";
    {"1 Euro", "2 Euro", "50 Cent", "20 Cent", "10 Cent", "5 Cent", "2 Cent", "1 Cent"}
  }

  /** Entry `i` holds `area` and no entry before it does. */
  ghost predicate IsFirstMatch(table: seq<Range>, area: real, i: int) {
    0 <= i < |table| && table[i].Contains(area) &&
    forall j :: 0 <= j < i ==> !table[j].Contains(area)
  }

  /** No entry of the table holds `area`. */
  ghost predicate NoMatch(table: seq<Range>, area: real) {
    forall j :: 0 <= j < |table| ==> !table[j].Contains(area)
  }

  /** The loop of get_coin_name over an arbitrary table: the name of the first
      entry whose range holds `area`, else the unknown label with `area`. */
  function Lookup(table: seq<Range>, area: real): (r: Label)
    ensures r.Unknown? <==> NoMatch(table, area)
    ensures r.Unknown? ==> r.area == area
    ensures r.Named? ==> exists i :: IsFirstMatch(table, area, i) && r.name == table[i].name
  {
    if |table| == 0 then Unknown(area)
    else if table[0].Contains(area) then
      assert IsFirstMatch(table, area, 0);
      Named(table[0].name)
    else
      var r := Lookup(table[1..], area);
      assert r.Named? ==> exists i :: IsFirstMatch(table, area, i) && r.name == table[i].name by {
        if r.Named? {
          var k :| IsFirstMatch(table[1..], area, k) && r.name == table[1..][k].name;
          assert IsFirstMatch(table, area, k + 1);
        }
      }
      r
  }

  /** get_coin_name: classify an area against the Euro coin table. The result
      is the one the disjoint-interval reading of the table gives. */
  function GetCoinName(area: real): (l: Label)
    ensures l == EffectiveName(area)
  {
    EuroLookupIsEffectiveName(area);
    Lookup(EuroCoinRanges(), area)
  }

  /** The first match is unique, so a Named result determines its entry. */
  lemma FirstMatchUnique(table: seq<Range>, area: real, i: int, j: int)
    requires IsFirstMatch(table, area, i) && IsFirstMatch(table, area, j)
    ensures i == j
  {
  }

  /** Whatever entry is the first match, its name is the result; no later
      entry is consulted. */
  lemma {:induction false} LookupReturnsFirstMatch(table: seq<Range>, area: real, i: int)
    requires IsFirstMatch(table, area, i)
    ensures Lookup(table, area) == Named(table[i].name)
  {
    if i > 0 {
      assert IsFirstMatch(table[1..], area, i - 1);
      LookupReturnsFirstMatch(table[1..], area, i - 1);
    }
  }

  /** Every area in [alo, ahi] lies in entry k and in none of the entries
      before it. */
  ghost predicate IntervalFirstMatch(table: seq<Range>, alo: real, ahi: real, k: int) {
    0 <= k < |table| && table[k].lo <= alo && ahi <= table[k].hi &&
    forall j :: 0 <= j < k ==> table[j].hi < alo || ahi < table[j].lo
  }

  /** A whole interval of areas that falls in entry k before any earlier
      entry is classified as entry k. */
  lemma IntervalLookup(table: seq<Range>, alo: real, ahi: real, k: int, area: real)
    requires IntervalFirstMatch(table, alo, ahi, k) && alo <= area <= ahi
    ensures Lookup(table, area) == Named(table[k].name)
  {
    assert IsFirstMatch(table, area, k);
    LookupReturnsFirstMatch(table, area, k);
  }

  /** Totality over the Euro table: every area gets one of the eight names or
      the unknown label carrying that same area. */
  lemma GetCoinNameTotal(area: real)
    ensures GetCoinName(area) == Unknown(area) ||
            (GetCoinName(area).Named? && GetCoinName(area).name in CoinNames())
  {
    var r := GetCoinName(area);
    if r.Named? {
      var i :| IsFirstMatch(EuroCoinRanges(), area, i) && r.name == EuroCoinRanges()[i].name;
      assert EuroCoinRanges()[i].name in CoinNames();
    }
  }

  /** The table is well formed: like the keys of a dictionary literal, its
      eight names are pairwise distinct, and every range is a non-empty
      interval. */
  lemma EuroCoinRangesWellFormed()
    ensures DistinctNames(EuroCoinRanges()) && ProperRanges(EuroCoinRanges())
  {
  }

  /** The effect of the ordered table written as pairwise disjoint intervals,
      so that no order is needed to read it: overlaps and shared endpoints are
      already resolved in favour of the entry listed first. */
  function EffectiveName(area: real): (l: Label) {
    if 7000.0 <= area <= 7500.0 then Named("1 Euro")
    else if 8000.0 <= area <= 8500.0 then Named("2 Euro")
    else if 7500.0 < area < 8000.0 then Named("50 Cent")
    else if 6000.0 <= area < 7000.0 then Named("20 Cent")
    else if 5000.0 <= area <= 5500.0 then Named("10 Cent")
    else if 5500.0 < area < 6000.0 then Named("5 Cent")
    else if 4000.0 <= area < 5000.0 then Named("2 Cent")
    else if 3000.0 <= area <= 3500.0 then Named("1 Cent")
    else Unknown(area)
  }

  /** The ordered first-match lookup over the Euro table agrees with the
      disjoint-interval reading for every area. */
  lemma EuroLookupIsEffectiveName(area: real)
    ensures Lookup(EuroCoinRanges(), area) == EffectiveName(area)
  {
    var t := EuroCoinRanges();
    if 7000.0 <= area <= 7500.0 {
      LookupReturnsFirstMatch(t, area, 0);
    } else if 8000.0 <= area <= 8500.0 {
      LookupReturnsFirstMatch(t, area, 1);
    } else if 7500.0 < area < 8000.0 {
      LookupReturnsFirstMatch(t, area, 2);
    } else if 6000.0 <= area < 7000.0 {
      LookupReturnsFirstMatch(t, area, 3);
    } else if 5000.0 <= area <= 5500.0 {
      LookupReturnsFirstMatch(t, area, 4);
    } else if 5500.0 < area < 6000.0 {
      LookupReturnsFirstMatch(t, area, 5);
    } else if 4000.0 <= area < 5000.0 {
      LookupReturnsFirstMatch(t, area, 6);
    } else if 3000.0 <= area <= 3500.0 {
      LookupReturnsFirstMatch(t, area, 7);
    } else {
      assert NoMatch(t, area);
    }
  }

  /** Both bounds of "1 Euro" are inclusive; 7500 goes to "1 Euro" rather than
      "50 Cent" because "1 Euro" is listed first. */
  lemma OneEuroBounds(area: real)
    ensures GetCoinName(area) == Named("1 Euro") <==> 7000.0 <= area <= 7500.0
  {
  }

  /** "2 Euro" shadows the upper part of "50 Cent": any area in [8000, 8500]
      is "2 Euro", never "50 Cent". */
  lemma TwoEuroShadowsFiftyCent(area: real)
    ensures GetCoinName(area) == Named("2 Euro") <==> 8000.0 <= area <= 8500.0
  {
  }

  /** What is left of "50 Cent" is the open interval (7500, 8000). */
  lemma FiftyCentExactly(area: real)
    ensures GetCoinName(area) == Named("50 Cent") <==> 7500.0 < area < 8000.0
  {
  }

  /** Shared endpoints go to the entry listed first: 5500 is "10 Cent" (not
      "5 Cent"), 6000 is "20 Cent" (not "5 Cent"), 5000 is "10 Cent" (not
      "2 Cent") and 7000 is "1 Euro" (not "20 Cent"). */
  lemma SharedEndpoints()
    ensures GetCoinName(5500.0) == Named("10 Cent")
    ensures GetCoinName(6000.0) == Named("20 Cent")
    ensures GetCoinName(5000.0) == Named("10 Cent")
    ensures GetCoinName(7000.0) == Named("1 Euro")
  {
  }

  /** The unknown label comes back exactly for the gaps of the table, and it
      carries the area it was given. */
  lemma UnknownExactly(area: real)
    ensures GetCoinName(area).Unknown? <==>
              area < 3000.0 || (3500.0 < area < 4000.0) || area > 8500.0
    ensures GetCoinName(area).Unknown? ==> GetCoinName(area) == Unknown(area)
  {
  }

  /** Single areas on either side of the "1 Euro" bounds, one inside the
      overlap of "2 Euro" and "50 Cent", and one below every range. */
  lemma BoundaryExamples()
    ensures GetCoinName(7499.999) == Named("1 Euro")
    ensures GetCoinName(7501.0) != Named("1 Euro")
    ensures GetCoinName(8200.0) == Named("2 Euro")
    ensures GetCoinName(100.0) == Unknown(100.0)
  {
  }
}
