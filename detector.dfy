/** The accumulation of classified detections: each circle the detector
    returns is turned into a record (name, area, center, radius) and appended
    to the detector object's list of detected coins. */
module CoinDetection {
  import opened CoinClassifier

  datatype Option<T> = None | Some(value: T)

  /** A circle as returned by the Hough detector after its conversion to
      integers: center (x, y) and radius r, in pixels. */
  datatype Circle = Circle(x: int, y: int, r: int)

  /** One detected coin: its label, its nominal area and the circle's center
      and radius. */
  datatype DetectedCoin = DetectedCoin(name: Label, areaMm2: real, center: (int, int), radius: int)

  /** numpy's pi, written out as a decimal; the model computes over exact reals. */
  const Pi: real := 3.141592653589793

  /** The nominal area pi * r^2 of a circle of radius r. */
  function Area(r: int): (a: real)
    ensures a >= 0.0
    ensures a == 0.0 <==> r == 0
  {
    Pi * (r * r) as real
  }

  /** Squaring is monotone on the naturals. */
  lemma {:induction false} SquareMonotone(a: nat, b: nat)
    requires a <= b
    ensures a * a <= b * b
  {
    if a < b {
      SquareMonotone(a, b - 1);
      assert b * b == (b - 1) * (b - 1) + 2 * b - 1;
    }
  }

  /** Area grows with the radius, so bounds on the radius give bounds on
      the area. */
  lemma AreaBetween(n: nat, lo: nat, hi: nat)
    requires lo <= n <= hi
    ensures Pi * (lo * lo) as real <= Area(n) <= Pi * (hi * hi) as real
  {
    SquareMonotone(lo, n);
    SquareMonotone(n, hi);
  }

  /** As AreaBetween, without an upper bound. */
  lemma AreaAtLeast(n: nat, lo: nat)
    requires lo <= n
    ensures Pi * (lo * lo) as real <= Area(n)
  {
    SquareMonotone(lo, n);
  }

  /** The denomination the Euro table assigns to each whole radius, read off
      the table through pi * r^2: 31-33 pixels are "1 Cent", 36-39 "2 Cent",
      40-41 "10 Cent", 42-43 "5 Cent", 44-47 "20 Cent", 48 "1 Euro", 49-50
      "50 Cent", 51-52 "2 Euro"; every other radius is unknown. */
  function RadiusName(r: int): (l: Label) {
    var n := if r < 0 then -r else r;
    if 31 <= n <= 33 then Named("1 Cent")
    else if 36 <= n <= 39 then Named("2 Cent")
    else if 40 <= n <= 41 then Named("10 Cent")
    else if 42 <= n <= 43 then Named("5 Cent")
    else if 44 <= n <= 47 then Named("20 Cent")
    else if n == 48 then Named("1 Euro")
    else if 49 <= n <= 50 then Named("50 Cent")
    else if 51 <= n <= 52 then Named("2 Euro")
    else Unknown(Area(r))
  }

  /** Classifying a circle by the area of its radius agrees with RadiusName
      for every integer radius. */
  lemma ClassifyByRadius(r: int)
    ensures GetCoinName(Area(r)) == RadiusName(r)
  {
    if r < 0 {
      assert Area(r) == Area(-r) by {
        assert r * r == (-r) * (-r);
      }
      assert RadiusName(r) == RadiusName(-r);
      ClassifyNonNegativeRadius(-r);
    } else {
      ClassifyNonNegativeRadius(r);
    }
  }

  /** ClassifyByRadius for the radii the detector actually returns. */
  lemma ClassifyNonNegativeRadius(n: nat)
    ensures GetCoinName(Area(n)) == RadiusName(n)
  {
    if n <= 39 { ClassifySmallRadius(n); } else { ClassifyLargeRadius(n); }
  }

  /** ClassifyByRadius for radii up to 39. */
  lemma ClassifySmallRadius(n: nat)
    requires n <= 39
    ensures GetCoinName(Area(n)) == RadiusName(n)
  {
    if n <= 30 { RadiusGap(n, 0, 30); }
    else if n <= 33 { RadiusBand(n, 31, 33, 7); }
    else if n <= 35 { RadiusGap(n, 34, 35); }
    else { RadiusBand(n, 36, 39, 6); }
  }

  /** ClassifyByRadius for radii from 40 on. */
  lemma ClassifyLargeRadius(n: nat)
    requires n >= 40
    ensures GetCoinName(Area(n)) == RadiusName(n)
  {
    if n <= 41 { RadiusBand(n, 40, 41, 4); }
    else if n <= 43 { RadiusBand(n, 42, 43, 5); }
    else if n <= 47 { RadiusBand(n, 44, 47, 3); }
    else if n == 48 { RadiusBand(n, 48, 48, 0); }
    else if n <= 50 { RadiusBand(n, 49, 50, 2); }
    else if n <= 52 { RadiusBand(n, 51, 52, 1); }
    else { RadiusAboveTable(n); }
  }

  /** Radii from lo to hi whose areas all fall in table entry k first. */
  lemma RadiusBand(n: nat, lo: nat, hi: nat, k: int)
    requires lo <= n <= hi
    requires IntervalFirstMatch(EuroCoinRanges(), Pi * (lo * lo) as real, Pi * (hi * hi) as real, k)
    ensures GetCoinName(Area(n)) == Named(EuroCoinRanges()[k].name)
  {
    AreaBetween(n, lo, hi);
    IntervalLookup(EuroCoinRanges(), Pi * (lo * lo) as real, Pi * (hi * hi) as real, k, Area(n));
  }

  /** Radii from lo to hi whose areas fall in a gap of the table. */
  lemma RadiusGap(n: nat, lo: nat, hi: nat)
    requires lo <= n <= hi
    requires forall j :: 0 <= j < |EuroCoinRanges()| ==>
               EuroCoinRanges()[j].hi < Pi * (lo * lo) as real || Pi * (hi * hi) as real < EuroCoinRanges()[j].lo
    ensures GetCoinName(Area(n)) == Unknown(Area(n))
  {
    AreaBetween(n, lo, hi);
    assert NoMatch(EuroCoinRanges(), Area(n));
  }

  /** Radii of 53 and more have areas above every range of the table. */
  lemma RadiusAboveTable(n: nat)
    requires n >= 53
    ensures GetCoinName(Area(n)) == Unknown(Area(n))
  {
    AreaAtLeast(n, 53);
    assert NoMatch(EuroCoinRanges(), Area(n));
  }

  /** The record the source builds for one circle: its center and radius are
      the circle's, its area is pi * r^2, and its name is the denomination
      that RadiusName reads off the table for that radius. */
  function Record(c: Circle): (d: DetectedCoin)
    ensures d.center == (c.x, c.y) && d.radius == c.r && d.areaMm2 == Area(c.r)
    ensures d.name == RadiusName(c.r)
  {
    ClassifyByRadius(c.r);
    var area := Area(c.r);
    DetectedCoin(GetCoinName(area), area, (c.x, c.y), c.r)
  }

  /** The records for a list of circles: one per circle, in detector order. */
  function Records(cs: seq<Circle>): (ds: seq<DetectedCoin>)
    ensures |ds| == |cs|
    ensures forall i :: 0 <= i < |cs| ==> ds[i] == Record(cs[i])
  {
    if cs == [] then [] else [Record(cs[0])] + Records(cs[1..])
  }

  /** Classifying a concatenation classifies each part, in order. */
  lemma {:induction false} RecordsAppend(a: seq<Circle>, b: seq<Circle>)
    ensures Records(a + b) == Records(a) + Records(b)
  {
    if a == [] {
      assert a + b == b;
    } else {
      assert (a + b)[0] == a[0] && (a + b)[1..] == a[1..] + b;
      RecordsAppend(a[1..], b);
    }
  }

  /** The detector object: the image path it was created with and the list of
      coins detected so far. The image buffer itself is not modelled. */
  class CoinDetector {
    var imagePath: string
    var detectedCoins: seq<DetectedCoin>

    constructor (imagePath: string)
      ensures this.imagePath == imagePath && detectedCoins == []
    {
      this.imagePath := imagePath;
      detectedCoins := [];
    }

    /** process_detected_coins: when the detector found nothing the list is
        unchanged; otherwise one record per circle is appended in detector
        order, and the records already there are left alone. */
    method ProcessDetectedCoins(circles: Option<seq<Circle>>)
      modifies this
      ensures imagePath == old(imagePath)
      ensures circles.None? ==> detectedCoins == old(detectedCoins)
      ensures circles.Some? ==> detectedCoins == old(detectedCoins) + Records(circles.value)
      ensures circles.Some? ==>
                forall i :: 0 <= i < |circles.value| ==>
                  var c, d := circles.value[i], detectedCoins[|old(detectedCoins)| + i];
                  d.center == (c.x, c.y) && d.radius == c.r &&
                  d.areaMm2 == Area(c.r) && d.name == GetCoinName(Area(c.r))
    {
      if circles.Some? {
        var cs := circles.value;
        for k := 0 to |cs|
          invariant imagePath == old(imagePath)
          invariant detectedCoins == old(detectedCoins) + Records(cs[..k])
        {
          var circle := cs[k];
          var center := (circle.x, circle.y);
          var radius := circle.r;
          var areaMm2 := Area(radius);
          var coinName := GetCoinName(areaMm2);
          var coin := DetectedCoin(coinName, areaMm2, center, radius);
          assert coin == Record(circle);
          assert cs[..k + 1] == cs[..k] + [circle];
          RecordsAppend(cs[..k], [circle]);
          assert Records([circle]) == [coin];
          detectedCoins := detectedCoins + [coin];
        }
        assert cs[..|cs|] == cs;
      }
    }
  }

  /** A detector that returned circles at radius 47 and radius 1 yields two
      records in that order: "20 Cent" for the first, the unknown label with
      the second circle's area for the second. */
  lemma TwoCircleScenario()
    ensures Records([Circle(50, 50, 47), Circle(120, 80, 1)]) ==
            [DetectedCoin(Named("20 Cent"), Area(47), (50, 50), 47),
             DetectedCoin(Unknown(Area(1)), Area(1), (120, 80), 1)]
  {
  }
}
