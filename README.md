# Coin detector: classifier and detection accumulation

This project models the original logic of the coin detector (`coin_detector.py`).
That logic has two parts:

- **The coin classifier** (`get_coin_name`). It takes the nominal area `pi * r^2` of a detected circle, not the radius: `process_detected_coins` computes the area from the radius.
  It runs a first-match lookup over a fixed, ordered table of eight Euro denominations, each with an inclusive area range.
  If no range holds the area, the result is an "unknown coin" label that carries the area.
  The table's ranges overlap: "2 Euro" [8000, 8500] lies inside "50 Cent" [7500, 8500].
  Some ranges share endpoints: 5000, 5500, 6000, 7000 and 7500, and "2 Euro" and "50 Cent" both end at 8500.
  So the definition order decides the answer.
- **The accumulation of detections** (`process_detected_coins`). The detector object keeps a list of detected coins.
  When the circle detector returned nothing, the list stays as it is.
  Otherwise one record (name, area, center, radius) is appended per circle, in detector order.

Files:

- `classifier.dfy`, module `CoinClassifier`. It holds the range table, the recursive first-match `Lookup`, the classifier `GetCoinName`, and its properties.
  `EffectiveName` is an independent reference: the table rewritten as pairwise disjoint intervals.
  `EuroLookupIsEffectiveName` proves that the two agree for every area, and `GetCoinName` states it as its contract. The order, shadowing and fallback facts follow from it.
- `detector.dfy`, module `CoinDetection`. It holds circles, detected-coin records, the area `Area(r)`, and the class `CoinDetector`.
  The class has the `detectedCoins` sequence field and the method `ProcessDetectedCoins`, a loop that appends to that field.
  The method is proved against the specification function `Records`.
  `ClassifyByRadius` states which whole radii map to which denomination.

The classifier's result is the datatype `Label = Named(name) | Unknown(area)`.
The source's `"Unknown Coin (<area> mm2)"` string is `Unknown(area)`, so no number formatting is involved.
Areas are Dafny `real`s.
`Area(r)` is `Pi * r^2` over exact reals, with `Pi = 3.141592653589793` (numpy's `pi` written as a decimal).

Worked out from the code's table order: area 6000 lies on the shared endpoint of "20 Cent" [6000, 7000] and "5 Cent" [5500, 6000].
It classifies as "20 Cent", because "20 Cent" is listed first (`SharedEndpoints`).

## Model

| member | source | states |
|---|---|---|
| `CoinClassifier.Lookup` | coin_detector.py:62-66 | over any table: the result is Unknown exactly when no entry's inclusive range holds the area, and then it carries that area; a Named result is the name of an entry that holds the area while no earlier entry does |
| `CoinClassifier.LookupReturnsFirstMatch` | coin_detector.py:62-64 | if entry i holds the area and no earlier entry does, the result is entry i's name: later entries are never consulted |
| `CoinClassifier.FirstMatchUnique` | coin_detector.py:62-64 | at most one entry is the first match, so a Named result determines its entry |
| `CoinClassifier.EuroCoinRanges` | coin_detector.py:51-60 | the calibration table holds eight (name, lo, hi) entries, kept in definition order |
| `CoinClassifier.CoinNames` | coin_detector.py:51-60 | the set of denominations is exactly the set of names of the table's entries |
| `CoinClassifier.EuroCoinRangesWellFormed` | coin_detector.py:51-60 | the table's names are pairwise distinct, like the keys of the dictionary literal, and every range has lo < hi |
| `CoinClassifier.GetCoinNameTotal` | coin_detector.py:51-66 | for every area the classifier returns either one of the eight table names or the Unknown label carrying that same area |
| `CoinClassifier.GetCoinName` | coin_detector.py:50-66 | the first-match lookup over the Euro table; its result equals the disjoint-interval reading EffectiveName for every area |
| `CoinClassifier.EuroLookupIsEffectiveName` | coin_detector.py:50-66 | the ordered first-match lookup over the Euro table equals, for every area, the disjoint-interval reading (1 Euro [7000,7500], 2 Euro [8000,8500], 50 Cent (7500,8000), 20 Cent [6000,7000), 10 Cent [5000,5500], 5 Cent (5500,6000), 2 Cent [4000,5000), 1 Cent [3000,3500], otherwise Unknown(area)) |
| `CoinClassifier.OneEuroBounds` | coin_detector.py:52-64 | "1 Euro" is returned if and only if 7000 <= area <= 7500: both bounds are inclusive, and 7500 goes to "1 Euro" rather than "50 Cent" |
| `CoinClassifier.TwoEuroShadowsFiftyCent` | coin_detector.py:52-64 | "2 Euro" is returned if and only if 8000 <= area <= 8500, so no area in that range is "50 Cent" |
| `CoinClassifier.FiftyCentExactly` | coin_detector.py:52-64 | "50 Cent" is returned if and only if 7500 < area < 8000 |
| `CoinClassifier.SharedEndpoints` | coin_detector.py:52-64 | shared endpoints go to the entry listed first: 5500 and 5000 are "10 Cent", 6000 is "20 Cent", 7000 is "1 Euro" |
| `CoinClassifier.UnknownExactly` | coin_detector.py:51-66 | the Unknown label is returned if and only if area < 3000, 3500 < area < 4000 or area > 8500, and it carries the area it was given |
| `CoinClassifier.BoundaryExamples` | coin_detector.py:50-66 | 7499.999 is "1 Euro", 7501 is not "1 Euro", 8200 is "2 Euro", 100 is Unknown(100) |
| `CoinDetection.Area` | coin_detector.py:40 | the nominal area pi * r^2 is never negative and is zero only for radius zero |
| `CoinDetection.ClassifyByRadius` | coin_detector.py:39-41 | for every whole radius, the classification of pi * r^2 is: 31-33 "1 Cent", 36-39 "2 Cent", 40-41 "10 Cent", 42-43 "5 Cent", 44-47 "20 Cent", 48 "1 Euro", 49-50 "50 Cent", 51-52 "2 Euro", and Unknown(area) for every other radius |
| `CoinDetection.Record` | coin_detector.py:38-47 | the record of one circle has the circle's center (x, y) and radius r, area Area(r), and the name RadiusName(r) that the table gives that radius |
| `CoinDetection.Records` | coin_detector.py:37-48 | one record per circle: same length as the circle list, and the i-th record is the record of the i-th circle |
| `CoinDetection.RecordsAppend` | coin_detector.py:37-48 | the records of two batches of circles, one after the other, are the records of the first batch followed by those of the second |
| `CoinDetection.CoinDetector.constructor` | coin_detector.py:6-9 | a new detector keeps its image path and starts with no detected coins |
| `CoinDetection.CoinDetector.ProcessDetectedCoins` | coin_detector.py:34-48 | with no circles (None) the detected-coin list is unchanged; otherwise the new list is the old list followed by exactly the records of the circles, in detector order, so earlier entries are untouched; the i-th new record has the i-th circle's center (x, y) and radius r, area Area(r) and name GetCoinName(Area(r)); the image path does not change |
| `CoinDetection.TwoCircleScenario` | coin_detector.py:34-48 | circles (50,50,47) and (120,80,1) give two records in that order: "20 Cent" with area Area(47), then Unknown(Area(1)) |

## Left out

- Image loading and the process exit on failure (`load_image`, coin_detector.py:11-15) are file I/O. The model keeps only the image path. The image buffer is not modelled.
- Preprocessing and circle detection (`preprocess_image`, `detect_circles`, coin_detector.py:17-32) are calls into OpenCV with fixed parameters. Their output is the `circles` parameter of `ProcessDetectedCoins`: `None`, or a sequence of integer circles.
- The conversion `circles.astype(int)` (coin_detector.py:36) truncates floats. The model takes circles that are already integers.
- Area: computes `np.pi * radius**2` over exact reals instead of 64-bit floats. Float rounding is not modelled, and neither is int64 overflow of `radius**2` for radii above about 3 * 10^9. The nearest a whole radius comes to a table bound is 5.1 area units (radius 52, area 8494.87), so rounding does not change any classification in `ClassifyByRadius`.
- The `:.2f` formatting of the unknown label (coin_detector.py:66) and of the annotation text (coin_detector.py:70) is float rendering. The model uses the structured value `Unknown(area)`.
- Drawing and display (`draw_text_on_image`, `draw_contours_on_image`, `resize_image`, `display_result`, coin_detector.py:68-94) are pixel drawing, float resize factors and a blocking GUI window.
- Orchestration (`process_image`, `main`, coin_detector.py:96-112) only sequences the calls above and builds a file path.
