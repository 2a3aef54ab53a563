/**
  The analytics service: the per-aspect roll-up of grouped sentiment counts
  ("key areas" on the dashboard), the overall sentiment of one review, the
  count of positive reviews, and the service's copy of the brand-fit score.
*/
module Analytics {
  import opened Wrappers
  import opened Ascii
  import opened Seqs
  import opened Schema
  import BrandFit

  // ---------------------------------------------------------------------------
  // Aspect roll-up

  /** One row of the grouped query: how many aspect scores of one aspect carry one sentiment. */
  datatype AspectCountRow = AspectCountRow(aspect: Aspect, sentiment: Sentiment, count: nat)

  /** The running buckets kept per aspect while the rows are folded. */
  datatype Tally = Tally(positive: nat, negative: nat, neutral: nat, total: nat)

  /** One dashboard record: the display label, the rounded share of positive mentions and the negative count. */
  datatype KeyArea = KeyArea(aspect: string, score: int, issues: nat)

  const EmptyTally := Tally(0, 0, 0, 0)

  /** Adds one row to a tally: POS and NEG go to their bucket, every other sentiment to neutral. */
  function AddRow(t: Tally, row: AspectCountRow): Tally {
    var t' := t.(total := t.total + row.count);
    if row.sentiment == Pos then t'.(positive := t'.positive + row.count)
    else if row.sentiment == Neg then t'.(negative := t'.negative + row.count)
    else t'.(neutral := t'.neutral + row.count)
  }

  /** The aspects of `rows`, each once, in order of first appearance (the key order of a JS `Map`). */
  function Distinct(rows: seq<AspectCountRow>): seq<Aspect> {
    if rows == [] then []
    else
      var seen := Distinct(rows[..|rows| - 1]);
      if rows[|rows| - 1].aspect in seen then seen else seen + [rows[|rows| - 1].aspect]
  }

  /** The tally of aspect `a` over all of `rows`, folded left to right. */
  function Bucket(rows: seq<AspectCountRow>, a: Aspect): Tally {
    if rows == [] then EmptyTally
    else
      var before := Bucket(rows[..|rows| - 1], a);
      if rows[|rows| - 1].aspect == a then AddRow(before, rows[|rows| - 1]) else before
  }

  /**
    `Math.round(positive / total * 100)` when there is data, 50 otherwise.
    Rounding half up of 100p/t is the integer quotient (200p + t) div 2t.
  */
  function RoundedPercent(positive: nat, total: nat): int {
    if total > 0 then (200 * positive + total) / (2 * total) else 50
  }

  /** `aspect.toLowerCase().replace('_', ' ')`: only the first underscore becomes a space. */
  function AspectLabel(name: string): (r: string)
    ensures |r| == |name|
  {
    ReplaceFirst(Lower(name), "_", " ")
  }

  function KeyAreaOf(a: Aspect, t: Tally): KeyArea {
    KeyArea(AspectLabel(AspectName(a)), RoundedPercent(t.positive, t.total), t.negative)
  }

  /**
    The first half of `processAspectScores`: fold the rows into a map from
    aspect to tally, creating a tally the first time an aspect is seen and
    updating it in place for every row. `order` is the map's insertion order.
  */
  method GroupRows(rows: seq<AspectCountRow>) returns (order: seq<Aspect>, aspectMap: map<Aspect, Tally>)
    ensures order == Distinct(rows)
    ensures forall a :: a in aspectMap <==> a in order
    ensures forall a :: a in aspectMap ==> aspectMap[a] == Bucket(rows, a)
  {
    order := [];
    aspectMap := map[];
    var i := 0;
    while i < |rows|
      invariant 0 <= i <= |rows|
      invariant order == Distinct(rows[..i])
      invariant forall a :: a in aspectMap <==> a in order
      invariant forall a :: a in aspectMap ==> aspectMap[a] == Bucket(rows[..i], a)
      invariant forall a :: a !in aspectMap ==> Bucket(rows[..i], a) == EmptyTally
    {
      var row := rows[i];
      if row.aspect !in aspectMap {
        aspectMap := aspectMap[row.aspect := EmptyTally];
        order := order + [row.aspect];
      }
      var data := aspectMap[row.aspect];
      data := data.(total := data.total + row.count);
      if row.sentiment == Pos {
        data := data.(positive := data.positive + row.count);
      } else if row.sentiment == Neg {
        data := data.(negative := data.negative + row.count);
      } else {
        data := data.(neutral := data.neutral + row.count);
      }
      assert data == AddRow(aspectMap[row.aspect], row);
      aspectMap := aspectMap[row.aspect := data];
      FoldStep(rows, i);
      i := i + 1;
    }
    assert rows[..i] == rows;
  }

  /**
    `processAspectScores`: group the rows by aspect, then project every
    entry, in the map's insertion order, to a key area.
  */
  method ProcessAspectScores(rows: seq<AspectCountRow>) returns (keyAreas: seq<KeyArea>)
    ensures |keyAreas| == |Distinct(rows)|
    ensures forall k :: 0 <= k < |keyAreas| ==>
      keyAreas[k] == KeyAreaOf(Distinct(rows)[k], Bucket(rows, Distinct(rows)[k]))
  {
    var order, aspectMap := GroupRows(rows);
    keyAreas := seq(|order|, k requires 0 <= k < |order| && order[k] in aspectMap => KeyAreaOf(order[k], aspectMap[order[k]]));
  }

  /** Every key area's score is a percentage: between 0 and 100. */
  lemma KeyAreaScoreBounds(rows: seq<AspectCountRow>, a: Aspect)
    ensures 0 <= KeyAreaOf(a, Bucket(rows, a)).score <= 100
  {
    var t := Bucket(rows, a);
    BucketSplitsTotal(rows, a);
    RoundedPercentBounds(t.positive, t.total);
  }

  /** One more row: the aspect joins the order if new, and only its own tally changes. */
  lemma FoldStep(rows: seq<AspectCountRow>, i: nat)
    requires i < |rows|
    ensures Distinct(rows[..i + 1]) ==
      if rows[i].aspect in Distinct(rows[..i]) then Distinct(rows[..i]) else Distinct(rows[..i]) + [rows[i].aspect]
    ensures forall a :: Bucket(rows[..i + 1], a) == (if rows[i].aspect == a then AddRow(Bucket(rows[..i], a), rows[i]) else Bucket(rows[..i], a))
  {
    assert rows[..i + 1][..i] == rows[..i];
  }

  /** Every tally splits its total exactly into the three buckets. */
  lemma {:induction false} BucketSplitsTotal(rows: seq<AspectCountRow>, a: Aspect)
    ensures var t := Bucket(rows, a); t.positive + t.negative + t.neutral == t.total
  {
    if rows != [] {
      BucketSplitsTotal(rows[..|rows| - 1], a);
    }
  }

  /** Some row carries aspect `a`. */
  predicate HasAspect(rows: seq<AspectCountRow>, a: Aspect) {
    exists k | 0 <= k < |rows| :: rows[k].aspect == a
  }

  lemma HasAspectLast(rows: seq<AspectCountRow>)
    requires rows != []
    ensures forall a :: HasAspect(rows, a) <==> HasAspect(rows[..|rows| - 1], a) || rows[|rows| - 1].aspect == a
  {
    var init := rows[..|rows| - 1];
    forall a ensures HasAspect(rows, a) <==> HasAspect(init, a) || rows[|rows| - 1].aspect == a {
      if HasAspect(init, a) {
        var k :| 0 <= k < |init| && init[k].aspect == a;
        assert rows[k] == init[k];
      }
      if HasAspect(rows, a) {
        var k :| 0 <= k < |rows| && rows[k].aspect == a;
        if k < |init| {
          assert init[k] == rows[k];
        }
      }
    }
  }

  /** The buckets are sums over exactly the rows of the aspect: an aspect without rows has an empty tally. */
  lemma {:induction false} BucketOfAbsent(rows: seq<AspectCountRow>, a: Aspect)
    requires !HasAspect(rows, a)
    ensures Bucket(rows, a) == EmptyTally
  {
    if rows != [] {
      HasAspectLast(rows);
      BucketOfAbsent(rows[..|rows| - 1], a);
    }
  }

  /**
    The output lists each aspect of the input exactly once: an aspect is
    listed iff some row carries it, and no aspect is listed twice.
  */
  lemma {:induction false} DistinctMembers(rows: seq<AspectCountRow>)
    ensures forall a :: a in Distinct(rows) <==> HasAspect(rows, a)
    ensures forall i, j :: 0 <= i < j < |Distinct(rows)| ==> Distinct(rows)[i] != Distinct(rows)[j]
  {
    if rows != [] {
      DistinctMembers(rows[..|rows| - 1]);
      HasAspectLast(rows);
    }
  }

  /** The position of the first row that carries `a`. */
  function FirstIndex(rows: seq<AspectCountRow>, a: Aspect): (k: nat)
    requires HasAspect(rows, a)
    ensures k < |rows| && rows[k].aspect == a
    ensures forall j :: 0 <= j < k ==> rows[j].aspect != a
  {
    if rows[0].aspect == a then 0
    else
      assert HasAspect(rows[1..], a) by {
        var k :| 0 <= k < |rows| && rows[k].aspect == a;
        assert rows[1..][k - 1] == rows[k];
      }
      1 + FirstIndex(rows[1..], a)
  }

  lemma FirstIndexOfPrefix(rows: seq<AspectCountRow>, a: Aspect)
    requires rows != [] && HasAspect(rows[..|rows| - 1], a)
    ensures HasAspect(rows, a)
    ensures FirstIndex(rows, a) == FirstIndex(rows[..|rows| - 1], a)
  {
    var init := rows[..|rows| - 1];
    var k := FirstIndex(init, a);
    assert rows[k] == init[k];
    var m := FirstIndex(rows, a);
    assert m <= k;
    assert init[m] == rows[m];
  }

  /** The output is in first-appearance order: an aspect listed earlier first appears earlier in the input. */
  lemma {:induction false} DistinctInFirstAppearanceOrder(rows: seq<AspectCountRow>, i: nat, j: nat)
    requires i < j < |Distinct(rows)|
    ensures HasAspect(rows, Distinct(rows)[i]) && HasAspect(rows, Distinct(rows)[j])
    ensures FirstIndex(rows, Distinct(rows)[i]) < FirstIndex(rows, Distinct(rows)[j])
  {
    DistinctMembers(rows);
    var init := rows[..|rows| - 1];
    var d := Distinct(rows);
    DistinctMembers(init);
    assert Distinct(init) <= d;
    if j < |Distinct(init)| {
      DistinctInFirstAppearanceOrder(init, i, j);
      FirstIndexOfPrefix(rows, d[i]);
      FirstIndexOfPrefix(rows, d[j]);
    } else {
      // d[j] is the aspect of the last row, which no earlier row carries.
      assert d[j] == rows[|rows| - 1].aspect && !HasAspect(init, d[j]);
      assert d[i] in Distinct(init);
      FirstIndexOfPrefix(rows, d[i]);
      assert FirstIndex(rows, d[j]) == |rows| - 1 by {
        forall k | 0 <= k < |rows| - 1 ensures rows[k].aspect != d[j] {
          assert init[k] == rows[k];
        }
      }
    }
  }

  // ---------------------------------------------------------------------------
  // Properties of the score of one aspect

  /** The score is the rounding, half up, of 100 p / t: 2 t r <= 200 p + t < 2 t (r + 1). */
  lemma RoundedPercentRoundsHalfUp(p: nat, t: nat)
    requires t > 0
    ensures var r := RoundedPercent(p, t); 2 * t * r <= 200 * p + t < 2 * t * (r + 1)
  {
    var r := RoundedPercent(p, t);
    var q := 200 * p + t;
    assert q == (2 * t) * r + q % (2 * t);
  }

  /** With at most `t` positive mentions the score lies in [0, 100]; 50 without data. */
  lemma RoundedPercentBounds(p: nat, t: nat)
    requires p <= t
    ensures 0 <= RoundedPercent(p, t) <= 100
    ensures t == 0 ==> RoundedPercent(p, t) == 50
  {
    if t > 0 {
      RoundedPercentRoundsHalfUp(p, t);
      var r := RoundedPercent(p, t);
      if r > 100 {
        assert 2 * t * r >= 2 * t * 101 by {
          MulMonotone(2 * t, 101, r);
        }
      }
    }
  }

  lemma MulMonotone(a: nat, b: int, c: int)
    requires b <= c
    ensures a * b <= a * c
  {
  }

  /** All-positive data scores 100 and all-negative data (no positive mention) scores 0. */
  lemma RoundedPercentExtremes(t: nat)
    requires t > 0
    ensures RoundedPercent(t, t) == 100
    ensures RoundedPercent(0, t) == 0
  {
    QuotientOf(200 * t + t, 2 * t, 100, t);
    QuotientOf(t, 2 * t, 0, t);
  }

  /**
    When every row of aspect `a` carries the same sentiment, that sentiment's
    bucket holds the whole total.
  */
  lemma {:induction false} UniformBucket(rows: seq<AspectCountRow>, a: Aspect, sentiment: Sentiment)
    requires forall k :: 0 <= k < |rows| && rows[k].aspect == a ==> rows[k].sentiment == sentiment
    ensures sentiment == Pos ==> Bucket(rows, a).positive == Bucket(rows, a).total
    ensures sentiment == Neg ==> Bucket(rows, a).positive == 0
  {
    if rows != [] {
      var init := rows[..|rows| - 1];
      assert forall k :: 0 <= k < |init| ==> init[k] == rows[k];
      UniformBucket(init, a, sentiment);
    }
  }

  /**
    An aspect whose rows are all positive, with some mention, scores 100 on
    the dashboard; one whose rows are all negative scores 0.
  */
  lemma UniformAspectScores(rows: seq<AspectCountRow>, a: Aspect, sentiment: Sentiment)
    requires forall k :: 0 <= k < |rows| && rows[k].aspect == a ==> rows[k].sentiment == sentiment
    requires Bucket(rows, a).total > 0
    ensures sentiment == Pos ==> KeyAreaOf(a, Bucket(rows, a)).score == 100
    ensures sentiment == Neg ==> KeyAreaOf(a, Bucket(rows, a)).score == 0
  {
    UniformBucket(rows, a, sentiment);
    RoundedPercentExtremes(Bucket(rows, a).total);
  }

  /**
    Swapping the positive and negative counts (no neutral mentions) mirrors
    the score around 50, except that a score that lands exactly on .5 rounds
    up both ways: then the two scores add up to 101 instead of 100.
  */
  lemma RoundedPercentSwap(p: nat, t: nat)
    requires 0 < t && p <= t
    ensures (200 * p) % (2 * t) != t ==> RoundedPercent(p, t) + RoundedPercent(t - p, t) == 100
    ensures (200 * p) % (2 * t) == t ==> RoundedPercent(p, t) + RoundedPercent(t - p, t) == 101
  {
    var d := 2 * t;
    var a := 200 * p;
    assert 200 * (t - p) + t == 100 * d - a + t;
    SwapCore(d, t, a, a / d, a % d);
  }

  /**
    The division facts behind the swap, over plain numbers: with
    `a == d q + m`, `0 <= m < d` and `d == 2 t`, the two rounded quotients
    add up to 101 when `m == t` and to 100 otherwise.
  */
  lemma SwapCore(d: int, t: int, a: int, q: int, m: int)
    requires t > 0 && d == 2 * t && a == d * q + m && 0 <= m < d
    ensures m != t ==> (a + t) / d + (100 * d - a + t) / d == 100
    ensures m == t ==> (a + t) / d + (100 * d - a + t) / d == 101
  {
    var dq := d * q;
    Distrib(d, q, 1);
    Distrib(d, 100, -q);
    Distrib(d, 99, -q);
    assert d * (q + 1) == dq + d && d * (100 - q) == 100 * d - dq && d * (99 - q) == 99 * d - dq;
    if m < t {
      QuotientOf(a + t, d, q, m + t);
      QuotientOf(100 * d - a + t, d, 100 - q, t - m);
    } else if m == t {
      QuotientOf(a + t, d, q + 1, 0);
      QuotientOf(100 * d - a + t, d, 100 - q, 0);
    } else {
      QuotientOf(a + t, d, q + 1, m + t - d);
      QuotientOf(100 * d - a + t, d, 99 - q, d + t - m);
    }
  }

  lemma Distrib(d: int, x: int, y: int)
    ensures d * (x + y) == d * x + d * y
  {
  }

  /** `x div d == q` when `x == d q + m` with `0 <= m < d`. */
  lemma QuotientOf(x: int, d: int, q: int, m: int)
    requires d > 0 && 0 <= m < d && x == d * q + m
    ensures x / d == q
  {
    Distrib(d, q, 1);
    Quotient(x, d, q);
  }

  /** `x div d == q` as soon as `d q <= x < d (q + 1)`. */
  lemma Quotient(x: int, d: int, q: int)
    requires d > 0 && d * q <= x < d * (q + 1)
    ensures x / d == q
  {
    var r := x / d;
    assert x == d * r + x % d;
    if r < q {
      MulMonotone(d, r + 1, q);
    } else if r > q {
      MulMonotone(d, q + 1, r);
    }
  }

  /** A name without underscores is only lowercased. */
  lemma LabelWithoutUnderscore(name: string)
    requires '_' !in name
    ensures AspectLabel(name) == Lower(name)
  {
    var lowered := Lower(name);
    forall j | 0 <= j <= |lowered| ensures !OccursAt(lowered, "_", j) {
      if j + 1 <= |lowered| {
        assert lowered[j..j + 1][0] == lowered[j] == LowerChar(name[j]);
      }
    }
  }

  /** Only the first underscore becomes a space; any later one stays. */
  lemma FirstUnderscoreReplaced(before: string, after: string)
    requires '_' !in before
    ensures ReplaceFirst(before + "_" + after, "_", " ") == before + " " + after
  {
    var s := before + "_" + after;
    assert OccursAt(s, "_", |before|) by {
      assert s[|before|..|before| + 1] == "_";
    }
    forall j | 0 <= j < |before| ensures !OccursAt(s, "_", j) {
      assert s[j..j + 1][0] == s[j] == before[j];
    }
    assert IndexOf(s, "_") == Some(|before|);
    assert s[..|before|] == before && s[|before| + 1..] == after;
  }

  /** The label of a name without underscores is its lower-cased form, given character by character. */
  lemma LabelOf(name: string, lowered: string)
    requires '_' !in name
    requires |name| == |lowered| && forall i :: 0 <= i < |name| ==> LowerChar(name[i]) == lowered[i]
    ensures AspectLabel(name) == lowered
  {
    LabelWithoutUnderscore(name);
    LowerLiteral(name, lowered);
  }

  /**
    The label of a name whose lower-cased form has its first underscore at
    `k`: that underscore becomes a space.
  */
  lemma LabelAt(name: string, lowered: string, spaced: string, k: nat)
    requires |name| == |lowered| && forall i :: 0 <= i < |name| ==> LowerChar(name[i]) == lowered[i]
    requires k < |lowered| && lowered[k] == '_' && forall j :: 0 <= j < k ==> lowered[j] != '_'
    requires |spaced| == |lowered| && forall i :: 0 <= i < |lowered| ==> spaced[i] == if i == k then ' ' else lowered[i]
    ensures AspectLabel(name) == spaced
  {
    LowerLiteral(name, lowered);
    var before, after := lowered[..k], lowered[k + 1..];
    assert lowered == before + "_" + after;
    assert spaced == before + " " + after;
    assert '_' !in before by {
      forall j | 0 <= j < |before| ensures before[j] != '_' {
        assert before[j] == lowered[j];
      }
    }
    FirstUnderscoreReplaced(before, after);
  }

  /** The dashboard labels of the six aspects. */
  lemma AspectLabelOf(a: Aspect)
    ensures AspectLabel(AspectName(a)) ==
      match a
      case Cleanliness => "cleanliness"
      case Staff => "staff"
      case FoodQuality => "food quality"
      case Value => "value"
      case Location => "location"
      case Speed => "speed"
  {
    match a
    case Cleanliness => LabelOf("CLEANLINESS", "cleanliness");
    case Staff => LabelOf("STAFF", "staff");
    case FoodQuality => LabelAt("FOOD_QUALITY", "food_quality", "food quality", 4);
    case Value => LabelOf("VALUE", "value");
    case Location => LabelOf("LOCATION", "location");
    case Speed => LabelOf("SPEED", "speed");
  }

  // ---------------------------------------------------------------------------
  // Overall sentiment of one review

  datatype Overall = Positive | Negative | Neutral

  function Sum(scores: seq<int>): int {
    if scores == [] then 0 else scores[0] + Sum(scores[1..])
  }

  /**
    `calculateOverallSentiment`: no aspect gives neutral; otherwise the average
    aspect score decides, `avg >= 70` positive, `avg <= 40` negative. The
    average is compared without dividing: `sum >= 70 n` and `sum <= 40 n`.
    The unit of the scores is left open, the thresholds are in the same unit.
  */
  function OverallSentiment(scores: seq<int>): Overall {
    if |scores| == 0 then Overall.Neutral
    else if Sum(scores) >= 70 * |scores| then Positive
    else if Sum(scores) <= 40 * |scores| then Negative
    else Overall.Neutral
  }

  /** The average score, as the source computes it with a division. */
  function Average(scores: seq<int>): real
    requires |scores| > 0
  {
    Sum(scores) as real / |scores| as real
  }

  /** The integer comparison decides exactly as the average does. */
  lemma OverallSentimentByAverage(scores: seq<int>)
    requires |scores| > 0
    ensures OverallSentiment(scores) == Positive <==> Average(scores) >= 70.0
    ensures OverallSentiment(scores) == Negative <==> Average(scores) <= 40.0
    ensures OverallSentiment(scores) == Overall.Neutral <==> 40.0 < Average(scores) < 70.0
  {
    var n := |scores| as real;
    var s := Sum(scores) as real;
    var avg := Average(scores);
    assert avg * n == s;
    AverageCompare(s, n, avg, 70.0);
    AverageCompare(s, n, avg, 40.0);
  }

  lemma AverageCompare(s: real, n: real, avg: real, bound: real)
    requires n > 0.0 && avg * n == s
    ensures avg >= bound <==> s >= bound * n
    ensures avg <= bound <==> s <= bound * n
  {
    if avg >= bound {
      assert avg * n >= bound * n;
    }
    if avg < bound {
      assert avg * n < bound * n;
    }
    if avg <= bound {
      assert avg * n <= bound * n;
    }
    if avg > bound {
      assert avg * n > bound * n;
    }
  }

  lemma OverallSentimentEmpty()
    ensures OverallSentiment([]) == Overall.Neutral
  {
  }

  // ---------------------------------------------------------------------------
  // Dashboard counters and the service copy of the brand-fit score

  predicate IsPositiveRating(rating: int) { rating >= 4 }

  /** `reviews.filter(r => r.rating >= 4).length`. */
  function PositiveReviews(ratings: seq<int>): (k: nat)
    ensures k <= |ratings|
  {
    |Filter(IsPositiveRating, ratings)|
  }

  /**
    The positive-review count counts exactly the ratings of at least 4: it is
    additive over any split of the reviews, and one review counts 1 iff its
    rating is at least 4.
  */
  lemma PositiveReviewsCounts(a: seq<int>, b: seq<int>, rating: int)
    ensures PositiveReviews(a + b) == PositiveReviews(a) + PositiveReviews(b)
    ensures PositiveReviews([rating]) == if rating >= 4 then 1 else 0
  {
    FilterConcat(IsPositiveRating, a, b);
    assert [rating][1..] == [];
  }

  /** The service's copy of the brand-fit formula, run as written. */
  method CalculateBrandFitScore(creator: BrandFit.Creator) returns (score: int)
    ensures score == BrandFit.Score(creator)
  {
    score := 0;

    var nicheOverlap := BrandFit.NicheOverlap(creator.niches);
    score := score + Min(nicheOverlap * 15, 60);

    if BrandFit.FieldContains(creator.country, "jamaica") || BrandFit.FieldContains(creator.city, "caribbean") {
      score := score + 30;
    } else if BrandFit.FieldContains(creator.country, "caribbean") {
      score := score + 20;
    } else {
      score := score + 10;
    }

    var engagementRate := BrandFit.RateOrZero(creator.engagementRate);
    if engagementRate > 800 {
      score := score + 10;
    } else if engagementRate > 500 {
      score := score + 7;
    } else if engagementRate > 300 {
      score := score + 5;
    }

    score := Min(score, 100);
  }
}
