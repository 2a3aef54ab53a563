/**
  The creator card: the client's own copy of the brand-fit formula, the
  choice between the server's score and the local one, and the colour tier
  the score is drawn in.
*/
module CreatorCard {
  import opened Wrappers
  import opened Seqs
  import BrandFit

  /**
    The card's copy of the brand-fit formula, run as written. The card reads
    the rate with `creator.engagementRate || 0` rather than `parseFloat`; on a
    numeric rate both read the same number, and a missing rate reads as 0.
  */
  method CalculateBrandFitScore(creator: BrandFit.Creator) returns (score: int)
    ensures score == BrandFit.Score(creator)
    ensures 0 <= score <= 100
  {
    score := 0;

    var nicheOverlap := BrandFit.NicheOverlap(creator.niches);
    score := score + Min(nicheOverlap * 15, 60);

    if BrandFit.FieldContains(creator.country, "jamaica") || BrandFit.FieldContains(creator.city, "caribbean") {
      score := score + 30;
    } else if BrandFit.FieldContains(creator.country, "caribbean") {
      score := score + 20;
    } else {
      score := score + 10;
    }

    var engagementRate := creator.engagementRate.GetOr(0);
    if engagementRate > 800 {
      score := score + 10;
    } else if engagementRate > 500 {
      score := score + 7;
    } else if engagementRate > 300 {
      score := score + 5;
    }

    score := Min(score, 100);
  }

  /**
    `creator.brandFitScore || calculateBrandFitScore(creator)`: the server's
    score when it is present and non-zero, else the locally computed one.
  */
  function DisplayedScore(serverScore: Option<int>, creator: BrandFit.Creator): (s: int)
    ensures serverScore.Some? && serverScore.value != 0 ==> s == serverScore.value
    ensures serverScore.None? || serverScore.value == 0 ==> s == BrandFit.Score(creator)
  {
    if serverScore.Some? && serverScore.value != 0 then serverScore.value else BrandFit.Score(creator)
  }

  /**
    Whether or not the server sent its score, the card shows the score of the
    one formula: a server score is never 0 (every creator scores at least 10),
    so it is never replaced, and without one the card computes the same value.
  */
  lemma DisplayedScoreAgrees(creator: BrandFit.Creator, sent: bool)
    ensures DisplayedScore(if sent then Some(BrandFit.Score(creator)) else None, creator) == BrandFit.Score(creator)
    ensures 0 <= DisplayedScore(if sent then Some(BrandFit.Score(creator)) else None, creator) <= 100
  {
    BrandFit.ScoreIsSumOfComponents(creator);
  }

  /** The three colour tiers, best first. */
  datatype Tier = Emerald | Yellow | Orange

  /** The tier a score falls in: 90 and above, 70 to 89, below 70. */
  function TierOf(score: int): Tier {
    if score >= 90 then Emerald else if score >= 70 then Yellow else Orange
  }

  function Rank(t: Tier): nat {
    match t
    case Emerald => 2
    case Yellow => 1
    case Orange => 0
  }

  function TierName(t: Tier): string {
    match t
    case Emerald => "emerald"
    case Yellow => "yellow"
    case Orange => "orange"
  }

  /** `getBrandFitColor`. */
  function BrandFitColor(score: int): string {
    if score >= 90 then "bg-emerald-400"
    else if score >= 70 then "bg-yellow-400"
    else "bg-orange-400"
  }

  /** `getBrandFitTextColor`. */
  function BrandFitTextColor(score: int): string {
    if score >= 90 then "text-emerald-600"
    else if score >= 70 then "text-yellow-600"
    else "text-orange-600"
  }

  /**
    The background and the text colour are both the colour of the score's
    tier, so the two never disagree about the tier.
  */
  lemma ColoursFollowTier(score: int)
    ensures BrandFitColor(score) == "bg-" + TierName(TierOf(score)) + "-400"
    ensures BrandFitTextColor(score) == "text-" + TierName(TierOf(score)) + "-600"
  {
    match TierOf(score)
    case Emerald => EmeraldSpelling();
    case Yellow => YellowSpelling();
    case Orange => OrangeSpelling();
  }

  // Each tier's colour classes, spelled as the prefix, the tier's name and the shade.

  lemma EmeraldSpelling()
    ensures "bg-emerald-400" == "bg-" + TierName(Emerald) + "-400" && "text-emerald-600" == "text-" + TierName(Emerald) + "-600"
  {
  }

  lemma YellowSpelling()
    ensures "bg-yellow-400" == "bg-" + TierName(Yellow) + "-400" && "text-yellow-600" == "text-" + TierName(Yellow) + "-600"
  {
  }

  lemma OrangeSpelling()
    ensures "bg-orange-400" == "bg-" + TierName(Orange) + "-400" && "text-orange-600" == "text-" + TierName(Orange) + "-600"
  {
  }

  /** Distinct tiers are drawn in distinct colours, so the colour tells the tier. */
  lemma ColourDeterminesTier(s1: int, s2: int)
    ensures BrandFitColor(s1) == BrandFitColor(s2) <==> TierOf(s1) == TierOf(s2)
    ensures BrandFitTextColor(s1) == BrandFitTextColor(s2) <==> TierOf(s1) == TierOf(s2)
  {
    ColoursFollowTier(s1);
    ColoursFollowTier(s2);
    if TierOf(s1) != TierOf(s2) {
      assert BrandFitColor(s1)[3] != BrandFitColor(s2)[3];
      assert BrandFitTextColor(s1)[5] != BrandFitTextColor(s2)[5];
    }
  }

  /** A higher score never falls in a lower tier. */
  lemma TierMonotone(s1: int, s2: int)
    requires s1 <= s2
    ensures Rank(TierOf(s1)) <= Rank(TierOf(s2))
  {
  }

  /** The seeded creators: Maya is drawn yellow, Marcus and Sophia orange; nobody reaches emerald without 90 points. */
  lemma SeedCreatorTiers()
    ensures TierOf(BrandFit.Score(BrandFit.Maya)) == Yellow
    ensures TierOf(BrandFit.Score(BrandFit.Marcus)) == Orange
    ensures TierOf(BrandFit.Score(BrandFit.Sophia)) == Orange
  {
    BrandFit.MayaScores85();
    BrandFit.MarcusScores52();
    BrandFit.SophiaScores62();
  }
}
