/**
  The brand-fit score: how well a content creator suits the fixed
  hospitality/travel brand profile, as an integer in [0, 100].

  The repository writes this formula out three times (the route helper, the
  analytics service and the creator card); here it is defined once, as
  `Score`, and each copy is a method proved equal to it.

  The engagement rate is a `decimal(5,2)` column, so it is modelled as an
  integer number of hundredths of a percentage point: 8.2% is 820, and the
  thresholds 8, 5 and 3 become 800, 500 and 300. An absent field, a null and
  a rate that does not parse (NaN) are all `None`.
*/
module BrandFit {
  import opened Wrappers
  import opened Ascii
  import opened Seqs

  /** The fields of a creator record the score reads; the others are irrelevant to it. */
  datatype Creator = Creator(
    niches: Option<seq<string>>,
    country: Option<string>,
    city: Option<string>,
    engagementRate: Option<int>)

  /** The niche tokens of the target business. */
  const HotelNiches: seq<string> := ["travel", "tourism", "luxury", "lifestyle"]

  /** A niche tag counts when its lowercase form contains any of the hotel niche tokens. */
  predicate IsHotelNiche(tag: string) {
    exists i | 0 <= i < |HotelNiches| :: Contains(Lower(tag), HotelNiches[i])
  }

  /** The number of niche TAGS (not tokens) that match; absent niches count as none. */
  function NicheOverlap(niches: Option<seq<string>>): nat {
    match niches
    case None => 0
    case Some(tags) => |Filter(IsHotelNiche, tags)|
  }

  /** `field?.toLowerCase().includes(token)`: an absent field never matches. */
  predicate FieldContains(field: Option<string>, token: string) {
    field.Some? && Contains(Lower(field.value), token)
  }

  /** The rate the engagement tiers compare: `parseFloat(rate) || 0`, in hundredths. */
  function RateOrZero(rate: Option<int>): int {
    rate.GetOr(0)
  }

  function NicheComponent(c: Creator): (r: int)
    ensures 0 <= r <= 60 && r % 15 == 0
  {
    Min(NicheOverlap(c.niches) * 15, 60)
  }

  function LocationComponent(c: Creator): (r: int)
    ensures r == 10 || r == 20 || r == 30
  {
    if FieldContains(c.country, "jamaica") || FieldContains(c.city, "caribbean") then 30
    else if FieldContains(c.country, "caribbean") then 20
    else 10
  }

  /** The engagement bonus for a rate in hundredths: only the highest tier that applies is paid. */
  function EngagementBonus(rate: int): (r: int)
    ensures r == 0 || r == 5 || r == 7 || r == 10
  {
    if rate > 800 then 10
    else if rate > 500 then 7
    else if rate > 300 then 5
    else 0
  }

  /** The brand-fit score of a creator: the three components added, capped at 100. */
  function Score(c: Creator): (s: int)
    ensures 0 <= s <= 100
  {
    Min(NicheComponent(c) + LocationComponent(c) + EngagementBonus(RateOrZero(c.engagementRate)), 100)
  }

  /**
    The score is never below 10 (every creator gets the location default) and
    the cap at 100 never bites: the components add up to at most 60 + 30 + 10.
  */
  lemma ScoreIsSumOfComponents(c: Creator)
    ensures Score(c) == NicheComponent(c) + LocationComponent(c) + EngagementBonus(RateOrZero(c.engagementRate))
    ensures 10 <= Score(c) <= 100
  {
  }

  /** The niche component is `min(15 k, 60)` for `k` matching tags, so four or more matching tags saturate it. */
  lemma NicheComponentSaturates(c: Creator)
    ensures NicheOverlap(c.niches) >= 4 ==> NicheComponent(c) == 60
    ensures NicheOverlap(c.niches) < 4 ==> NicheComponent(c) == 15 * NicheOverlap(c.niches)
  {
  }

  /** Exactly one location tier applies, in priority order. */
  lemma LocationTiers(c: Creator)
    ensures LocationComponent(c) == 30 <==> FieldContains(c.country, "jamaica") || FieldContains(c.city, "caribbean")
    ensures LocationComponent(c) == 20 <==>
      !(FieldContains(c.country, "jamaica") || FieldContains(c.city, "caribbean")) && FieldContains(c.country, "caribbean")
    ensures LocationComponent(c) == 10 <==>
      !FieldContains(c.country, "jamaica") && !FieldContains(c.city, "caribbean") && !FieldContains(c.country, "caribbean")
  {
  }

  /** The bonus is non-cumulative and never decreases as the rate grows. */
  lemma EngagementBonusMonotone(r1: int, r2: int)
    requires r1 <= r2
    ensures EngagementBonus(r1) <= EngagementBonus(r2)
  {
  }

  /** An unparseable or absent rate is paid like a rate of zero: no bonus. */
  lemma MissingRateEarnsNothing(c: Creator)
    requires c.engagementRate.None?
    ensures EngagementBonus(RateOrZero(c.engagementRate)) == 0
  {
  }

  /** The matching tags are exactly the tags that contain a hotel niche token, in their order. */
  lemma NicheOverlapCounts(tags: seq<string>)
    ensures NicheOverlap(Some(tags)) == |Filter(IsHotelNiche, tags)|
    ensures forall t :: t in Filter(IsHotelNiche, tags) <==> t in tags && IsHotelNiche(t)
    ensures NicheOverlap(Some(tags)) <= |tags|
  {
    FilterMembers(IsHotelNiche, tags);
  }

  /**
    A creator with no matching niche, no location match and an engagement
    rate of at most 3% scores exactly 10, the least score any creator gets.
  */
  lemma MinimumScore(c: Creator)
    requires NicheOverlap(c.niches) == 0
    requires !FieldContains(c.country, "jamaica") && !FieldContains(c.city, "caribbean")
    requires !FieldContains(c.country, "caribbean")
    requires RateOrZero(c.engagementRate) <= 300
    ensures Score(c) == 10
    ensures forall d: Creator :: Score(c) <= Score(d)
  {
    forall d: Creator ensures Score(c) <= Score(d) {
      ScoreIsSumOfComponents(d);
    }
  }

  // ---------------------------------------------------------------------------
  // The three seeded creators, as concrete checks of the formula.

  /** `t` does not occur in `s` when no position that leaves room for `t` holds its first character. */
  lemma {:induction false} NotContained(s: string, t: string)
    requires |t| > 0
    requires forall i :: 0 <= i && i + |t| <= |s| ==> s[i] != t[0]
    ensures !Contains(s, t)
  {
    forall i | 0 <= i <= |s| ensures !OccursAt(s, t, i) {
      if i + |t| <= |s| {
        assert s[i..i + |t|][0] == s[i];
      }
    }
  }

  lemma {:induction false} ContainedAt(s: string, t: string, i: nat)
    requires i + |t| <= |s| && s[i..i + |t|] == t
    ensures Contains(s, t)
  {
    assert OccursAt(s, t, i);
  }

  lemma HotelTags()
    ensures IsHotelNiche("travel") && IsHotelNiche("tourism")
    ensures IsHotelNiche("luxury") && IsHotelNiche("lifestyle")
    ensures !IsHotelNiche("food") && !IsHotelNiche("culture")
  {
    TokenIsHotelNiche(0);
    TokenIsHotelNiche(1);
    TokenIsHotelNiche(2);
    TokenIsHotelNiche(3);
    FoodAndCultureAreNot();
  }

  /** Every hotel token, used as a tag, matches itself. */
  lemma TokenIsHotelNiche(k: nat)
    requires k < |HotelNiches|
    ensures IsHotelNiche(HotelNiches[k])
  {
    var tag := HotelNiches[k];
    LowerWithoutUpper(tag);
    ContainedAt(Lower(tag), HotelNiches[k], 0);
  }

  lemma FoodAndCultureAreNot()
    ensures !IsHotelNiche("food") && !IsHotelNiche("culture")
  {
    LowerWithoutUpper("food");
    LowerWithoutUpper("culture");
    forall i | 0 <= i < |HotelNiches| ensures !Contains("food", HotelNiches[i]) && !Contains("culture", HotelNiches[i]) {
      NotContained("food", HotelNiches[i]);
      NotContained("culture", HotelNiches[i]);
    }
  }

  /** Maya Thompson: travel, luxury, lifestyle; Kingston, Jamaica; 8.2%. */
  const Maya := Creator(Some(["travel", "luxury", "lifestyle"]), Some("Jamaica"), Some("Kingston"), Some(820))
  /** Marcus Johnson: food, culture, tourism; Montego Bay, Jamaica; 6.1%. */
  const Marcus := Creator(Some(["food", "culture", "tourism"]), Some("Jamaica"), Some("Montego Bay"), Some(610))
  /** Sophia Williams: luxury, travel, lifestyle; Bridgetown, Barbados; 5.4%. */
  const Sophia := Creator(Some(["luxury", "travel", "lifestyle"]), Some("Barbados"), Some("Bridgetown"), Some(540))

  /** Matching niches of a three-tag list, tag by tag. */
  lemma {:induction false} ThreeTags(a: string, b: string, c: string)
    ensures Filter(IsHotelNiche, [a, b, c]) ==
      (if IsHotelNiche(a) then [a] else []) + (if IsHotelNiche(b) then [b] else []) + (if IsHotelNiche(c) then [c] else [])
  {
    var tags := [a, b, c];
    assert tags[1..] == [b, c] && [b, c][1..] == [c] && [c][1..] == [];
    assert Filter(IsHotelNiche, [c]) == (if IsHotelNiche(c) then [c] else []) + Filter(IsHotelNiche, []);
    assert Filter(IsHotelNiche, [b, c]) == (if IsHotelNiche(b) then [b] else []) + Filter(IsHotelNiche, [c]);
    assert Filter(IsHotelNiche, tags) == (if IsHotelNiche(a) then [a] else []) + Filter(IsHotelNiche, [b, c]);
  }

  lemma JamaicaMatches()
    ensures FieldContains(Some("Jamaica"), "jamaica")
  {
    assert Lower("Jamaica") == "jamaica";
    ContainedAt("jamaica", "jamaica", 0);
  }

  lemma MayaScores85()
    ensures Score(Maya) == 85
  {
    HotelTags();
    ThreeTags("travel", "luxury", "lifestyle");
    JamaicaMatches();
  }

  lemma MarcusScores52()
    ensures Score(Marcus) == 52
  {
    HotelTags();
    ThreeTags("food", "culture", "tourism");
    JamaicaMatches();
  }

  lemma SophiaScores62()
    ensures Score(Sophia) == 62
  {
    HotelTags();
    ThreeTags("luxury", "travel", "lifestyle");
    BarbadosIsElsewhere();
  }

  lemma BarbadosIsElsewhere()
    ensures !FieldContains(Some("Barbados"), "jamaica")
    ensures !FieldContains(Some("Barbados"), "caribbean")
    ensures !FieldContains(Some("Bridgetown"), "caribbean")
  {
    assert Lower("Barbados") == "barbados";
    assert Lower("Bridgetown") == "bridgetown";
    NotContained("barbados", "jamaica");
    NotContained("barbados", "caribbean");
    NotContained("bridgetown", "caribbean");
  }
}
