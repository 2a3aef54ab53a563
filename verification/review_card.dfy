/**
  The review card: the star row, the compact text, the aspect badges'
  labels and their sentiment colours.
*/
module ReviewCard {
  import opened Ascii
  import opened Seqs
  import opened Schema
  import Analytics

  // ---------------------------------------------------------------------------
  // Stars

  /** The first `n` stars of a rating: star `i` is filled when `i < rating`. */
  function StarRow(rating: int, n: nat): (stars: seq<bool>)
    ensures |stars| == n
    ensures forall i :: 0 <= i < n ==> (stars[i] <==> i < rating)
  {
    seq(n, i requires 0 <= i < n => i < rating)
  }

  /** `renderStars(rating)`: always five stars. */
  function Stars(rating: int): seq<bool> {
    StarRow(rating, 5)
  }

  function FilledCount(stars: seq<bool>): nat {
    |Filter(b => b, stars)|
  }

  lemma {:induction false} StarRowFilled(rating: int, n: nat)
    ensures FilledCount(StarRow(rating, n)) == Min(Max(rating, 0), n)
  {
    if n > 0 {
      StarRowFilled(rating, n - 1);
      assert StarRow(rating, n) == StarRow(rating, n - 1) + [n - 1 < rating];
      FilterConcat(b => b, StarRow(rating, n - 1), [n - 1 < rating]);
      assert Filter(b => b, [n - 1 < rating]) == if n - 1 < rating then [true] else [];
    }
  }

  /**
    Five stars are drawn; the number filled is the rating clamped to 0..5,
    and the filled stars come first.
  */
  lemma StarsSpec(rating: int)
    ensures |Stars(rating)| == 5
    ensures FilledCount(Stars(rating)) == Min(Max(rating, 0), 5)
    ensures forall i, j :: 0 <= i < j < 5 && Stars(rating)[j] ==> Stars(rating)[i]
  {
    StarRowFilled(rating, 5);
  }

  // ---------------------------------------------------------------------------
  // Text

  /** The card's text: in full when detailed, else cut at 200 characters with "..." when cut. */
  function DisplayText(text: string, detailed: bool): (shown: string)
    ensures detailed ==> shown == text
    ensures !detailed ==> |shown| <= 203
    ensures !detailed ==> text[..Min(|text|, 200)] <= shown
  {
    if detailed then text
    else text[..Min(|text|, 200)] + (if |text| > 200 then "..." else "")
  }

  /** A short text is shown unchanged even on a compact card. */
  lemma ShortTextUnchanged(text: string)
    requires |text| <= 200
    ensures DisplayText(text, false) == text
  {
    assert text[..|text|] == text;
  }

  /** A long text is cut to its first 200 characters and marked with "...". */
  lemma LongTextCut(text: string)
    requires |text| > 200
    ensures DisplayText(text, false) == text[..200] + "..."
    ensures |DisplayText(text, false)| == 203
  {
  }

  // ---------------------------------------------------------------------------
  // Aspect badges

  /** `aspectLabels`. */
  const AspectLabels: map<string, string> := map[
    "CLEANLINESS" := "Cleanliness",
    "STAFF" := "Staff",
    "FOOD_QUALITY" := "Food Quality",
    "VALUE" := "Value",
    "LOCATION" := "Location",
    "SPEED" := "Speed"]

  /** `aspectLabels[aspect] || aspect`. */
  function BadgeLabel(aspect: string): string {
    if aspect in AspectLabels && AspectLabels[aspect] != "" then AspectLabels[aspect] else aspect
  }

  /** The human label of each aspect of the schema. */
  function HumanLabel(a: Aspect): string {
    match a
    case Cleanliness => "Cleanliness"
    case Staff => "Staff"
    case FoodQuality => "Food Quality"
    case Value => "Value"
    case Location => "Location"
    case Speed => "Speed"
  }

  /** Every schema aspect gets its human label, and any other string is shown raw. */
  lemma BadgeLabelSpec(a: Aspect, other: string)
    requires forall b: Aspect :: other != AspectName(b)
    ensures BadgeLabel(AspectName(a)) == HumanLabel(a)
    ensures BadgeLabel(other) == other
  {
    assert other != AspectName(Cleanliness) && other != AspectName(Staff) && other != AspectName(FoodQuality);
    assert other != AspectName(Value) && other != AspectName(Location) && other != AspectName(Speed);
  }

  /** The lower-cased human labels. */
  lemma LowerHumanLabel(a: Aspect)
    ensures Lower(HumanLabel(a)) ==
      match a
      case Cleanliness => "cleanliness"
      case Staff => "staff"
      case FoodQuality => "food quality"
      case Value => "value"
      case Location => "location"
      case Speed => "speed"
  {
    match a
    case Cleanliness => LowerLiteral("Cleanliness", "cleanliness");
    case Staff => LowerLiteral("Staff", "staff");
    case FoodQuality => LowerLiteral("Food Quality", "food quality");
    case Value => LowerLiteral("Value", "value");
    case Location => LowerLiteral("Location", "location");
    case Speed => LowerLiteral("Speed", "speed");
  }

  /** The card's badge and the dashboard's key-area label name every aspect with the same words, up to capitals. */
  lemma BadgeAgreesWithKeyArea(a: Aspect)
    ensures Lower(BadgeLabel(AspectName(a))) == Analytics.AspectLabel(AspectName(a))
  {
    BadgeLabelSpec(a, "");
    Analytics.AspectLabelOf(a);
    LowerHumanLabel(a);
  }

  /** `getSentimentColor`. */
  function SentimentColor(sentiment: string): string {
    if sentiment == "POS" then "bg-emerald-100 text-emerald-800"
    else if sentiment == "NEG" then "bg-red-100 text-red-800"
    else "bg-slate-100 text-slate-800"
  }

  /**
    Positive badges are emerald, negative ones red, neutral ones and any
    other value slate; the three sentiments are told apart by colour.
  */
  lemma SentimentColorSpec(s: Sentiment, other: string)
    requires other != "POS" && other != "NEG"
    ensures SentimentColor(SentimentName(Pos)) == "bg-emerald-100 text-emerald-800"
    ensures SentimentColor(SentimentName(Neg)) == "bg-red-100 text-red-800"
    ensures SentimentColor(SentimentName(Neutral)) == SentimentColor(other) == "bg-slate-100 text-slate-800"
    ensures forall t: Sentiment :: SentimentColor(SentimentName(s)) == SentimentColor(SentimentName(t)) ==> s == t
  {
    assert "NEUTRAL" != "POS" && "NEUTRAL" != "NEG";
    assert "bg-emerald-100 text-emerald-800"[3] != "bg-red-100 text-red-800"[3];
    assert "bg-emerald-100 text-emerald-800"[3] != "bg-slate-100 text-slate-800"[3];
    assert "bg-red-100 text-red-800"[3] != "bg-slate-100 text-slate-800"[3];
  }
}
