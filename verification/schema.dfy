/**
  The enumerations of the relational schema, with the text each is stored
  and sent as, and the rows of the tables the modelled logic reads.
*/
module Schema {
  import opened Wrappers

  datatype UserRole = Owner | Creator

  /** The role of a user within one organization. */
  datatype MemberRole = OrgOwner | OrgAdmin | OrgMember

  datatype Aspect = Cleanliness | Staff | FoodQuality | Value | Location | Speed

  datatype Sentiment = Neg | Neutral | Pos

  datatype Severity = Low | Medium | High

  datatype TrainingFormat = Doc | Video

  datatype UsageEventType = AiCall | Upload

  /** A review to insert (the database assigns the id and the timestamp). */
  datatype InsertReview = InsertReview(
    organizationId: string,
    sourceId: string,
    author: string,
    rating: int,
    text: string)

  /** A stored review: the inserted fields and the id the database assigned. */
  datatype Review = Review(id: nat, fields: InsertReview)

  /** A row of the training-resource table; `url` and `markdown` may be null. */
  datatype TrainingResource = TrainingResource(
    id: string,
    category: string,
    title: string,
    format: TrainingFormat,
    url: Option<string>,
    markdown: Option<string>)

  /** The enum label of an aspect as it appears in rows and JSON. */
  function AspectName(a: Aspect): (r: string)
    ensures |r| > 0
  {
    match a
    case Cleanliness => "CLEANLINESS"
    case Staff => "STAFF"
    case FoodQuality => "FOOD_QUALITY"
    case Value => "VALUE"
    case Location => "LOCATION"
    case Speed => "SPEED"
  }

  function SentimentName(s: Sentiment): (r: string)
    ensures |r| > 0
  {
    match s
    case Neg => "NEG"
    case Neutral => "NEUTRAL"
    case Pos => "POS"
  }

  /** Distinct enum values are stored as distinct labels. */
  lemma AspectNameInjective(a: Aspect, b: Aspect)
    ensures AspectName(a) == AspectName(b) ==> a == b
  {
  }
}
