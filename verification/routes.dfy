/**
  The two pieces of logic in the route layer: the route copy of the
  brand-fit formula, and the mapping of uploaded CSV rows to new reviews.
*/
module Routes {
  import opened Wrappers
  import opened Seqs
  import opened Parsing
  import opened Schema
  import BrandFit

  /**
    The route's own copy of the brand-fit formula, run as written: a local
    `score` built up by successive additions, then capped at 100.
  */
  method CalculateBrandFitScore(creator: BrandFit.Creator) returns (score: int)
    ensures score == BrandFit.Score(creator)
  {
    score := 0;

    var nicheOverlap := BrandFit.NicheOverlap(creator.niches);
    score := score + Min(nicheOverlap * 15, 60);

    if BrandFit.FieldContains(creator.country, "jamaica") || BrandFit.FieldContains(creator.city, "caribbean") {
      score := score + 30;
    } else if BrandFit.FieldContains(creator.country, "caribbean") {
      score := score + 20;
    } else {
      score := score + 10;
    }

    var engagementRate := BrandFit.RateOrZero(creator.engagementRate);
    if engagementRate > 800 {
      score := score + 10;
    } else if engagementRate > 500 {
      score := score + 7;
    } else if engagementRate > 300 {
      score := score + 5;
    }

    score := Min(score, 100);
  }

  // ---------------------------------------------------------------------------
  // CSV upload: parsed rows (header names as keys) become new reviews.

  /** One parsed CSV row; a column that is missing from the file is `None`. */
  datatype CsvRow = CsvRow(
    author: Option<string>,
    rating: Option<string>,
    text: Option<string>,
    review: Option<string>)

  const CsvSourceId := "csv-source"

  /** `cell || fallback` for a text cell: missing and empty cells are both falsy. */
  function TextOr(cell: Option<string>, fallback: string): (r: string)
    ensures cell.Some? && cell.value != "" ==> r == cell.value
    ensures cell.None? || cell.value == "" ==> r == fallback
  {
    if cell.Some? && cell.value != "" then cell.value else fallback
  }

  /** The text of a row: the `text` column, else the `review` column, else "". */
  function RowText(row: CsvRow): string {
    TextOr(row.text, TextOr(row.review, ""))
  }

  /** One row as a review of the route's organization, with the defaults of the upload route. */
  function MapRow(orgId: string, row: CsvRow): (r: InsertReview)
    ensures r.organizationId == orgId && r.sourceId == CsvSourceId
    ensures r.author == TextOr(row.author, "Anonymous")
    ensures r.rating == IntOr(ParseInt(row.rating), 5)
    ensures r.text == RowText(row)
    ensures r.rating != 0
  {
    InsertReview(orgId, CsvSourceId, TextOr(row.author, "Anonymous"), IntOr(ParseInt(row.rating), 5), RowText(row))
  }

  /** `.filter(r => r.text && r.rating)`: both fields must be truthy. */
  predicate Truthy(r: InsertReview) {
    r.text != "" && r.rating != 0
  }

  /** `rows.map(...).filter(...)`. */
  function CsvToReviews(orgId: string, rows: seq<CsvRow>): seq<InsertReview> {
    Filter(Truthy, seq(|rows|, i requires 0 <= i < |rows| => MapRow(orgId, rows[i])))
  }

  /** The defaults: author "Anonymous", rating 5 for a NaN or zero rating, text from `text`, then `review`, then "". */
  lemma MapRowDefaults(orgId: string, row: CsvRow)
    ensures row.author.None? || row.author == Some("") ==> MapRow(orgId, row).author == "Anonymous"
    ensures ParseInt(row.rating).None? || ParseInt(row.rating) == Some(0) ==> MapRow(orgId, row).rating == 5
    ensures (row.text.None? || row.text == Some("")) && row.review.Some? && row.review.value != "" ==>
      MapRow(orgId, row).text == row.review.value
    ensures (row.text.None? || row.text == Some("")) && (row.review.None? || row.review == Some("")) ==>
      MapRow(orgId, row).text == ""
  {
  }

  /** The rating half of the filter never drops a row: a mapped rating is never 0. */
  lemma KeptIffText(orgId: string, row: CsvRow)
    ensures Truthy(MapRow(orgId, row)) <==> RowText(row) != ""
  {
  }

  /** A single row is kept, as its mapped review, exactly when its text is non-empty. */
  lemma CsvOneRow(orgId: string, row: CsvRow)
    ensures CsvToReviews(orgId, [row]) == if RowText(row) != "" then [MapRow(orgId, row)] else []
  {
    var mapped := seq(1, i requires 0 <= i < 1 => MapRow(orgId, [row][i]));
    assert mapped == [MapRow(orgId, row)];
    assert mapped[1..] == [];
  }

  /** Uploading two files' rows at once gives the reviews of each, in order. */
  lemma CsvConcat(orgId: string, a: seq<CsvRow>, b: seq<CsvRow>)
    ensures CsvToReviews(orgId, a + b) == CsvToReviews(orgId, a) + CsvToReviews(orgId, b)
  {
    var ma := seq(|a|, i requires 0 <= i < |a| => MapRow(orgId, a[i]));
    var mb := seq(|b|, i requires 0 <= i < |b| => MapRow(orgId, b[i]));
    var mab := seq(|a + b|, i requires 0 <= i < |a + b| => MapRow(orgId, (a + b)[i]));
    assert mab == ma + mb;
    FilterConcat(Truthy, ma, mb);
  }

  /**
    Every kept review belongs to the route's organization and the CSV source
    and has non-empty text; the reviews keep the order of their rows; and no
    more reviews come out than rows went in.
  */
  lemma CsvReviewsShape(orgId: string, rows: seq<CsvRow>)
    ensures forall r :: r in CsvToReviews(orgId, rows) ==>
      r.organizationId == orgId && r.sourceId == CsvSourceId && r.text != "" && r.rating != 0
    ensures IsSubsequence(CsvToReviews(orgId, rows), seq(|rows|, i requires 0 <= i < |rows| => MapRow(orgId, rows[i])))
    ensures |CsvToReviews(orgId, rows)| <= |rows|
  {
    var mapped := seq(|rows|, i requires 0 <= i < |rows| => MapRow(orgId, rows[i]));
    FilterMembers(Truthy, mapped);
    FilterIsSubsequence(Truthy, mapped);
  }
}
