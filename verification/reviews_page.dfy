/**
  The reviews page: the free-text search over the fetched reviews and the
  "showing 1-10 of n" rule.
*/
module ReviewsPage {
  import opened Wrappers
  import opened Ascii
  import opened Seqs

  /** A review as the page receives it: the author column may be null. */
  datatype ListedReview = ListedReview(author: Option<string>, text: string)

  /** `review.author?.toLowerCase().includes(q)`: false when there is no author. */
  predicate AuthorMatches(author: Option<string>, query: string) {
    author.Some? && Contains(Lower(author.value), Lower(query))
  }

  /** The search predicate: an empty query keeps everything, else the text or the author must contain it, ignoring case. */
  predicate MatchesSearch(query: string, r: ListedReview) {
    query == "" || Contains(Lower(r.text), Lower(query)) || AuthorMatches(r.author, query)
  }

  /** `filteredReviews`. */
  function FilteredReviews(reviews: seq<ListedReview>, query: string): seq<ListedReview> {
    Filter(r => MatchesSearch(query, r), reviews)
  }

  /**
    The shown reviews are exactly the fetched ones that match, in their
    fetched order.
  */
  lemma FilteredReviewsSpec(reviews: seq<ListedReview>, query: string)
    ensures forall r :: r in FilteredReviews(reviews, query) <==> r in reviews && MatchesSearch(query, r)
    ensures IsSubsequence(FilteredReviews(reviews, query), reviews)
  {
    FilterMembers(r => MatchesSearch(query, r), reviews);
    FilterIsSubsequence(r => MatchesSearch(query, r), reviews);
  }

  /** An empty search box keeps every review. */
  lemma EmptyQueryKeepsAll(reviews: seq<ListedReview>)
    ensures FilteredReviews(reviews, "") == reviews
  {
    FilterAllOrNothing(r => MatchesSearch("", r), reviews);
  }

  /** A review without an author is found only through its text. */
  lemma AnonymousMatchesOnText(text: string, query: string)
    requires query != ""
    ensures MatchesSearch(query, ListedReview(None, text)) <==> Contains(Lower(text), Lower(query))
  {
  }

  /** Typing the query in capitals finds the same reviews. */
  lemma SearchIgnoresCase(reviews: seq<ListedReview>, query: string)
    ensures FilteredReviews(reviews, Upper(query)) == FilteredReviews(reviews, query)
  {
    LowerOfUpper(query);
    assert query == "" <==> Upper(query) == "";
    FilterExtensional(r => MatchesSearch(Upper(query), r), r => MatchesSearch(query, r), reviews);
  }

  /** A query found in the text, in any case, keeps the review whatever its author. */
  lemma TextHitIsKept(before: string, query: string, after: string, author: Option<string>)
    ensures MatchesSearch(query, ListedReview(author, before + Upper(query) + after))
  {
    var text := before + Upper(query) + after;
    LowerConcat(before + Upper(query), after);
    LowerConcat(before, Upper(query));
    LowerOfUpper(query);
    assert Lower(text) == Lower(before) + Lower(query) + Lower(after);
    assert OccursAt(Lower(text), Lower(query), |before|) by {
      assert Lower(text)[|before|..|before| + |query|] == Lower(query);
    }
  }

  /** `Math.min(10, filteredReviews.length)`: the number on the "Showing 1-…" line. */
  function ShownCount(n: nat): (shown: nat)
    ensures shown <= 10 && shown <= n
    ensures shown == 10 || shown == n
  {
    Min(10, n)
  }

  /** The pagination bar is drawn only for more than ten results. */
  predicate ShowsPagination(n: nat) {
    n > 10
  }

  /**
    The pagination bar appears exactly when its "1 to min(10, n)" label
    counts fewer than the n results, and then the label says ten. The list
    above it draws all n results either way.
  */
  lemma PaginationAboveTen(n: nat)
    ensures ShowsPagination(n) <==> ShownCount(n) < n
    ensures ShowsPagination(n) ==> ShownCount(n) == 10
    ensures !ShowsPagination(n) ==> ShownCount(n) == n
  {
  }
}
