/**
  The in-memory logic of the storage layer: the training recommendation
  filter, the usage-statistics fold, and the review table's bulk insert.
  The queries that produce their inputs are not part of this model; their
  results are the inputs here.
*/
module Storage {
  import opened Wrappers
  import opened Ascii
  import opened Seqs
  import opened Parsing
  import opened Schema

  // ---------------------------------------------------------------------------
  // Recommended training

  /** `flatMap(i => i.aspects).map(a => a.toLowerCase())` over the recent insights. */
  function AspectKeywords(insightAspects: seq<seq<string>>): (keywords: seq<string>)
    ensures forall k :: k in keywords ==> exists i, j :: 0 <= i < |insightAspects| && 0 <= j < |insightAspects[i]| && k == Lower(insightAspects[i][j])
    ensures forall i, j :: 0 <= i < |insightAspects| && 0 <= j < |insightAspects[i]| ==> Lower(insightAspects[i][j]) in keywords
    ensures (forall i :: 0 <= i < |insightAspects| ==> insightAspects[i] == []) ==> keywords == []
  {
    if insightAspects == [] then []
    else
      var head := seq(|insightAspects[0]|, j requires 0 <= j < |insightAspects[0]| => Lower(insightAspects[0][j]));
      var rest := AspectKeywords(insightAspects[1..]);
      assert forall k :: k in rest ==> exists i, j :: 0 <= i < |insightAspects| && 0 <= j < |insightAspects[i]| && k == Lower(insightAspects[i][j]) by {
        forall k | k in rest
          ensures exists i, j :: 0 <= i < |insightAspects| && 0 <= j < |insightAspects[i]| && k == Lower(insightAspects[i][j])
        {
          var i, j :| 0 <= i < |insightAspects[1..]| && 0 <= j < |insightAspects[1..][i]| && k == Lower(insightAspects[1..][i][j]);
          assert insightAspects[1..][i] == insightAspects[i + 1];
        }
      }
      assert forall i, j :: 0 <= i < |insightAspects| && 0 <= j < |insightAspects[i]| ==> Lower(insightAspects[i][j]) in head + rest by {
        forall i, j | 0 <= i < |insightAspects| && 0 <= j < |insightAspects[i]|
          ensures Lower(insightAspects[i][j]) in head + rest
        {
          if i == 0 {
            assert head[j] == Lower(insightAspects[0][j]);
          } else {
            assert insightAspects[1..][i - 1] == insightAspects[i];
          }
        }
      }
      head + rest
  }

  /** A resource matches a keyword when its lowercased title or category contains it. */
  predicate MatchesKeyword(r: TrainingResource, keyword: string) {
    Contains(Lower(r.title), keyword) || Contains(Lower(r.category), keyword)
  }

  /** `aspectKeywords.some(...)`: the resource matches one of the keywords. */
  predicate Matches(keywords: seq<string>, r: TrainingResource) {
    exists k | 0 <= k < |keywords| :: MatchesKeyword(r, keywords[k])
  }

  function MatchingResources(keywords: seq<string>, resources: seq<TrainingResource>): seq<TrainingResource> {
    Filter(r => Matches(keywords, r), resources)
  }

  /** `getRecommendedTraining`: the first three resources that match a keyword of the recent insights. */
  function RecommendedTraining(insightAspects: seq<seq<string>>, resources: seq<TrainingResource>): (r: seq<TrainingResource>)
    ensures |r| <= 3
  {
    Take(MatchingResources(AspectKeywords(insightAspects), resources), 3)
  }

  /**
    The recommendations are the matching resources in their table order, cut
    at three: a prefix of the matches, as long as it can be up to three. Every
    recommended resource matches some keyword and comes from the table.
  */
  lemma RecommendedTrainingSpec(insightAspects: seq<seq<string>>, resources: seq<TrainingResource>)
    ensures var keywords := AspectKeywords(insightAspects);
      var recommended := RecommendedTraining(insightAspects, resources);
      && recommended <= MatchingResources(keywords, resources)
      && |recommended| == Min(3, |MatchingResources(keywords, resources)|)
      && forall r :: r in recommended ==> r in resources && Matches(keywords, r)
  {
    var keywords := AspectKeywords(insightAspects);
    var matching := MatchingResources(keywords, resources);
    FilterMembers(r => Matches(keywords, r), resources);
    var recommended := Take(matching, 3);
    forall r | r in recommended ensures r in matching {
      var k :| 0 <= k < |recommended| && recommended[k] == r;
      assert matching[k] == r;
    }
  }

  /** Every resource that matches is a candidate: the matches are exactly the table's resources that match, in order. */
  lemma MatchingResourcesSpec(keywords: seq<string>, resources: seq<TrainingResource>)
    ensures forall r :: r in MatchingResources(keywords, resources) <==> r in resources && Matches(keywords, r)
    ensures IsSubsequence(MatchingResources(keywords, resources), resources)
  {
    FilterMembers(r => Matches(keywords, r), resources);
    FilterIsSubsequence(r => Matches(keywords, r), resources);
  }

  /**
    A resource whose title or category contains a lowercased aspect of a
    recent insight is among the matching resources: nothing that matches is
    missed.
  */
  lemma AspectOfInsightIsFound(insightAspects: seq<seq<string>>, resources: seq<TrainingResource>, r: TrainingResource, i: nat, j: nat)
    requires r in resources
    requires i < |insightAspects| && j < |insightAspects[i]|
    requires MatchesKeyword(r, Lower(insightAspects[i][j]))
    ensures r in MatchingResources(AspectKeywords(insightAspects), resources)
  {
    var keywords := AspectKeywords(insightAspects);
    var k :| 0 <= k < |keywords| && keywords[k] == Lower(insightAspects[i][j]);
    assert Matches(keywords, r);
    FilterMembers(r => Matches(keywords, r), resources);
  }

  /** Without any insight aspect there is no keyword, and nothing is recommended. */
  lemma NoKeywordsNoRecommendation(insightAspects: seq<seq<string>>, resources: seq<TrainingResource>)
    requires forall i :: 0 <= i < |insightAspects| ==> insightAspects[i] == []
    ensures RecommendedTraining(insightAspects, resources) == []
  {
    var keywords := AspectKeywords(insightAspects);
    FilterAllOrNothing(r => Matches(keywords, r), resources);
  }

  /** An empty aspect string is contained in every title, so it recommends the first three resources of the table. */
  lemma EmptyKeywordMatchesAll(resources: seq<TrainingResource>)
    ensures RecommendedTraining([[""]], resources) == Take(resources, 3)
  {
    var keywords := AspectKeywords([[""]]);
    assert keywords == [Lower("")] == [""];
    forall r: TrainingResource ensures Matches(keywords, r) {
      assert MatchesKeyword(r, keywords[0]) by {
        assert OccursAt(Lower(r.title), keywords[0], 0);
      }
    }
    FilterAllOrNothing(r => Matches(keywords, r), resources);
  }

  // ---------------------------------------------------------------------------
  // Usage statistics

  /**
    One row of the usage query grouped by event type. Both aggregates arrive
    as text; `sum(tokens)` is null when no event of the type carried tokens.
  */
  datatype UsageRow = UsageRow(eventType: UsageEventType, totalTokens: Option<string>, count: Option<string>)

  datatype UsageStat = UsageStat(tokens: int, count: int)

  /** `{ tokens: parseInt(totalTokens) || 0, count: parseInt(count) || 0 }`. */
  function StatOf(row: UsageRow): (stat: UsageStat)
    ensures stat.tokens == IntOr(ParseInt(row.totalTokens), 0)
    ensures stat.count == IntOr(ParseInt(row.count), 0)
  {
    UsageStat(IntOr(ParseInt(row.totalTokens), 0), IntOr(ParseInt(row.count), 0))
  }

  /** The accumulator after the given rows: each row sets the entry of its type. */
  function UsageFold(rows: seq<UsageRow>): map<UsageEventType, UsageStat> {
    if rows == [] then map[]
    else UsageFold(rows[..|rows| - 1])[rows[|rows| - 1].eventType := StatOf(rows[|rows| - 1])]
  }

  /** `getUsageStats`' reduce: `acc[row.type] = …` for each row, starting from `{}`. */
  method UsageStats(rows: seq<UsageRow>) returns (acc: map<UsageEventType, UsageStat>)
    ensures acc == UsageFold(rows)
  {
    acc := map[];
    var i := 0;
    while i < |rows|
      invariant 0 <= i <= |rows|
      invariant acc == UsageFold(rows[..i])
    {
      var row := rows[i];
      assert rows[..i + 1][..i] == rows[..i];
      acc := acc[row.eventType := StatOf(row)];
      i := i + 1;
    }
    assert rows[..i] == rows;
  }

  /** Some row is of type `t`. */
  predicate HasType(rows: seq<UsageRow>, t: UsageEventType) {
    exists i | 0 <= i < |rows| :: rows[i].eventType == t
  }

  /** The statistics have an entry for exactly the event types that occur. */
  lemma {:induction false} UsageFoldKeys(rows: seq<UsageRow>)
    ensures forall t :: t in UsageFold(rows) <==> HasType(rows, t)
  {
    if rows != [] {
      var init := rows[..|rows| - 1];
      UsageFoldKeys(init);
      forall t ensures HasType(rows, t) <==> HasType(init, t) || rows[|rows| - 1].eventType == t {
        if HasType(rows, t) {
          var i :| 0 <= i < |rows| && rows[i].eventType == t;
          if i < |init| {
            assert init[i] == rows[i];
          }
        }
        if HasType(init, t) {
          var i :| 0 <= i < |init| && init[i].eventType == t;
          assert rows[i] == init[i];
        }
      }
    }
  }

  /** The entry of a type is the statistic of the LAST row of that type. */
  lemma {:induction false} UsageFoldLastWins(rows: seq<UsageRow>, i: nat)
    requires i < |rows|
    requires forall j :: i < j < |rows| ==> rows[j].eventType != rows[i].eventType
    ensures rows[i].eventType in UsageFold(rows)
    ensures UsageFold(rows)[rows[i].eventType] == StatOf(rows[i])
  {
    if i < |rows| - 1 {
      var init := rows[..|rows| - 1];
      assert forall j :: i < j < |init| ==> init[j] == rows[j];
      UsageFoldLastWins(init, i);
    }
  }

  /** Grouped rows (one per type) give every type its own row's statistic. */
  lemma UsageStatsOfGroupedRows(rows: seq<UsageRow>)
    requires forall i, j :: 0 <= i < j < |rows| ==> rows[i].eventType != rows[j].eventType
    ensures forall i :: 0 <= i < |rows| ==> rows[i].eventType in UsageFold(rows) && UsageFold(rows)[rows[i].eventType] == StatOf(rows[i])
  {
    forall i | 0 <= i < |rows|
      ensures rows[i].eventType in UsageFold(rows) && UsageFold(rows)[rows[i].eventType] == StatOf(rows[i])
    {
      UsageFoldLastWins(rows, i);
    }
  }

  /**
    A null sum or a value that is not a number is reported as 0, and a count
    sent as the decimal text of `n` is read back as `n`.
  */
  lemma UsageStatDefaults(t: UsageEventType, n: nat)
    ensures StatOf(UsageRow(t, None, Some(DecimalString(n)))) == UsageStat(0, n)
    ensures StatOf(UsageRow(t, Some("abc"), None)) == UsageStat(0, 0)
  {
    ParseDecimalString(n);
    NoDigitIsNaN("abc");
  }

  // ---------------------------------------------------------------------------
  // Bulk insert of reviews

  /** The review table; ids are drawn from `nextId`. */
  class ReviewTable {
    var rows: seq<Review>
    var nextId: nat

    /** Every stored review has an id below `nextId`, so the next id is fresh. */
    ghost predicate Valid()
      reads this
    {
      forall r :: r in rows ==> r.id < nextId
    }

    constructor()
      ensures Valid()
      ensures rows == [] && nextId == 0
    {
      rows := [];
      nextId := 0;
    }

    /**
      `bulkCreateReviews`: an empty list returns `[]` without touching the
      table; otherwise every review is inserted, in order, with fresh ids,
      and the inserted rows are returned.
    */
    method BulkCreateReviews(reviewList: seq<InsertReview>) returns (created: seq<Review>)
      requires Valid()
      modifies this
      ensures Valid()
      ensures reviewList == [] ==> created == [] && rows == old(rows) && nextId == old(nextId)
      ensures |created| == |reviewList|
      ensures forall k :: 0 <= k < |created| ==> created[k] == Review(old(nextId) + k, reviewList[k])
      ensures rows == old(rows) + created
      ensures nextId == old(nextId) + |reviewList|
      ensures forall r, c :: r in old(rows) && c in created ==> r.id != c.id
    {
      if |reviewList| == 0 {
        return [];
      }
      created := [];
      var k := 0;
      while k < |reviewList|
        invariant 0 <= k <= |reviewList|
        invariant |created| == k
        invariant forall j :: 0 <= j < k ==> created[j] == Review(old(nextId) + j, reviewList[j])
        invariant nextId == old(nextId) + k
        invariant rows == old(rows)
      {
        created := created + [Review(nextId, reviewList[k])];
        nextId := nextId + 1;
        k := k + 1;
      }
      rows := rows + created;
    }
  }
}
