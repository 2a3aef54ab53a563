# ReviewSight core, modelled in Dafny

ReviewSight is a review-analytics product for hotels. Its server turns
uploaded CSV reviews into review rows and aggregates per-aspect sentiment
counts into dashboard "key areas". It computes a brand-fit score for
influencer creators and recommends training material from recent insights.
It also handles signup and login with organizations. Its client filters and
searches reviews, draws review cards, creator cards and the training library,
and builds the query URLs it fetches.

This project models the decision logic of that core:

- `BrandFit` is the brand-fit formula. `Routes`, `Analytics` and `CreatorCard` each hold one of the three accumulator copies in the code, and each is proved equal to the formula.
- `Routes` also holds the CSV-row → review mapping and filter of the upload route.
- `Analytics` holds the aspect-score aggregation (a loop over a map of tallies), the overall-sentiment rule and the positive-review count.
- `Auth` holds the organization slug, and signup and login over a store of users, organizations and memberships (a class).
- `Storage` holds the training recommendation pipeline, the usage-statistics fold and the bulk review insert (a class).
- `QueryClient` holds the query-string builder and the query-key normalisation.
- `ReviewFilters` holds the filter panel (a class whose handlers replace the filter record) and its list toggles.
- `ReviewsPage`, `TrainingPage`, `ReviewCard` and `Navigation` hold the pure page rules: search, counts, priorities, descriptions, truncation, labels, stars, the active tab and the initials.

The helper modules are:

- `Wrappers`, for `Option`;
- `Ascii`, for ASCII case mapping, `includes`, `indexOf`, `replace` with a string pattern, and `split`;
- `Seqs`, for `filter`, subsequences and `slice`;
- `Parsing`, for `parseInt` and the `parseInt(x) || d` idiom;
- `Schema`, for the enums and rows of the database schema.

Numbers are unbounded integers. An engagement rate is a `decimal(5,2)` and is
held in hundredths (`8.00` is `800`). Aspect scores are whole percentages.

## Model

| member | source | states |
|---|---|---|
| BrandFit.NicheComponent | server/routes.ts:357-362 | the niche part is a multiple of 15 between 0 and 60 |
| BrandFit.LocationComponent | server/routes.ts:364-372 | the location part is one of 10, 20 and 30 |
| BrandFit.EngagementBonus | server/routes.ts:374-378 | the engagement bonus is one of 0, 5, 7 and 10 |
| BrandFit.Score | server/routes.ts:354-381 | the score always lies in [0,100] |
| BrandFit.ScoreIsSumOfComponents | server/routes.ts:354-381 | the score is exactly the sum of the three parts (so the cap at 100 never bites), and it is at least 10 |
| BrandFit.NicheComponentSaturates | server/routes.ts:362 | for k matching tags the niche part is 15·k below four tags and 60 from four on |
| BrandFit.LocationTiers | server/routes.ts:365-372 | exactly one tier applies, in priority order: 30 iff the country mentions jamaica or the city mentions caribbean; 20 iff not that but the country mentions caribbean; 10 otherwise |
| BrandFit.EngagementBonusMonotone | server/routes.ts:375-378 | the bonus is non-cumulative and never decreases as the rate grows |
| BrandFit.MissingRateEarnsNothing | server/routes.ts:375 | an absent or unparseable rate reads as 0 and earns no bonus |
| BrandFit.NicheOverlapCounts | server/routes.ts:358-361 | the overlap counts niche TAGS whose lowercase form contains a hotel token, not tokens, and never exceeds the number of tags |
| BrandFit.MinimumScore | server/routes.ts:355-380 | with no matching niche, no location match and a rate of at most 3.00, the score is exactly 10, the least any creator can get |
| BrandFit.HotelTags | server/routes.ts:358-360 | each hotel token matches itself, and "food" and "culture" match none |
| BrandFit.MayaScores85 | server/seed.ts:154-201 | the seeded creator Maya scores 85 |
| BrandFit.MarcusScores52 | server/seed.ts:154-201 | the seeded creator Marcus scores 52 |
| BrandFit.SophiaScores62 | server/seed.ts:154-201 | the seeded creator Sophia scores 62 |
| BrandFit.BarbadosIsElsewhere | server/routes.ts:365-371 | a Barbados/Bridgetown creator falls in the default 10-point location tier |
| Routes.CalculateBrandFitScore | server/routes.ts:354-381 | the route's accumulator computes exactly the brand-fit score |
| Routes.TextOr | server/routes.ts:183-185 | `cell \|\| fallback`: a missing or empty cell gives the fallback, any other cell itself |
| Routes.MapRow | server/routes.ts:180-186 | a row becomes a review of the route's organization and the CSV source, with the author, rating and text defaults |
| Routes.MapRowDefaults | server/routes.ts:183-185 | author "Anonymous", rating 5 when the cell is NaN or 0, and text from `text`, then `review`, then "" |
| Routes.KeptIffText | server/routes.ts:187 | the rating half of the filter never drops a row: a mapped review is kept iff its text is non-empty |
| Routes.CsvOneRow | server/routes.ts:180-187 | a single row yields its mapped review exactly when the text is non-empty, else nothing |
| Routes.CsvConcat | server/routes.ts:180-187 | the mapping and filter distribute over concatenated rows |
| Routes.CsvReviewsShape | server/routes.ts:180-187 | every kept review belongs to the organization and the CSV source and has text; the reviews come in row order and are no more than the rows |
| Analytics.GroupRows | server/services/analytics.ts:116-130 | the forEach loop leaves the aspects in first-appearance order, the map's keys are exactly those aspects, and each entry is the tally of that aspect's rows |
| Analytics.ProcessAspectScores | server/services/analytics.ts:115-138 | one key area per distinct aspect, in first-appearance order, each being the key area of that aspect's tally |
| Analytics.FoldStep | server/services/analytics.ts:118-129 | one loop step adds a row's count to its aspect's total and to the counter of its sentiment, and leaves every other aspect alone |
| Analytics.BucketSplitsTotal | server/services/analytics.ts:125-129 | in every tally, total = positive + negative + neutral |
| Analytics.BucketOfAbsent | server/services/analytics.ts:116-130 | an aspect with no row has the empty tally |
| Analytics.DistinctMembers | server/services/analytics.ts:120-122 | an aspect appears in the output iff some row has it, and never twice |
| Analytics.DistinctInFirstAppearanceOrder | server/services/analytics.ts:116-132 | the key areas are ordered by each aspect's first row (Map insertion order) |
| Analytics.KeyAreaScoreBounds | server/services/analytics.ts:134-136 | every key-area score lies in [0,100] |
| Analytics.AspectLabel | server/services/analytics.ts:133 | the label is as long as the enum name: one underscore becomes one space |
| Analytics.LabelWithoutUnderscore | server/services/analytics.ts:133 | a label without an underscore is just lowercased |
| Analytics.FirstUnderscoreReplaced | server/services/analytics.ts:133 | the first underscore becomes a space and later ones stay |
| Analytics.AspectLabelOf | server/services/analytics.ts:133 | the six aspects are labelled cleanliness, staff, food quality, value, location and speed |
| Analytics.RoundedPercentRoundsHalfUp | server/services/analytics.ts:134 | the integer formula rounds the exact ratio 100p/t half up: the result is within one half of it, and halves go up (the source rounds a double, see Left out) |
| Analytics.RoundedPercentBounds | server/services/analytics.ts:134 | the score lies in [0,100] for p ≤ t, and is 50 when t = 0 |
| Analytics.UniformBucket | server/services/analytics.ts:118-130 | when every row of an aspect is positive its positive count is its total; when every row is negative its positive count is 0 |
| Analytics.UniformAspectScores | server/services/analytics.ts:115-136 | an aspect mentioned only positively scores 100 on the dashboard, and one mentioned only negatively scores 0 |
| Analytics.RoundedPercentExtremes | server/services/analytics.ts:134 | an all-positive aspect scores 100 and an all-negative one 0 |
| Analytics.RoundedPercentSwap | server/services/analytics.ts:134 | swapping positive and negative counts gives scores that sum to 100, or to 101 exactly at a half tie |
| Analytics.OverallSentimentByAverage | server/services/analytics.ts:140-148 | positive iff the average is ≥ 70, negative iff it is ≤ 40, neutral iff strictly between, for a non-empty list |
| Analytics.OverallSentimentEmpty | server/services/analytics.ts:141 | no aspects gives neutral |
| Analytics.PositiveReviews | server/services/analytics.ts:28 | the count of positive reviews is at most the number of reviews |
| Analytics.PositiveReviewsCounts | server/services/analytics.ts:28 | the count is additive over concatenation, and a single review counts iff its rating is at least 4 |
| Analytics.CalculateBrandFitScore | server/services/analytics.ts:150-177 | the service copy computes exactly the brand-fit score of the route copy |
| CreatorCard.CalculateBrandFitScore | client/src/components/creators/creator-card.tsx:27-54 | the client copy computes the same brand-fit score, within [0,100] |
| CreatorCard.DisplayedScore | client/src/components/creators/creator-card.tsx:79 | the server's score when it is present and non-zero, else the locally computed one |
| CreatorCard.DisplayedScoreAgrees | client/src/components/creators/creator-card.tsx:79 | whether or not the server sent its score, the card shows the one formula's score |
| CreatorCard.ColoursFollowTier | client/src/components/creators/creator-card.tsx:66-76 | background and text colour are both the colour of the score's tier (≥ 90 emerald, ≥ 70 yellow, else orange) |
| CreatorCard.ColourDeterminesTier | client/src/components/creators/creator-card.tsx:66-76 | two scores share a colour iff they share a tier, for both colour functions |
| CreatorCard.TierMonotone | client/src/components/creators/creator-card.tsx:66-76 | a higher score never falls in a lower tier |
| CreatorCard.SeedCreatorTiers | client/src/components/creators/creator-card.tsx:66-76 | Maya is drawn yellow, Marcus and Sophia orange |
| Auth.SlugShape | server/services/auth.ts:76-79 | the slug holds only `[a-z0-9-]`, never `--`, and never starts or ends with a dash |
| Auth.CollapseShape | server/services/auth.ts:78 | each run outside `[a-z0-9]` becomes one dash, so the result has no `--` |
| Auth.TrimStartDropsDashes | server/services/auth.ts:79 | trimming the front removes a run of leading dashes and nothing else: the result is a suffix and everything cut is a dash |
| Auth.TrimEndDropsDashes | server/services/auth.ts:79 | everything trimmed from the back is a dash |
| Auth.SlugIdempotent | server/services/auth.ts:76-79 | slugifying a slug returns it unchanged |
| Auth.SlugKeepsLettersAndDigits | server/services/auth.ts:76-79 | the letters and digits of the lowercased name survive in order, and no others appear |
| Auth.SlugEmptyIff | server/services/auth.ts:76-79 | the slug is empty iff the lowercased name has no `[a-z0-9]` character |
| Auth.UserInsertKeepsKeys | server/storage.ts:86-89 | inserting the new user under its email with a fresh id keeps every table keyed by its unique column with ids below the next id |
| Auth.OrganizationInsertKeepsKeys | server/storage.ts:106-107 | inserting a new organization under its slug with a fresh id keeps the tables keyed |
| Auth.NewOrganizationListed | server/storage.ts:106-113 | after the organization and the owner membership are inserted, the organization is among the owner's organizations |
| Auth.MembershipAppended | server/storage.ts:96-113 | a newly inserted membership links its user to its organization |
| Auth.AuthStore.constructor | server/storage.ts:86-116 | an empty store |
| Auth.AuthStore.Signup | server/services/auth.ts:53-99 | an existing email fails without change; otherwise the user is inserted. An owner with an organization name also gets the organization and an owner membership, unless the slug is taken, in which case the call fails with the user kept. The new user's id is no existing user's id. A success with an organization lists it among the user's organizations |
| Auth.AuthStore.CreateOrganization | server/storage.ts:106-116 | a taken slug fails and changes nothing; otherwise the organization is inserted under its slug with an id no existing organization has, an OWNER membership of the owner is appended, and the organization is among the owner's organizations |
| Auth.AuthStore.Login | server/services/auth.ts:28-51 | an unknown email or a wrong password fails with "Invalid credentials"; otherwise it succeeds with the user and exactly the organizations the user is a member of |
| Storage.AspectKeywords | server/storage.ts:352-354 | the keywords are exactly the lowercased aspects of the recent insights: every keyword is one, every lowercased aspect is a keyword, and no aspects give no keywords |
| Storage.AspectOfInsightIsFound | server/storage.ts:352-366 | a resource whose lowercased title or category contains a lowercased aspect of a recent insight is among the matching resources |
| Storage.RecommendedTraining | server/storage.ts:359-366 | at most three resources are recommended |
| Storage.RecommendedTrainingSpec | server/storage.ts:359-366 | the recommendations are a prefix of the matching resources, of length min(3, matches), each from the table and matching a keyword |
| Storage.MatchingResourcesSpec | server/storage.ts:360-365 | a resource matches iff it is in the table and its lowercased title or category contains a keyword, in table order |
| Storage.NoKeywordsNoRecommendation | server/storage.ts:352-366 | without insight aspects nothing is recommended |
| Storage.EmptyKeywordMatchesAll | server/storage.ts:361-363 | an empty aspect matches every resource, so the first three of the table are recommended |
| Storage.StatOf | server/storage.ts:398-401 | tokens and count are `parseInt(...) \|\| 0` of the row's text |
| Storage.UsageStats | server/storage.ts:397-403 | the reduce builds exactly the fold in which each row sets its type's entry |
| Storage.UsageFoldKeys | server/storage.ts:397-403 | the statistics have an entry for exactly the event types that occur |
| Storage.UsageFoldLastWins | server/storage.ts:398 | a type's entry is the statistic of its last row |
| Storage.UsageStatsOfGroupedRows | server/storage.ts:395-403 | with one row per type, each type gets its own row's statistic |
| Storage.UsageStatDefaults | server/storage.ts:399-400 | a null sum reads 0, non-numeric text reads 0, and the decimal text of n reads n |
| Storage.ReviewTable.BulkCreateReviews | server/storage.ts:187-190 | an empty list returns [] without touching the table; otherwise all reviews are appended in order and returned, the k-th with id `old(nextId) + k`, which differs from the id of every review already stored; the table keeps every id below the next id |
| QueryClient.EntryPairs | client/src/lib/queryClient.ts:9-13 | undefined, null and "" give no pair; an array gives one pair per element; any other value gives exactly one pair |
| QueryClient.UrlWithQuery | client/src/lib/queryClient.ts:4-17 | a missing or non-object argument gives the base; the URL differs from the base iff some pair remains, and then it is the base, "?" and the serialised pairs in entry order |
| QueryClient.PairsConcat | client/src/lib/queryClient.ts:8-13 | the pairs follow the order of the entries |
| QueryClient.PairsOfOne | client/src/lib/queryClient.ts:8-13 | one entry contributes its own pairs |
| QueryClient.AllEmptyIsBase | client/src/lib/queryClient.ts:14 | when every value is empty there are no pairs and the result is exactly the base, with no "?" |
| QueryClient.SerializeConcat | client/src/lib/queryClient.ts:15-16 | serialised pairs are joined by one "&" |
| QueryClient.Normalize | client/src/lib/queryClient.ts:71-81 | an array key gives base = element 0 and params = element 1; a non-array key gives the base only |
| QueryClient.QueryUrlCases | client/src/lib/queryClient.ts:71-81 | plain and one-element keys fetch their path; a string second element is ignored; an object second element supplies the parameters; later elements are ignored |
| ReviewFilters.ToggleAbsent | client/src/components/reviews/review-filters.tsx:38-42 | toggling an absent value appends it at the end |
| ReviewFilters.TogglePresent | client/src/components/reviews/review-filters.tsx:38-56 | toggling a present value removes every occurrence and keeps the rest in order |
| ReviewFilters.ToggleMembership | client/src/components/reviews/review-filters.tsx:38-56 | a toggle flips its own value's membership and no other |
| ReviewFilters.ToggleTwice | client/src/components/reviews/review-filters.tsx:38-42 | toggling the same absent value twice restores the list exactly |
| ReviewFilters.ToggleKeepsNoDup | client/src/components/reviews/review-filters.tsx:38-56 | a duplicate-free list stays duplicate-free |
| ReviewFilters.ApplyChangesOnlyNamedField | client/src/components/reviews/review-filters.tsx:32-33 | the update sets the named field to the value and changes no other field |
| ReviewFilters.ApplyCommutes | client/src/components/reviews/review-filters.tsx:32-33 | updates of different fields commute |
| ReviewFilters.FilterPanel.constructor | client/src/components/reviews/review-filters.tsx:23-30 | the panel starts with empty dates, lists and keyword, and nothing reported |
| ReviewFilters.FilterPanel.HandleFilterChange | client/src/components/reviews/review-filters.tsx:32-36 | the record becomes the updated record, which is reported to the page |
| ReviewFilters.FilterPanel.HandleRatingToggle | client/src/components/reviews/review-filters.tsx:38-43 | only the ratings change, by the toggle; the new record is reported; no duplicates appear |
| ReviewFilters.FilterPanel.HandleSourceToggle | client/src/components/reviews/review-filters.tsx:45-50 | only the sources change, by the toggle; the new record is reported; no duplicates appear |
| ReviewFilters.FilterPanel.HandleAspectToggle | client/src/components/reviews/review-filters.tsx:52-57 | only the aspects change, by the toggle; the new record is reported; no duplicates appear |
| ReviewFilters.FilterPanel.ClearFilters | client/src/components/reviews/review-filters.tsx:59-70 | both dates and the keyword become "", the three lists [], and the empty record is reported |
| ReviewsPage.FilteredReviewsSpec | client/src/pages/reviews.tsx:62-66 | a review is kept iff it matches the search, and the result is an order-preserving subsequence |
| ReviewsPage.EmptyQueryKeepsAll | client/src/pages/reviews.tsx:63 | an empty query keeps every review |
| ReviewsPage.AnonymousMatchesOnText | client/src/pages/reviews.tsx:64-65 | a review without an author matches a non-empty query iff its text contains it, ignoring case |
| ReviewsPage.SearchIgnoresCase | client/src/pages/reviews.tsx:64-65 | a capitalised query finds the same reviews |
| ReviewsPage.TextHitIsKept | client/src/pages/reviews.tsx:64 | a review whose text contains the query in any case is kept, whatever its author |
| ReviewsPage.ShownCount | client/src/pages/reviews.tsx:115 | the shown count is min(10, n) |
| ReviewsPage.PaginationAboveTen | client/src/pages/reviews.tsx:182-187 | the pagination bar appears iff n > 10, i.e. iff its label counts fewer than the n results; the label then counts ten of n |
| TrainingPage.FilteredResourcesSpec | client/src/pages/training.tsx:35-37 | the tab shows exactly the resources of its category, in table order |
| TrainingPage.TabsAreDisjoint | client/src/pages/training.tsx:35-37 | no resource shows on two tabs |
| TrainingPage.ColorAndIconFollowPriority | client/src/pages/training.tsx:45-63 | badge colour and icon are both functions of one classification: wait/speed red, else clean/housekeeping amber, else emerald |
| TrainingPage.ColorAndIconAgree | client/src/pages/training.tsx:45-63 | two titles share a colour iff they share an icon |
| TrainingPage.PriorityIgnoresCase | client/src/pages/training.tsx:46-49 | capitalising a title does not change its class |
| TrainingPage.SpeedWinsOverClean | client/src/pages/training.tsx:46-50 | a title mentioning "Speed" anywhere is red, even if it mentions cleaning |
| TrainingPage.HeadingBecomesDescription | client/src/pages/training.tsx:194-195 | markdown that opens with "# heading" is described by the heading |
| TrainingPage.MarkdownDescriptionIsOneLine | client/src/pages/training.tsx:195 | a description taken from markdown holds no newline |
| TrainingPage.FallbackDescription | client/src/pages/training.tsx:196 | without markdown, the description is "Video training for" or "Documentation for" and the lowercased category |
| TrainingPage.RecommendedCards | client/src/pages/training.tsx:100 | at most three cards, a prefix of the recommendations, and all of them when there are at most three |
| TrainingPage.ServerRecommendationsAllDrawn | client/src/pages/training.tsx:100 | the server sends at most three recommendations, so all are drawn |
| ReviewCard.StarRow | client/src/components/reviews/review-card.tsx:47-56 | star i is filled iff i < rating |
| ReviewCard.StarsSpec | client/src/components/reviews/review-card.tsx:47-56 | exactly five stars are drawn; min(max(rating, 0), 5) are filled, and they come first |
| ReviewCard.DisplayText | client/src/components/reviews/review-card.tsx:88 | a detailed card shows the full text; a compact card shows at most 203 characters, starting with the text's first (up to) 200 |
| ReviewCard.ShortTextUnchanged | client/src/components/reviews/review-card.tsx:88 | compact text of at most 200 characters is unchanged |
| ReviewCard.LongTextCut | client/src/components/reviews/review-card.tsx:88 | longer compact text becomes its first 200 characters followed by "...", 203 in all |
| ReviewCard.BadgeLabelSpec | client/src/components/reviews/review-card.tsx:26-33 | each schema aspect gets its human label, and any other string is shown raw |
| ReviewCard.BadgeAgreesWithKeyArea | client/src/components/reviews/review-card.tsx:99 | the badge and the dashboard key area name each aspect with the same words, up to capitals |
| ReviewCard.SentimentColorSpec | client/src/components/reviews/review-card.tsx:35-44 | POS is emerald, NEG red, NEUTRAL and any other value slate; the three sentiments get different colours |
| Navigation.IsActiveSpec | client/src/components/navigation.tsx:17-19 | a tab is active on its own path and below it, but not on a mere string prefix |
| Navigation.DashboardxIsNotDashboard | client/src/components/navigation.tsx:18 | "/dashboardx" does not highlight Dashboard |
| Navigation.AtMostOneTabActive | client/src/components/navigation.tsx:18-26 | at most one of the four tabs is highlighted at any location |
| Navigation.TabPageShowsItsTab | client/src/components/navigation.tsx:17-41 | on a tab's own page the bar is drawn iff the user is signed in, with that tab highlighted and no other |
| Navigation.Initials | client/src/components/navigation.tsx:79 | the initials are never empty and hold no lowercase letter |
| Navigation.InitialsOfTwoWords | client/src/components/navigation.tsx:79 | a two-word name gives the capitals of both first letters |
| Navigation.InitialsFallback | client/src/components/navigation.tsx:79 | no name, or a name of spaces only, gives "U" |
| Parsing.ParseDecimalString | server/storage.ts:399-400 | `parseInt` reads the decimal text of n back as n |
| Parsing.NoDigitIsNaN | server/storage.ts:399-400 | text without a digit is NaN |
| Schema.AspectNameInjective | shared/schema.ts:9-13 | distinct aspects are stored as distinct labels |

## Left out

- Database queries, SQL aggregation and joins are outside the model. Their results are inputs: the aspect rows, the insight aspects, the resource table and the grouped usage rows.
- `getUserOrganizations` returns the join as a list in database order; the model returns a set.
- The unique constraint on a user's email and on an organization's slug is modelled by keying the store's maps on them.
- The `id` primary keys of users, organizations and reviews are `varchar` columns filled by `gen_random_uuid()` (shared/schema.ts:17, 26, 47). The model draws them from a `nextId` counter, which stands for that default and captures only that a new id differs from every stored one.
- The calls to the language model and the parsing of its replies are left out (network I/O).
- Web plumbing is left out: routing, sessions, status codes, uploads and CSV parsing, and the fetch wrappers.
- A CSV row arrives already split into optional cells.
- Password hashing is left out: bcrypt is a foreign call. `Signup` takes the hash as a parameter, and `Login` takes the comparison as a function parameter.
- Auth.AuthStore.Signup: storage errors other than the slug collision are not modelled (the catch-all "Failed to create account" path). Neither is the "Login failed" path of `login`.
- Auth.AuthStore.Signup: the user insert and the organization insert are not atomic in the source. The model keeps that: a slug collision fails the call after the user has been stored.
- Floating-point display arithmetic is left out: average ratings rounded to one decimal, number formatting and charts.
- Analytics.OverallSentimentByAverage: the average is taken over whole-number scores in real arithmetic, not IEEE doubles.
- Analytics.ProcessAspectScores: the mock `trend` field is left out, because it comes from `Math.random`.
- Dates are left out: `createdAt`, the date filters, the usage window and locale formatting.
- Case mapping is ASCII only; full Unicode case mapping is not modelled. Characters are single code units.
- Percent-encoding of the query string is the parameter `enc`, standing for the application/x-www-form-urlencoded serializer of section 5.2 of the WHATWG URL Standard.
- Parsing.ParseInt: reads only radix 10; the `0x` prefix handling of `parseInt` is not modelled. The leading white space it skips is the ECMAScript set (tab, vertical tab, form feed, space, no-break space, byte order mark, the other space separators and the line terminators), with characters as single code units.
- Analytics.RoundedPercent: rounds the exact ratio. The source rounds the double `(p/t)*100`, which can land just below .5: 23/40 gives 57.49999999999999 there, so 57, where the model gives 58 (likewise 57/200 and 29/200). The bounds, extremes and swap lemmas hold for the exact ratio only.
- Storage.StatOf: counts arrive as the text of a non-negative integer.
- BrandFit.Score: the client reads the rate with `rate || 0` and the server with `parseFloat(rate) || 0`. Both read a numeric rate the same way, and a missing one as 0, which is what the model holds. A malformed string rate, which the database column cannot hold, would be read differently; this is not modelled.
- ReviewCard.BadgeLabel: keys inherited from the JavaScript object prototype (such as `constructor`) are not modelled; the lookup is a plain map.
- Navigation.Visible: the user is reduced to whether one is signed in.
- The rendering-only pages are not part of this model: landing, sign-in, settings, dashboard layout, creators list, header and auth context.
- The seed script is not part of this model, except for the three creators used as test vectors.

## Notes on the code

One might expect that exchanging the positive and negative counts of an
aspect gives `100 - score`. The code's `Math.round` rounds halves up, so at
an exact half (one positive of eight: 13 versus 88) the two scores sum to
101. The model follows the code: `Analytics.RoundedPercentSwap` proves the
sum is 100, or 101 exactly at a half tie. This holds in exact arithmetic; in the
source's doubles some half ties land just below .5 and round down (see
"## Left out").

The reviews page draws every filtered review, but its two labels say
"1 to min(10, n)" of n, and the pagination bar appears for more than ten
results with page buttons that have no handler. The labels therefore undercount what is
drawn whenever n > 10. `ReviewsPage.PaginationAboveTen` states what the
label and the bar do, not that results are hidden.

A compact review card leaves a text of exactly 203 characters that ends in
"..." unchanged, because it shows the first 200 characters followed by
"...". This is what the code does; `ReviewCard.LongTextCut` states the cut
form, not that the text changes.

The default query function builds its URL from the first element of the
query key and takes the second only when it is an object.
`QueryClient.QueryUrlCases` proves that a string second element is ignored.
The dashboard, reviews, training and usage pages key their queries as
`[path, orgId]` or `[path, orgId, filters]`
(client/src/pages/dashboard.tsx:16, reviews.tsx:21, training.tsx:28,
settings.tsx:21). Those queries therefore fetch the bare path, while the
server serves these resources only under `/:orgId`
(server/routes.ts:110, 143, 328, 339). A page that relies on the default
query function for these keys would miss its route.
