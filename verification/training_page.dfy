/**
  The training library page: the category tab filter, the priority badge
  and icon chosen from a resource's title, the one-line description of a
  resource card, and the cap on recommended cards.
*/
module TrainingPage {
  import opened Wrappers
  import opened Ascii
  import opened Seqs
  import opened Schema
  import Storage

  /** `filteredResources`: the resources of the active category tab. */
  function FilteredResources(resources: seq<TrainingResource>, activeCategory: string): seq<TrainingResource> {
    Filter((r: TrainingResource) => r.category == activeCategory, resources)
  }

  /** The tab shows exactly the resources of its category, in table order. */
  lemma FilteredResourcesSpec(resources: seq<TrainingResource>, activeCategory: string)
    ensures forall r :: r in FilteredResources(resources, activeCategory) <==> r in resources && r.category == activeCategory
    ensures IsSubsequence(FilteredResources(resources, activeCategory), resources)
  {
    FilterMembers((r: TrainingResource) => r.category == activeCategory, resources);
    FilterIsSubsequence((r: TrainingResource) => r.category == activeCategory, resources);
  }

  /** Resources of two tabs never overlap: a resource shows on the tab of its own category only. */
  lemma TabsAreDisjoint(resources: seq<TrainingResource>, c1: string, c2: string)
    requires c1 != c2
    ensures forall r :: r in FilteredResources(resources, c1) ==> r !in FilteredResources(resources, c2)
  {
    FilteredResourcesSpec(resources, c1);
    FilteredResourcesSpec(resources, c2);
  }

  // ---------------------------------------------------------------------------
  // Priority badge and icon

  /** The three classes a title falls in: red, amber, emerald. */
  datatype Priority = Urgent | Hygiene | General

  /** The lowercased title contains `word`. */
  predicate Mentions(title: string, word: string) {
    Contains(Lower(title), word)
  }

  /** The classification both title checks perform, in their order. */
  function PriorityOf(title: string): Priority {
    if Mentions(title, "wait") || Mentions(title, "speed") then Urgent
    else if Mentions(title, "clean") || Mentions(title, "housekeeping") then Hygiene
    else General
  }

  /** `getPriorityColor`. */
  function PriorityColor(title: string): string {
    if Mentions(title, "wait") || Mentions(title, "speed") then "bg-red-100 text-red-800"
    else if Mentions(title, "clean") || Mentions(title, "housekeeping") then "bg-amber-100 text-amber-800"
    else "bg-emerald-100 text-emerald-800"
  }

  datatype Icon = AlertTriangle | CheckCircle | Lightbulb

  /** `getPriorityIcon`. */
  function PriorityIcon(title: string): Icon {
    if Mentions(title, "wait") || Mentions(title, "speed") then AlertTriangle
    else if Mentions(title, "clean") || Mentions(title, "housekeeping") then CheckCircle
    else Lightbulb
  }

  function ColorOf(p: Priority): string {
    match p
    case Urgent => "bg-red-100 text-red-800"
    case Hygiene => "bg-amber-100 text-amber-800"
    case General => "bg-emerald-100 text-emerald-800"
  }

  function IconOf(p: Priority): Icon {
    match p
    case Urgent => AlertTriangle
    case Hygiene => CheckCircle
    case General => Lightbulb
  }

  /** The colour and the icon are both functions of the one classification. */
  lemma ColorAndIconFollowPriority(title: string)
    ensures PriorityColor(title) == ColorOf(PriorityOf(title))
    ensures PriorityIcon(title) == IconOf(PriorityOf(title))
  {
  }

  /** Two titles share a badge colour exactly when they share an icon. */
  lemma ColorAndIconAgree(t1: string, t2: string)
    ensures PriorityColor(t1) == PriorityColor(t2) <==> PriorityIcon(t1) == PriorityIcon(t2)
  {
    ColorAndIconFollowPriority(t1);
    ColorAndIconFollowPriority(t2);
    if PriorityOf(t1) != PriorityOf(t2) {
      assert ColorOf(PriorityOf(t1))[3] != ColorOf(PriorityOf(t2))[3];
    }
  }

  /** Capitalising a title does not change its class. */
  lemma PriorityIgnoresCase(title: string)
    ensures PriorityOf(Upper(title)) == PriorityOf(title)
  {
    LowerOfUpper(title);
  }

  /** The urgent words are checked first: a title mentioning "Speed" is red even when it also mentions cleaning. */
  lemma SpeedWinsOverClean(before: string, after: string)
    ensures PriorityOf(before + "Speed" + after) == Urgent
  {
    var title := before + "Speed" + after;
    LowerConcat(before + "Speed", after);
    LowerConcat(before, "Speed");
    assert Lower("Speed") == "speed";
    assert OccursAt(Lower(title), "speed", |before|) by {
      assert Lower(title) == Lower(before) + "speed" + Lower(after);
      assert Lower(title)[|before|..|before| + 5] == "speed";
    }
  }

  // ---------------------------------------------------------------------------
  // Card description and recommendations

  /**
    The card's description: the first line of a non-empty markdown with its
    first "# " removed; without markdown, a phrase naming the format and the
    lowercased category.
  */
  function Description(r: TrainingResource): string {
    if r.markdown.Some? && r.markdown.value != "" then
      ReplaceFirst(SplitOn(r.markdown.value, '\n')[0], "# ", "")
    else
      (if r.format == Video then "Video training" else "Documentation") + " for " + Lower(r.category)
  }

  /** A markdown document that opens with a heading line is described by the heading's text. */
  lemma HeadingBecomesDescription(r: TrainingResource, heading: string, body: string)
    requires '\n' !in heading
    requires r.markdown == Some("# " + heading + "\n" + body)
    ensures Description(r) == heading
  {
    var line := "# " + heading;
    assert r.markdown.value == line + ['\n'] + body;
    assert '\n' !in line by {
      assert forall k :: 0 <= k < |line| ==> line[k] == (if k < 2 then "# "[k] else heading[k - 2]);
    }
    SplitAtFirstSeparator(line, body, '\n');
    assert OccursAt(line, "# ", 0);
    assert line[2..] == heading;
  }

  /** A description taken from the markdown is a single line. */
  lemma MarkdownDescriptionIsOneLine(r: TrainingResource)
    requires r.markdown.Some? && r.markdown.value != ""
    ensures '\n' !in Description(r)
  {
    var line := SplitOn(r.markdown.value, '\n')[0];
    assert '\n' !in line;
    var found := IndexOf(line, "# ");
    if found.Some? {
      var i := found.value;
      assert OccursAt(line, "# ", i);
      var d := line[..i] + "" + line[i + 2..];
      assert Description(r) == d;
      assert forall x :: x in d ==> x in line;
    }
  }

  /** Without markdown (or with an empty one) the description names the format and the category in lower case. */
  lemma FallbackDescription(r: TrainingResource)
    requires r.markdown.None? || r.markdown == Some("")
    ensures r.format == Video ==> Description(r) == "Video training for " + Lower(r.category)
    ensures r.format == Doc ==> Description(r) == "Documentation for " + Lower(r.category)
  {
  }

  /** `recommended.slice(0, 3)`: the cards drawn for the recommendations. */
  function RecommendedCards(recommended: seq<TrainingResource>): (cards: seq<TrainingResource>)
    ensures |cards| <= 3 && cards <= recommended
    ensures |recommended| <= 3 ==> cards == recommended
  {
    Take(recommended, 3)
  }

  /** The server already sends at most three recommendations, so the page draws all of them. */
  lemma ServerRecommendationsAllDrawn(insightAspects: seq<seq<string>>, resources: seq<TrainingResource>)
    ensures RecommendedCards(Storage.RecommendedTraining(insightAspects, resources)) == Storage.RecommendedTraining(insightAspects, resources)
  {
  }
}
