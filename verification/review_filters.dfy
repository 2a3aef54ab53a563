/**
  The review filter panel: the state record of the six filters, the checkbox
  toggles over its three lists, and the handlers that replace the record and
  report every new record to the page.
*/
module ReviewFilters {
  import opened Seqs

  /**
    `list.includes(x) ? list.filter(y => y !== x) : [...list, x]`: a present
    value is removed (every occurrence), an absent one appended.
  */
  function Toggle<T(==)>(list: seq<T>, x: T): seq<T> {
    if x in list then Filter(y => y != x, list) else list + [x]
  }

  /** Toggling an absent value appends it at the end. */
  lemma ToggleAbsent<T>(list: seq<T>, x: T)
    requires x !in list
    ensures Toggle(list, x) == list + [x]
  {
  }

  /** Toggling a present value removes every occurrence of it and keeps the rest in order. */
  lemma TogglePresent<T>(list: seq<T>, x: T)
    requires x in list
    ensures x !in Toggle(list, x)
    ensures IsSubsequence(Toggle(list, x), list)
    ensures forall y :: y != x ==> (y in Toggle(list, x) <==> y in list)
  {
    FilterMembers(y => y != x, list);
    FilterIsSubsequence(y => y != x, list);
  }

  /** A toggle flips the membership of its own value and leaves every other value's membership alone. */
  lemma ToggleMembership<T>(list: seq<T>, x: T)
    ensures x in Toggle(list, x) <==> x !in list
    ensures forall y :: y != x ==> (y in Toggle(list, x) <==> y in list)
  {
    FilterMembers(y => y != x, list);
  }

  /** Toggling an absent value twice gives back the original list exactly. */
  lemma ToggleTwice<T>(list: seq<T>, x: T)
    requires x !in list
    ensures Toggle(Toggle(list, x), x) == list
  {
    var p := y => y != x;
    FilterConcat(p, list, [x]);
    FilterAllOrNothing(p, list);
    FilterAllOrNothing(p, [x]);
  }

  /** A list without duplicates stays without duplicates. */
  lemma ToggleKeepsNoDup<T>(list: seq<T>, x: T)
    requires NoDup(list)
    ensures NoDup(Toggle(list, x))
  {
    if x in list {
      FilterNoDup(y => y != x, list);
    }
  }

  /** The filter state; dates are the text of the date inputs. */
  datatype Filters = Filters(
    dateFrom: string,
    dateTo: string,
    ratings: seq<int>,
    sources: seq<string>,
    aspects: seq<string>,
    keyword: string)

  const EmptyFilters := Filters("", "", [], [], [], "")

  /** The names of the six filters. */
  datatype Field = DateFromField | DateToField | RatingsField | SourcesField | AspectsField | KeywordField

  /** A value of one filter, whatever its field. */
  datatype FieldValue = Text(text: string) | Numbers(numbers: seq<int>) | Names(names: seq<string>)

  /** `handleFilterChange(key, value)`: a new value for one named field. */
  datatype FilterUpdate =
    | SetDateFrom(dateFrom: string)
    | SetDateTo(dateTo: string)
    | SetRatings(ratings: seq<int>)
    | SetSources(sources: seq<string>)
    | SetAspects(aspects: seq<string>)
    | SetKeyword(keyword: string)

  function FieldOf(u: FilterUpdate): Field {
    match u
    case SetDateFrom(_) => DateFromField
    case SetDateTo(_) => DateToField
    case SetRatings(_) => RatingsField
    case SetSources(_) => SourcesField
    case SetAspects(_) => AspectsField
    case SetKeyword(_) => KeywordField
  }

  function ValueOf(u: FilterUpdate): FieldValue {
    match u
    case SetDateFrom(v) => Text(v)
    case SetDateTo(v) => Text(v)
    case SetRatings(v) => Numbers(v)
    case SetSources(v) => Names(v)
    case SetAspects(v) => Names(v)
    case SetKeyword(v) => Text(v)
  }

  /** Reads one field of the record. */
  function Get(f: Filters, field: Field): FieldValue {
    match field
    case DateFromField => Text(f.dateFrom)
    case DateToField => Text(f.dateTo)
    case RatingsField => Numbers(f.ratings)
    case SourcesField => Names(f.sources)
    case AspectsField => Names(f.aspects)
    case KeywordField => Text(f.keyword)
  }

  /** `{ ...filters, [key]: value }`. */
  function Apply(f: Filters, u: FilterUpdate): Filters {
    match u
    case SetDateFrom(v) => f.(dateFrom := v)
    case SetDateTo(v) => f.(dateTo := v)
    case SetRatings(v) => f.(ratings := v)
    case SetSources(v) => f.(sources := v)
    case SetAspects(v) => f.(aspects := v)
    case SetKeyword(v) => f.(keyword := v)
  }

  /** An update sets its own field to its value and changes no other field. */
  lemma ApplyChangesOnlyNamedField(f: Filters, u: FilterUpdate)
    ensures Get(Apply(f, u), FieldOf(u)) == ValueOf(u)
    ensures forall g :: g != FieldOf(u) ==> Get(Apply(f, u), g) == Get(f, g)
  {
  }

  /** Updates of two different fields commute. */
  lemma ApplyCommutes(f: Filters, u: FilterUpdate, v: FilterUpdate)
    requires FieldOf(u) != FieldOf(v)
    ensures Apply(Apply(f, u), v) == Apply(Apply(f, v), u)
  {
  }

  /** No list filter holds a value twice. */
  predicate ListsWithoutDuplicates(f: Filters) {
    NoDup(f.ratings) && NoDup(f.sources) && NoDup(f.aspects)
  }

  /**
    The component's state: the current record, and every record reported to
    the page through `onFiltersChange`, oldest first.
  */
  class FilterPanel {
    var filters: Filters
    var reported: seq<Filters>

    constructor()
      ensures filters == EmptyFilters && reported == []
      ensures ListsWithoutDuplicates(filters)
    {
      filters := EmptyFilters;
      reported := [];
    }

    /** `handleFilterChange`: replace one field, store the new record and report it. */
    method HandleFilterChange(u: FilterUpdate)
      modifies this
      ensures filters == Apply(old(filters), u)
      ensures reported == old(reported) + [filters]
    {
      var newFilters := Apply(filters, u);
      filters := newFilters;
      reported := reported + [newFilters];
    }

    /** `handleRatingToggle`. */
    method HandleRatingToggle(rating: int)
      modifies this
      ensures filters == old(filters).(ratings := Toggle(old(filters).ratings, rating))
      ensures reported == old(reported) + [filters]
      ensures old(ListsWithoutDuplicates(filters)) ==> ListsWithoutDuplicates(filters)
    {
      if ListsWithoutDuplicates(filters) {
        ToggleKeepsNoDup(filters.ratings, rating);
      }
      HandleFilterChange(SetRatings(Toggle(filters.ratings, rating)));
    }

    /** `handleSourceToggle`. */
    method HandleSourceToggle(source: string)
      modifies this
      ensures filters == old(filters).(sources := Toggle(old(filters).sources, source))
      ensures reported == old(reported) + [filters]
      ensures old(ListsWithoutDuplicates(filters)) ==> ListsWithoutDuplicates(filters)
    {
      if ListsWithoutDuplicates(filters) {
        ToggleKeepsNoDup(filters.sources, source);
      }
      HandleFilterChange(SetSources(Toggle(filters.sources, source)));
    }

    /** `handleAspectToggle`. */
    method HandleAspectToggle(aspect: string)
      modifies this
      ensures filters == old(filters).(aspects := Toggle(old(filters).aspects, aspect))
      ensures reported == old(reported) + [filters]
      ensures old(ListsWithoutDuplicates(filters)) ==> ListsWithoutDuplicates(filters)
    {
      if ListsWithoutDuplicates(filters) {
        ToggleKeepsNoDup(filters.aspects, aspect);
      }
      HandleFilterChange(SetAspects(Toggle(filters.aspects, aspect)));
    }

    /** `clearFilters`: both dates and the keyword become "", the three lists []. */
    method ClearFilters()
      modifies this
      ensures filters == EmptyFilters
      ensures reported == old(reported) + [EmptyFilters]
      ensures ListsWithoutDuplicates(filters)
    {
      filters := EmptyFilters;
      reported := reported + [EmptyFilters];
    }
  }
}
