/** The home page's event list: the category pills, the category and search
    filters, and the list they leave on screen. */
module Home {
  import opened Wrappers
  import opened Seqs
  import opened Text
  import opened Types

  /** The pill that switches the category filter off. */
  const AllCategories := "Todos"

  /** The pill label of an event without a category. */
  const DefaultCategory := "Geral"

  // ------------------------------------------------------------- filters

  /** `tags.some(t => t.toLowerCase() === sel.toLowerCase())`. */
  predicate HasTagIgnoringCase(tags: seq<string>, sel: string) {
    exists t :: t in tags && ToLower(t) == ToLower(sel)
  }

  /** The category test: the lower-cased category contains the lower-cased
      selection, or a tag equals it up to case. A missing category never
      matches by itself. */
  function MatchesCategory(e: PickleballEvent, sel: string): (matches: bool)
    ensures e.category.None? && e.tags.None? ==> !matches
    ensures e.category.Some? && ToLower(e.category.value) == ToLower(sel) ==> matches
    ensures e.tags.Some? && sel in e.tags.value ==> matches
  {
    if e.category.Some? && ToLower(e.category.value) == ToLower(sel) then
      ContainsItself(ToLower(sel));
      true
    else
      (e.category.Some? && Contains(ToLower(e.category.value), ToLower(sel))) ||
      (e.tags.Some? && HasTagIgnoringCase(e.tags.value, sel))
  }

  /** The search test: the lower-cased title, location or category contains
      the lower-cased term. The empty term matches every event, and a title
      equal to the term up to case always matches. */
  function MatchesSearch(e: PickleballEvent, term: string): (matches: bool)
    ensures term == "" ==> matches
    ensures ToLower(e.title) == ToLower(term) ==> matches
  {
    var lowerTerm := ToLower(term);
    ContainsEmpty(ToLower(e.title));
    ContainsItself(lowerTerm);
    Contains(ToLower(e.title), lowerTerm) || Contains(ToLower(e.location), lowerTerm) ||
    (e.category.Some? && Contains(ToLower(e.category.value), lowerTerm))
  }

  lemma ContainsEmpty(s: string)
    ensures Contains(s, "")
  {
    assert IsPrefix("", s);
  }

  function CategoryFilter(sel: string): PickleballEvent -> bool {
    (e: PickleballEvent) => MatchesCategory(e, sel)
  }

  function SearchFilter(term: string): PickleballEvent -> bool {
    (e: PickleballEvent) => MatchesSearch(e, term)
  }

  /** The list the filter effect leaves on screen, as written: the category
      filter unless 'Todos' is selected, then the search filter unless the
      term is empty. */
  function VisibleEvents(events: seq<PickleballEvent>, sel: string, term: string): (shown: seq<PickleballEvent>)
    ensures IsSubsequence(shown, events)
    ensures forall e :: e in shown <==>
      e in events && (sel == AllCategories || MatchesCategory(e, sel)) && (term == "" || MatchesSearch(e, term))
  {
    var byCategory := if sel != AllCategories then Filter(events, CategoryFilter(sel)) else events;
    SubsequenceReflexive(events);
    var shown := if term != "" then Filter(byCategory, SearchFilter(term)) else byCategory;
    SubsequenceReflexive(byCategory);
    SubsequenceTransitive(shown, byCategory, events);
    shown
  }

  /** With 'Todos' and an empty search, every loaded event is shown. */
  lemma ShowAll(events: seq<PickleballEvent>)
    ensures VisibleEvents(events, AllCategories, "") == events
  {
  }

  /** The search ignores the case of the term. */
  lemma SearchIgnoresCase(events: seq<PickleballEvent>, sel: string, term: string)
    ensures VisibleEvents(events, sel, ToLower(term)) == VisibleEvents(events, sel, term)
  {
    var byCategory := if sel != AllCategories then Filter(events, CategoryFilter(sel)) else events;
    if term != "" {
      ToLowerIdempotent(term);
      FilterCongruent(byCategory, SearchFilter(ToLower(term)), SearchFilter(term));
    }
  }

  // ---------------------------------------------------------------- pills

  /** `e.category || 'Geral'`. */
  function CategoryLabel(e: PickleballEvent): (name: string)
    ensures name != ""
  {
    OrElse(e.category, DefaultCategory)
  }

  /** The labels of the events, in event order, empty ones dropped. */
  function Labels(events: seq<PickleballEvent>): (labels: seq<string>)
    ensures labels == Map(events, CategoryLabel)
  {
    var labels := Map(events, CategoryLabel);
    FilterKeepsAll(labels, IsNonEmpty);
    Filter(labels, IsNonEmpty)
  }

  /** A label is among the labels exactly when some event carries it. */
  lemma LabelsMembership(events: seq<PickleballEvent>)
    ensures forall c :: c in Labels(events) <==> exists e :: e in events && CategoryLabel(e) == c
  {
    var labels := Labels(events);
    forall c
      ensures c in labels <==> exists e :: e in events && CategoryLabel(e) == c
    {
      if c in labels {
        var i :| 0 <= i < |labels| && labels[i] == c;
        assert events[i] in events;
      }
      if exists e :: e in events && CategoryLabel(e) == c {
        var e :| e in events && CategoryLabel(e) == c;
        var i :| 0 <= i < |events| && events[i] == e;
        assert labels[i] == c;
      }
    }
  }

  /** The pills: 'Todos', then every event's label once, in the order the
      labels first appear (`Dedup`, whose order `DedupFirstAppearanceOrder`
      states). */
  function Categories(events: seq<PickleballEvent>): (cats: seq<string>)
    ensures |cats| >= 1 && cats[0] == AllCategories
    ensures cats[1..] == Dedup(Labels(events))
    ensures NoDuplicates(cats[1..])
    ensures forall c :: c in cats[1..] <==> exists e :: e in events && CategoryLabel(e) == c
  {
    LabelsMembership(events);
    var cats := [AllCategories] + Dedup(Labels(events));
    assert cats[1..] == Dedup(Labels(events));
    cats
  }

  // ------------------------------------------- the uncategorised events

  /** As written, an event without a category or tags gets a 'Geral' pill,
      and choosing that pill hides the event. */
  lemma DefaultPillHidesUncategorised(e: PickleballEvent)
    requires e.category.None? && e.tags.None?
    ensures DefaultCategory in Categories([e])[1..]
    ensures VisibleEvents([e], DefaultCategory, "") == []
  {
    assert e in [e];
  }

  /** The category test on the label the pill shows. */
  predicate MatchesCategoryLabel(e: PickleballEvent, sel: string) {
    Contains(ToLower(CategoryLabel(e)), ToLower(sel)) ||
    (e.tags.Some? && HasTagIgnoringCase(e.tags.value, sel))
  }

  function LabelFilter(sel: string): PickleballEvent -> bool {
    (e: PickleballEvent) => MatchesCategoryLabel(e, sel)
  }

  /** The list shown when the category filter reads the same label the
      pills show. */
  function VisibleEventsByLabel(events: seq<PickleballEvent>, sel: string, term: string): (shown: seq<PickleballEvent>)
    ensures IsSubsequence(shown, events)
    ensures forall e :: e in shown <==>
      e in events && (sel == AllCategories || MatchesCategoryLabel(e, sel)) && (term == "" || MatchesSearch(e, term))
  {
    var byCategory := if sel != AllCategories then Filter(events, LabelFilter(sel)) else events;
    SubsequenceReflexive(events);
    var shown := if term != "" then Filter(byCategory, SearchFilter(term)) else byCategory;
    SubsequenceReflexive(byCategory);
    SubsequenceTransitive(shown, byCategory, events);
    shown
  }

  lemma ContainsItself(s: string)
    ensures Contains(s, s)
  {
    assert IsPrefix(s, s);
  }

  /** Every pill shows at least one event while the search is empty. */
  lemma EveryPillShowsAnEvent(events: seq<PickleballEvent>, c: string)
    requires c in Categories(events)[1..]
    ensures |VisibleEventsByLabel(events, c, "")| > 0
  {
    var e :| e in events && CategoryLabel(e) == c;
    ContainsItself(ToLower(c));
    assert MatchesCategoryLabel(e, c);
    assert e in VisibleEventsByLabel(events, c, "");
  }

  /** Where every event has a non-empty category both filters agree. */
  lemma ByLabelAgreesWhenCategorised(events: seq<PickleballEvent>, sel: string, term: string)
    requires forall i :: 0 <= i < |events| ==> OrElse(events[i].category, "") != ""
    ensures VisibleEventsByLabel(events, sel, term) == VisibleEvents(events, sel, term)
  {
    if sel != AllCategories {
      FilterCongruent(events, LabelFilter(sel), CategoryFilter(sel));
    }
  }

  // ----------------------------------------------------------- the page

  /** The home page's state: the loaded events, the search box and the
      selected pill. The shown list is derived from these on every change. */
  datatype HomeState = HomeState(events: seq<PickleballEvent>, searchTerm: string, selectedCategory: string)

  /** The page before anything is typed or chosen. */
  function InitialState(events: seq<PickleballEvent>): HomeState {
    HomeState(events, "", AllCategories)
  }

  /** The events on screen, through the filter as written. */
  function Shown(st: HomeState): (shown: seq<PickleballEvent>)
    ensures IsSubsequence(shown, st.events)
    ensures forall e :: e in shown <==>
      e in st.events && (st.selectedCategory == AllCategories || MatchesCategory(e, st.selectedCategory)) &&
      (st.searchTerm == "" || MatchesSearch(e, st.searchTerm))
  {
    VisibleEvents(st.events, st.selectedCategory, st.searchTerm)
  }

  /** "Limpar filtros": both filters off. */
  function ClearFilters(st: HomeState): (cleared: HomeState)
    ensures cleared.events == st.events
  {
    st.(searchTerm := "", selectedCategory := AllCategories)
  }

  /** After clearing the filters every loaded event is shown again, whatever
      was selected or typed before. */
  lemma ClearFiltersShowsAll(st: HomeState)
    ensures Shown(ClearFilters(st)) == st.events
  {
  }

  /** Clearing the filters returns the page to its initial state. */
  lemma ClearFiltersRestoresInitial(st: HomeState)
    ensures ClearFilters(st) == InitialState(st.events)
  {
  }
}
