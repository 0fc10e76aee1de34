/**
 * The home page: the retry loop with the silent-stall policy, the
 * de-duplicated food list and derived category list, and the three views
 * derived from them (category filter, name search, grouped by category).
 */
module Home {
  import opened Maybe
  import opened Text
  import opened Seqs
  import opened Catalog
  import opened Retry
  import opened Http

  datatype State = State(
    selectedCategory: string,
    allFoods: seq<Food>,
    categories: seq<string>,
    searchQuery: string,
    loading: bool)

  const Initial := State(AllCategory, [], [], "", true)

  /**
   * The page once the given outcomes have arrived. The loop starts from the
   * initial state: the search box is disabled and the category buttons are
   * not shown while loading, so nothing else changes the state meanwhile.
   */
  function Mount(outcomes: seq<Response>): State {
    match Run(outcomes).verdict
    case Loaded(d) =>
      Initial.(allFoods := Dedup(Flatten(d)), categories := DeriveCategories(d), loading := false)
    case Exhausted => Initial.(loading := true)
    case Pending => Initial
  }

  /**
   * The silent-stall policy: loading ends exactly when one of the first
   * MaxRetries responses is a 200, and the lists then come from that first
   * 200; when all MaxRetries requests fail the page stays in its initial,
   * loading state for good, with no error to show.
   */
  lemma MountPolicy(outcomes: seq<Response>)
    ensures !Mount(outcomes).loading <==> exists i: nat :: FirstSuccessAt(outcomes, i)
    ensures forall i: nat :: FirstSuccessAt(outcomes, i) ==>
      Mount(outcomes).allFoods == Dedup(Flatten(outcomes[i].data)) &&
      Mount(outcomes).categories == DeriveCategories(outcomes[i].data)
    ensures |outcomes| >= MaxRetries && FailedBefore(outcomes, MaxRetries) ==>
      Mount(outcomes) == Initial && Mount(outcomes).loading
  {
    RunExhausted(outcomes);
    forall i: nat | FirstSuccessAt(outcomes, i)
      ensures Run(outcomes).verdict == Loaded(outcomes[i].data)
    {
      RunLoaded(outcomes, outcomes[i].data);
    }
    if Run(outcomes).verdict.Loaded? {
      RunLoaded(outcomes, Run(outcomes).verdict.data);
    }
  }

  /** `allFoods.filter(food => food.category.toLowerCase() === c.toLowerCase())`. */
  function ByCategory(foods: seq<Food>, c: string): (r: seq<Food>)
    ensures IsSubseq(r, foods)
    ensures forall f :: multiset(r)[f] == if SameCategory(c, f) then multiset(foods)[f] else 0
  {
    Filter(foods, f => SameCategory(c, f))
  }

  /** `filteredFoods`: everything for "All", else the case-insensitive category matches in order. */
  function FilteredFoods(foods: seq<Food>, selected: string): (r: seq<Food>)
    ensures selected == AllCategory ==> r == foods
    ensures selected != AllCategory ==>
      IsSubseq(r, foods) && forall f :: multiset(r)[f] == if SameCategory(selected, f) then multiset(foods)[f] else 0
  {
    if selected == AllCategory then foods else ByCategory(foods, selected)
  }

  predicate NameMatches(query: string, f: Food) { Contains(Lower(f.item.itemName), Lower(query)) }

  /** `searchResults`: the foods whose lower-cased name contains the lower-cased query, in order. */
  function SearchResults(foods: seq<Food>, query: string): (r: seq<Food>)
    ensures IsSubseq(r, foods)
    ensures forall f :: multiset(r)[f] == if NameMatches(query, f) then multiset(foods)[f] else 0
  {
    Filter(foods, f => NameMatches(query, f))
  }

  /** The empty query matches every food (the page then hides the results). */
  lemma SearchEmptyQuery(foods: seq<Food>)
    ensures SearchResults(foods, "") == foods
  {
    forall i | 0 <= i < |foods| ensures NameMatches("", foods[i]) {
      ContainsEmpty(Lower(foods[i].item.itemName));
    }
    FilterKeepsAll(foods, f => NameMatches("", f));
  }

  /** Searching ignores the case of the query. */
  lemma SearchIgnoresQueryCase(foods: seq<Food>, query: string)
    ensures SearchResults(foods, query) == SearchResults(foods, Lower(query))
  {
    LowerIdempotent(query);
    FilterSamePredicate(foods, f => NameMatches(query, f), f => NameMatches(Lower(query), f));
  }

  /** A lower-cased selection is never the literal "All", whose first letter is upper case. */
  lemma LowerIsNotAll(s: string)
    ensures Lower(s) != AllCategory
  {
    LowerIsLowerCase(s);
    if |s| > 0 {
      assert !IsUpper(Lower(s)[0]);
    }
  }

  /** Selecting a category ignores the case of the selection, except that exactly "All" means everything. */
  lemma FilterIgnoresSelectionCase(foods: seq<Food>, selected: string)
    requires selected != AllCategory
    ensures FilteredFoods(foods, selected) == FilteredFoods(foods, Lower(selected))
  {
    LowerIsNotAll(selected);
    LowerIdempotent(selected);
    FilterSamePredicate(foods, f => SameCategory(selected, f), f => SameCategory(Lower(selected), f));
  }

  const GroupSize: nat := 4

  /** One "<name> Food" carousel of the grouped view. */
  datatype Group = Group(name: string, foods: seq<Food>)

  function GroupNames(gs: seq<Group>): (r: seq<string>)
    ensures |r| == |gs|
  {
    if |gs| == 0 then [] else [gs[0].name] + GroupNames(gs[1..])
  }

  /**
   * `groupedFoods`: for each category other than "All", in order, its first
   * GroupSize case-insensitive matches, dropping categories with none.
   */
  function GroupedFoods(categories: seq<string>, foods: seq<Food>): (r: seq<Group>)
    ensures forall g :: g in r ==>
      && g.name != AllCategory
      && 0 < |g.foods| <= GroupSize
      && g.foods == Take(ByCategory(foods, g.name), GroupSize)
    decreases |categories|
  {
    if |categories| == 0 then []
    else
      var rest := GroupedFoods(categories[1..], foods);
      var c := categories[0];
      var g := Take(ByCategory(foods, c), GroupSize);
      if c != AllCategory && |g| > 0 then [Group(c, g)] + rest else rest
  }

  /** Whether a category of the bar gets a carousel of its own. */
  predicate Grouped(foods: seq<Food>, c: string) {
    c != AllCategory && |ByCategory(foods, c)| > 0
  }

  /** The carousel names grow one category at a time. */
  lemma GroupNamesCons(categories: seq<string>, foods: seq<Food>)
    requires |categories| > 0
    ensures GroupNames(GroupedFoods(categories, foods)) ==
      (if Grouped(foods, categories[0]) then [categories[0]] else []) + GroupNames(GroupedFoods(categories[1..], foods))
  {
    var rest := GroupedFoods(categories[1..], foods);
    var c := categories[0];
    var g := Take(ByCategory(foods, c), GroupSize);
    assert Grouped(foods, c) <==> c != AllCategory && |g| > 0;
    if c != AllCategory && |g| > 0 {
      assert GroupedFoods(categories, foods) == [Group(c, g)] + rest;
      assert ([Group(c, g)] + rest)[1..] == rest;
      assert GroupNames([Group(c, g)] + rest) == [c] + GroupNames(rest);
    } else {
      assert GroupedFoods(categories, foods) == rest;
      assert [] + GroupNames(rest) == GroupNames(rest);
    }
  }

  /** The carousels follow the category bar's order. */
  lemma {:induction false} GroupedFoodsInOrder(categories: seq<string>, foods: seq<Food>)
    ensures IsSubseq(GroupNames(GroupedFoods(categories, foods)), categories)
    decreases |categories|
  {
    if |categories| > 0 {
      GroupedFoodsInOrder(categories[1..], foods);
      GroupNamesCons(categories, foods);
      var names := GroupNames(GroupedFoods(categories, foods));
      if Grouped(foods, categories[0]) {
        assert names[0] == categories[0] && names[1..] == GroupNames(GroupedFoods(categories[1..], foods));
      } else {
        assert names == GroupNames(GroupedFoods(categories[1..], foods));
      }
    }
  }

  /** Every category other than "All" with at least one matching food gets a carousel. */
  lemma {:induction false} GroupedFoodsComplete(categories: seq<string>, foods: seq<Food>, c: string)
    requires c in categories && Grouped(foods, c)
    ensures c in GroupNames(GroupedFoods(categories, foods))
    decreases |categories|
  {
    GroupNamesCons(categories, foods);
    var names := GroupNames(GroupedFoods(categories, foods));
    var rest := GroupNames(GroupedFoods(categories[1..], foods));
    if c == categories[0] {
      assert names[0] == c;
    } else {
      assert c in categories[1..];
      GroupedFoodsComplete(categories[1..], foods, c);
      assert names[|names| - |rest|..] == rest;
    }
  }

  const DefaultSlidesToShow: nat := 2

  /** The carousel settings that depend on the number of items. */
  datatype SliderSettings = SliderSettings(dots: bool, infinite: bool, speed: nat, slidesToShow: nat, slidesToScroll: nat)

  /**
   * `getSliderSettings(itemCount)`: show up to two slides, and loop only
   * when there are more items than slides shown.
   */
  function GetSliderSettings(itemCount: nat): (r: SliderSettings)
    ensures r.slidesToShow <= itemCount && r.slidesToShow <= DefaultSlidesToShow
    ensures r.slidesToShow == itemCount || r.slidesToShow == DefaultSlidesToShow
    ensures r.infinite <==> itemCount > r.slidesToShow
    ensures !r.dots && r.speed == 500 && r.slidesToScroll == 1
  {
    var slidesToShow := if itemCount < DefaultSlidesToShow then itemCount else DefaultSlidesToShow;
    SliderSettings(false, itemCount > DefaultSlidesToShow, 500, slidesToShow, 1)
  }

  /** What the page body shows. */
  datatype Screen =
    | Skeleton
    | SearchSection(results: seq<Food>)
    | Browse(categories: seq<string>, selected: string, featured: seq<Food>, groups: Option<seq<Group>>)

  /**
   * Loading shows only skeletons; otherwise a non-empty query shows only the
   * search results; otherwise the category bar, the selected category's foods
   * and, for "All" only, the grouped carousels.
   */
  function Render(s: State): (r: Screen)
    ensures r.Skeleton? <==> s.loading
    ensures r.SearchSection? <==> !s.loading && s.searchQuery != ""
    ensures r.SearchSection? ==> r.results == SearchResults(s.allFoods, s.searchQuery)
    ensures r.Browse? ==> r.featured == FilteredFoods(s.allFoods, s.selectedCategory)
    ensures r.Browse? ==> (r.groups.Some? <==> s.selectedCategory == AllCategory)
    ensures r.Browse? ==> r.categories == s.categories && r.selected == s.selectedCategory
    ensures r.Browse? && r.groups.Some? ==> r.groups.value == GroupedFoods(s.categories, s.allFoods)
  {
    if s.loading then Skeleton
    else if s.searchQuery != "" then SearchSection(SearchResults(s.allFoods, s.searchQuery))
    else Browse(
      s.categories,
      s.selectedCategory,
      FilteredFoods(s.allFoods, s.selectedCategory),
      if s.selectedCategory == AllCategory then Some(GroupedFoods(s.categories, s.allFoods)) else None)
  }
}
