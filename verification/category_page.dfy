/**
 * The category listing page: one request per mount or per change of the
 * `category` route parameter, no retry, the parameter selecting which foods
 * to keep, a title derived from the parameter, and a fixed render precedence.
 */
module CategoryPage {
  import opened Maybe
  import opened Text
  import opened Seqs
  import opened Http
  import opened Keyed
  import opened Catalog
  import opened Retry
  import Home

  datatype State = State(loading: bool, error: Option<string>, foods: seq<Food>)

  const Initial := State(true, None, [])

  const LoadError := "Failed to load foods. Please try again."

  /** The foods kept for a route parameter: all for "all" in any case, else the case-insensitive matches. */
  function PageFoods(param: string, flat: seq<Food>): (r: seq<Food>)
    ensures Lower(param) == "all" ==> r == flat
    ensures Lower(param) != "all" ==>
      IsSubseq(r, flat) && forall f :: multiset(r)[f] == if SameCategory(param, f) then multiset(flat)[f] else 0
  {
    if Lower(param) == "all" then flat else Filter(flat, f => SameCategory(param, f))
  }

  /**
   * The fetch effect for one route parameter, consuming exactly one outcome:
   * a 200 replaces the foods, anything else sets the error, and loading
   * ends false either way. The error is never cleared.
   */
  function Fetch(param: string, s: State, o: Response): (r: State)
    ensures !r.loading
    ensures Is200(o) ==> r.foods == PageFoods(param, Flatten(o.data)) && r.error == s.error
    ensures !Is200(o) ==> r.error == Some(LoadError) && r.foods == s.foods
  {
    if Is200(o) then s.(foods := PageFoods(param, Flatten(o.data)), loading := false)
    else s.(error := Some(LoadError), loading := false)
  }

  /**
   * The same effect clearing the error when it starts, as the render
   * precedence evidently expects.
   */
  function FetchCorrected(param: string, s: State, o: Response): (r: State)
    ensures !r.loading
    ensures Is200(o) ==> r.error == None && r.foods == PageFoods(param, Flatten(o.data))
    ensures !Is200(o) ==> r.error == Some(LoadError) && r.foods == s.foods
  {
    Fetch(param, s.(error := None), o)
  }

  /** `{category.toLowerCase() === 'all' ? 'All Foods' : <first letter upper-cased> + rest + ' Foods'}`. */
  function Title(param: string): (r: string)
    ensures Lower(param) == "all" ==> r == "All Foods"
    ensures Lower(param) != "all" ==>
      && |r| == |param| + |" Foods"|
      && r[|param|..] == " Foods"
      && (|param| > 0 ==> r[0] == UpperChar(param[0]) && r[1..|param|] == param[1..])
  {
    if Lower(param) == "all" then "All Foods"
    else if |param| == 0 then " Foods"
    else [UpperChar(param[0])] + param[1..] + " Foods"
  }

  /** A name whose first character is not a lower-case letter and whose other letters are all lower case. */
  predicate Capitalised(name: string) {
    |name| > 0 && !IsLower(name[0]) && IsLowerCase(name[1..])
  }

  /**
   * The home page links to `/category-food/<name lower-cased>`; for a
   * capitalised category name the title gives the name back.
   */
  lemma TitleOfLink(name: string)
    requires Capitalised(name)
    ensures Title(Lower(name)) == name + " Foods"
  {
    LowerOfLowerCase(name[1..]);
    assert Lower(name)[1..] == Lower(name[1..]);
    assert [UpperChar(Lower(name)[0])] + Lower(name)[1..] == name;
    if Lower(name) == "all" {
      assert name == "All" by {
        assert |name| == 3;
        assert name[0] == UpperChar(Lower(name)[0]) == 'A';
        assert name[1..] == Lower(name)[1..] == "ll";
      }
    }
  }

  /**
   * A category link from the home page shows exactly what the home page's
   * own category filter shows for that name, given the same flattened list.
   */
  lemma LinkMatchesHomeFilter(name: string, flat: seq<Food>)
    requires name == AllCategory || Lower(name) != "all"
    ensures PageFoods(Lower(name), flat) == Home.FilteredFoods(flat, name)
  {
    if name == AllCategory {
      assert Lower(name) == "all" by {
        assert Lower(name)[0] == 'a' && Lower(name)[1] == 'l' && Lower(name)[2] == 'l';
      }
    } else {
      LowerIdempotent(name);
      assert Lower(Lower(name)) != "all";
      assert PageFoods(Lower(name), flat) == Filter(flat, f => SameCategory(Lower(name), f));
      assert Home.FilteredFoods(flat, name) == Filter(flat, f => SameCategory(name, f));
      FilterSamePredicate(flat, f => SameCategory(Lower(name), f), f => SameCategory(name, f));
    }
  }

  /**
   * When no food id repeats across the response, the category page and the
   * home page list the same foods for a home link, although only the home
   * page de-duplicates the flattened list.
   */
  lemma LinkMatchesHomeList(name: string, d: seq<Category>)
    requires name == AllCategory || Lower(name) != "all"
    requires UniqueKeys(Flatten(d), IdOf)
    ensures PageFoods(Lower(name), Flatten(d)) == Home.FilteredFoods(Dedup(Flatten(d)), name)
  {
    DedupDistinctIds(Flatten(d));
    LinkMatchesHomeFilter(name, Flatten(d));
  }

  datatype View = Skeleton | ErrorText(message: string) | Grid(foods: seq<Food>) | NoFoods

  /** Loading first, then the error, then the non-empty grid, then the empty message. */
  function Render(s: State): (r: View)
    ensures r == Skeleton <==> s.loading
    ensures r.ErrorText? <==> !s.loading && Shown(s.error)
    ensures r.ErrorText? ==> r.message == s.error.value
    ensures r.Grid? <==> !s.loading && !Shown(s.error) && |s.foods| > 0
    ensures r.Grid? ==> r.foods == s.foods
  {
    if s.loading then Skeleton
    else if Shown(s.error) then ErrorText(s.error.value)
    else if |s.foods| > 0 then Grid(s.foods)
    else NoFoods
  }

  /**
   * As written, one failed fetch hides every later successful one: moving
   * from a route parameter whose fetch failed to one whose fetch succeeds
   * still renders the error instead of the foods that were loaded.
   */
  lemma StaleErrorHidesFoods(cola: Item)
    ensures var s1 := Fetch("pizza", Initial, Thrown(""));
      var s2 := Fetch("drinks", s1, Ok(200, [Category("Drinks", [cola])]));
      |s2.foods| == 1 && Render(s2) == ErrorText(LoadError)
  {
    var s1 := Fetch("pizza", Initial, Thrown(""));
    var flat := Flatten([Category("Drinks", [cola])]);
    assert flat == [Food(cola, "Drinks")];
    assert SameCategory("drinks", flat[0]);
    assert PageFoods("drinks", flat) == flat by {
      FilterKeepsAll(flat, f => SameCategory("drinks", f));
    }
  }

  /** With the error cleared at the start, what is shown depends only on the latest outcome. */
  lemma CorrectedShowsLatestOutcome(param: string, s: State, o: Response)
    ensures Is200(o) ==>
      Render(FetchCorrected(param, s, o)) ==
        (if |PageFoods(param, Flatten(o.data))| > 0 then Grid(PageFoods(param, Flatten(o.data))) else NoFoods)
    ensures !Is200(o) ==> Render(FetchCorrected(param, s, o)) == ErrorText(LoadError)
  {
  }
}
