/**
 * The admin category screen: the URL slug of a category, and the state
 * transitions of fetching, creating and deleting categories.
 */
module AdminCategories {
  import opened Maybe
  import opened Text
  import opened Http

  /** A category as the screen keeps it; created entries are `{name, itemCount: 0, image}`. */
  datatype Entry = Entry(name: string, itemCount: int, image: string)

  /** `newCategory`: the add-category form. */
  datatype Form = Form(name: string, image: string)

  const EmptyForm := Form("", "")

  datatype State = State(
    categories: seq<Entry>,
    modalOpen: bool,
    form: Form,
    error: Option<string>,
    loading: bool)

  const Initial := State([], false, EmptyForm, None, false)

  const Placeholder := "https://via.placeholder.com/150"
  const FetchError := "Failed to load seminars. Please try again."
  const CreateError := "Failed to create category. Please try again."
  const DeleteError := "Failed to delete seminar. Please try again."

  predicate AllSpace(s: string) {
    forall i :: 0 <= i < |s| ==> IsSpace(s[i])
  }

  /** s with its leading whitespace removed. */
  function DropSpaces(s: string): (r: string)
    ensures |r| <= |s| && r == s[|s| - |r|..]
    ensures AllSpace(s[..|s| - |r|])
    ensures |r| == 0 || !IsSpace(r[0])
    decreases |s|
  {
    if |s| > 0 && IsSpace(s[0]) then DropSpaces(s[1..]) else s
  }

  /** `s.replace(/\s+/g, '-')`: every maximal run of whitespace becomes one '-'. */
  function CollapseSpaces(s: string): (r: string)
    ensures |r| <= |s|
    ensures |s| > 0 ==> |r| > 0
    decreases |s|
  {
    if |s| == 0 then ""
    else if IsSpace(s[0]) then "-" + CollapseSpaces(DropSpaces(s[1..]))
    else [s[0]] + CollapseSpaces(s[1..])
  }

  /** Collapsing leaves no whitespace behind. */
  lemma {:induction false} CollapseHasNoSpace(s: string)
    ensures !HasSpace(CollapseSpaces(s))
    decreases |s|
  {
    if |s| > 0 {
      var rest := if IsSpace(s[0]) then DropSpaces(s[1..]) else s[1..];
      var head := if IsSpace(s[0]) then '-' else s[0];
      CollapseHasNoSpace(rest);
      var r := CollapseSpaces(s);
      assert r == [head] + CollapseSpaces(rest);
      forall i | 0 <= i < |r| ensures !IsSpace(r[i]) {
        if i > 0 { assert r[i] == CollapseSpaces(rest)[i - 1]; }
      }
    }
  }

  /** Collapsing adds no upper-case letter. */
  lemma {:induction false} CollapseKeepsLowerCase(s: string)
    requires IsLowerCase(s)
    ensures IsLowerCase(CollapseSpaces(s))
    decreases |s|
  {
    if |s| > 0 {
      var rest := if IsSpace(s[0]) then DropSpaces(s[1..]) else s[1..];
      var head := if IsSpace(s[0]) then '-' else s[0];
      assert rest == s[|s| - |rest|..];
      LowerCaseSuffix(s, |s| - |rest|);
      CollapseKeepsLowerCase(rest);
      assert CollapseSpaces(s) == [head] + CollapseSpaces(rest);
      LowerCaseCons(head, CollapseSpaces(rest));
    }
  }

  lemma LowerCaseSuffix(s: string, k: nat)
    requires IsLowerCase(s) && k <= |s|
    ensures IsLowerCase(s[k..])
  {
    forall i | 0 <= i < |s[k..]| ensures !IsUpper(s[k..][i]) {
      assert s[k..][i] == s[k + i];
    }
  }

  lemma LowerCaseCons(c: char, t: string)
    requires !IsUpper(c) && IsLowerCase(t)
    ensures IsLowerCase([c] + t)
  {
    forall i | 0 <= i < |[c] + t| ensures !IsUpper(([c] + t)[i]) {
      if i > 0 { assert ([c] + t)[i] == t[i - 1]; }
    }
  }

  /** The slug of a category name, as used in `/category/<slug>`. */
  function Slug(name: string): string {
    CollapseSpaces(Lower(name))
  }

  /** A string without whitespace is its own collapse. */
  lemma {:induction false} CollapseNoSpace(s: string)
    requires !HasSpace(s)
    ensures CollapseSpaces(s) == s
    decreases |s|
  {
    if |s| > 0 {
      assert !IsSpace(s[0]);
      CollapseNoSpace(s[1..]);
      assert s == [s[0]] + s[1..];
    }
  }

  /** The slug has no whitespace and no upper-case letter, and slugging it again changes nothing. */
  lemma SlugIsSlug(name: string)
    ensures !HasSpace(Slug(name)) && IsLowerCase(Slug(name))
    ensures Slug(Slug(name)) == Slug(name)
  {
    var s := Slug(name);
    LowerIsLowerCase(name);
    CollapseHasNoSpace(Lower(name));
    CollapseKeepsLowerCase(Lower(name));
    LowerOfLowerCase(s);
    CollapseNoSpace(s);
  }

  /** Leading whitespace followed by a non-space is dropped exactly. */
  lemma {:induction false} DropSpacesBefore(w: string, b: string)
    requires AllSpace(w)
    requires |b| == 0 || !IsSpace(b[0])
    ensures DropSpaces(w + b) == b
    decreases |w|
  {
    if |w| > 0 {
      assert (w + b)[1..] == w[1..] + b;
      DropSpacesBefore(w[1..], b);
    } else {
      assert w + b == b;
    }
  }

  /** Dropping leading whitespace of a piece that ends in a non-space stays inside that piece. */
  lemma {:induction false} DropSpacesPrefix(a: string, rest: string)
    requires |a| > 0 && !IsSpace(a[|a| - 1])
    ensures DropSpaces(a + rest) == DropSpaces(a) + rest
    ensures |DropSpaces(a)| > 0 && !IsSpace(DropSpaces(a)[|DropSpaces(a)| - 1])
    decreases |a|
  {
    if IsSpace(a[0]) {
      assert |a| > 1;
      assert (a + rest)[1..] == a[1..] + rest;
      DropSpacesPrefix(a[1..], rest);
    }
  }

  /** What one step of collapsing emits for a non-empty string, and what it continues on. */
  function StepHead(a: string): string
    requires |a| > 0
  {
    if IsSpace(a[0]) then "-" else [a[0]]
  }

  function StepRest(a: string): (r: string)
    requires |a| > 0
    ensures |r| < |a|
  {
    if IsSpace(a[0]) then DropSpaces(a[1..]) else a[1..]
  }

  /** A piece that does not end in whitespace collapses the same way whatever follows it. */
  lemma CollapseStep(a: string, t: string)
    requires |a| > 0 && !IsSpace(a[|a| - 1])
    ensures CollapseSpaces(a) == StepHead(a) + CollapseSpaces(StepRest(a))
    ensures CollapseSpaces(a + t) == StepHead(a) + CollapseSpaces(StepRest(a) + t)
    ensures |StepRest(a)| == 0 || !IsSpace(StepRest(a)[|StepRest(a)| - 1])
  {
    var s := a + t;
    if IsSpace(a[0]) {
      assert s[1..] == a[1..] + t;
      DropSpacesPrefix(a[1..], t);
    } else {
      assert s[1..] == a[1..] + t;
    }
  }

  /** A run of whitespace at the very start becomes a single leading '-'. */
  lemma CollapseLeadingRun(w: string, b: string)
    requires |w| > 0 && AllSpace(w)
    requires |b| == 0 || !IsSpace(b[0])
    ensures CollapseSpaces(w + b) == "-" + CollapseSpaces(b)
  {
    var s := w + b;
    assert IsSpace(s[0]);
    assert s[1..] == w[1..] + b;
    DropSpacesBefore(w[1..], b);
  }

  /**
   * One maximal run of whitespace, between text that does not end in
   * whitespace and text that does not start with it, becomes a single '-'.
   */
  lemma {:induction false} CollapseRun(a: string, w: string, b: string)
    requires |a| == 0 || !IsSpace(a[|a| - 1])
    requires |w| > 0 && AllSpace(w)
    requires |b| == 0 || !IsSpace(b[0])
    ensures CollapseSpaces(a + w + b) == CollapseSpaces(a) + "-" + CollapseSpaces(b)
    decreases |a|
  {
    if |a| == 0 {
      assert a + w + b == w + b;
      CollapseLeadingRun(w, b);
    } else {
      var rest := StepRest(a);
      CollapseStep(a, w + b);
      Regroup(a, rest, w, b);
      CollapseRun(rest, w, b);
      Regroup(StepHead(a), CollapseSpaces(rest), "-", CollapseSpaces(b));
    }
  }

  /** Associativity of `+` in the three shapes CollapseRun needs, kept apart so its proof stays small. */
  lemma Regroup(x: string, y: string, z: string, u: string)
    ensures x + (z + u) == x + z + u
    ensures y + (z + u) == y + z + u
    ensures x + (y + z + u) == (x + y) + z + u
  {
  }

  /**
   * `handleCategoryClick`: the route of a category's menu page, whose last
   * segment is the slug: no whitespace, no upper-case letter.
   */
  function CategoryRoute(name: string): (r: string)
    ensures |r| >= |"/category/"| && r[..|"/category/"|] == "/category/"
    ensures r[|"/category/"|..] == Slug(name)
    ensures !HasSpace(r[|"/category/"|..]) && IsLowerCase(r[|"/category/"|..])
  {
    SlugIsSlug(name);
    "/category/" + Slug(name)
  }

  /** `fetchSeminarData`: a 200 replaces the list, a thrown request sets the error, loading ends false. */
  function Fetch(s: State, o: Outcome<seq<Entry>>): (r: State)
    ensures !r.loading
    ensures Is200(o) ==> r.categories == o.data && r.error == s.error
    ensures o.Ok? && !Is200(o) ==> r == s.(loading := false)
    ensures o.Thrown? ==> r.categories == s.categories && r.error == Some(FetchError)
    ensures r.form == s.form && r.modalOpen == s.modalOpen
  {
    var started := s.(loading := true);
    var settled := match o
      case Ok(status, data) => if status == 200 then started.(categories := data) else started
      case Thrown(_) => started.(error := Some(FetchError));
    settled.(loading := false)
  }

  /**
   * `handleModalSubmit`: the error is cleared; a 200 or 201 appends exactly
   * one entry for the form (placeholder image when none was given), resets
   * the form and closes the modal; a thrown request sets the error and keeps
   * the list, form and modal; any other status changes nothing else.
   */
  function Create(s: State, o: Outcome<()>): (r: State)
    ensures r.loading == s.loading
    ensures IsCreated(o) ==>
      && |r.categories| == |s.categories| + 1
      && r.categories[..|s.categories|] == s.categories
      && r.categories[|s.categories|].name == s.form.name
      && r.categories[|s.categories|].itemCount == 0
      && r.categories[|s.categories|].image == (if s.form.image == "" then Placeholder else s.form.image)
      && r.form == EmptyForm && !r.modalOpen && r.error == None
    ensures o.Thrown? ==>
      r == s.(error := Some(CreateError))
    ensures o.Ok? && !IsCreated(o) ==> r == s.(error := None)
  {
    var cleared := s.(error := None);
    if IsCreated(o) then
      var image := if s.form.image == "" then Placeholder else s.form.image;
      cleared.(categories := s.categories + [Entry(s.form.name, 0, image)], form := EmptyForm, modalOpen := false)
    else if o.Thrown? then cleared.(error := Some(CreateError))
    else cleared
  }

  /** The state after a delete, and whether the list is fetched again. */
  datatype DeleteResult = DeleteResult(state: State, requested: bool, refetch: bool)

  /**
   * `handleDelete`: a declined confirmation changes nothing and sends no
   * request; otherwise a 204 or 200 triggers a refetch, any other outcome
   * sets the server's message or the default one, and loading ends false.
   */
  function Delete(s: State, confirmed: bool, o: Outcome<()>): (r: DeleteResult)
    ensures !confirmed ==> r == DeleteResult(s, false, false)
    ensures confirmed ==> r.requested && !r.state.loading && r.state.categories == s.categories
    ensures confirmed ==> r.state == s.(loading := false, error := r.state.error)
    ensures confirmed ==> (r.refetch <==> IsDeleted(o))
    ensures confirmed && IsDeleted(o) ==> r.state.error == Some("")
    ensures confirmed && !IsDeleted(o) ==>
      r.state.error == Some(if o.Thrown? && o.serverMessage != "" then o.serverMessage else DeleteError)
  {
    if !confirmed then DeleteResult(s, false, false)
    else
      var started := s.(loading := true, error := Some(""));
      if IsDeleted(o) then DeleteResult(started.(loading := false), true, true)
      else
        var message := if o.Thrown? && o.serverMessage != "" then o.serverMessage else DeleteError;
        DeleteResult(started.(error := Some(message), loading := false), true, false)
  }

  /** A delete followed, when triggered, by the refetch it starts. */
  function DeleteAndRefresh(s: State, confirmed: bool, o: Outcome<()>, refresh: Outcome<seq<Entry>>): State {
    var d := Delete(s, confirmed, o);
    if d.refetch then Fetch(d.state, refresh) else d.state
  }

  /**
   * Deleting never leaves the screen loading; a successful delete shows the
   * list the refetch returned; a declined one leaves everything as it was.
   */
  lemma DeleteThenRefresh(s: State, confirmed: bool, o: Outcome<()>, refresh: Outcome<seq<Entry>>)
    requires !s.loading
    ensures !DeleteAndRefresh(s, confirmed, o, refresh).loading
    ensures !confirmed ==> DeleteAndRefresh(s, confirmed, o, refresh) == s
    ensures confirmed && IsDeleted(o) && Is200(refresh) ==>
      DeleteAndRefresh(s, confirmed, o, refresh).categories == refresh.data
    ensures confirmed && !IsDeleted(o) ==>
      DeleteAndRefresh(s, confirmed, o, refresh).categories == s.categories &&
      Shown(DeleteAndRefresh(s, confirmed, o, refresh).error)
  {
  }
}
