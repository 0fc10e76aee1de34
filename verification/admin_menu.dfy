/**
 * The admin food screen: the add-food form's validation and submission,
 * deleting a food, and reloading the food list.
 */
module AdminMenu {
  import opened Maybe
  import opened Http
  import opened Catalog

  /** `newFood`; the file fields hold an opaque reference to the chosen file. */
  datatype FoodForm = FoodForm(
    categoryId: Option<string>,
    category: string,
    name: string,
    imageFile: Option<string>,
    modelFile: Option<string>,
    description: string,
    price: string)

  const InitialForm := FoodForm(Some(""), " ", "", None, None, "", "")

  /** The form after a successful submit; it no longer has a `category_id` field. */
  const ResetForm := FoodForm(None, " ", "", None, None, "", "")

  datatype State = State(
    foods: seq<Item>,
    modalOpen: bool,
    isLoading: bool,
    form: FoodForm,
    error: Option<string>)

  const Initial := State([], false, false, InitialForm, None)

  const MissingFiles := "Please upload both an image and a 3D model."
  const CreateError := "Failed to create food item. Please try again."
  const DeleteError := "Failed to delete seminar. Please try again."
  const LoadError := "Failed to load foods. Please try again."

  predicate HasFiles(f: FoodForm) { f.imageFile.Some? && f.modelFile.Some? }

  /** The state after a submit, whether a POST was sent, and whether the list is fetched again. */
  datatype SubmitResult = SubmitResult(state: State, posted: bool, refetch: bool)

  /**
   * `handleModalSubmit` as written: the error is cleared and `isLoading` set;
   * without both files the validation error is set and nothing is posted,
   * leaving `isLoading` true; otherwise a 200 or 201 refetches, resets the
   * form and closes the modal, a thrown request sets the error, and
   * `isLoading` ends false.
   */
  function Submit(s: State, o: Outcome<()>): (r: SubmitResult)
    ensures !HasFiles(s.form) ==>
      r == SubmitResult(s.(error := Some(MissingFiles), isLoading := true), false, false)
    ensures HasFiles(s.form) ==> r.posted && !r.state.isLoading && r.state.foods == s.foods
    ensures r.refetch <==> HasFiles(s.form) && IsCreated(o)
    ensures HasFiles(s.form) && IsCreated(o) ==>
      r.state.form == ResetForm && !r.state.modalOpen && r.state.error == None
    ensures HasFiles(s.form) && o.Thrown? ==>
      r.state == s.(error := Some(CreateError), isLoading := false)
    ensures HasFiles(s.form) && o.Ok? && !IsCreated(o) ==>
      r.state == s.(error := None, isLoading := false)
  {
    var started := s.(error := None, isLoading := true);
    if !HasFiles(s.form) then SubmitResult(started.(error := Some(MissingFiles)), false, false)
    else if IsCreated(o) then
      SubmitResult(started.(form := ResetForm, modalOpen := false, isLoading := false), true, true)
    else if o.Thrown? then SubmitResult(started.(error := Some(CreateError), isLoading := false), true, false)
    else SubmitResult(started.(isLoading := false), true, false)
  }

  /**
   * `handleModalSubmit` with `isLoading` also cleared on the validation
   * early return: the validation path sets only its error and posts nothing;
   * the POST paths behave as in the handler as written.
   */
  function SubmitCorrected(s: State, o: Outcome<()>): (r: SubmitResult)
    ensures !r.state.isLoading
    ensures !HasFiles(s.form) ==>
      r == SubmitResult(s.(error := Some(MissingFiles), isLoading := false), false, false)
    ensures HasFiles(s.form) ==> r.posted && r.state.foods == s.foods
    ensures r.refetch <==> HasFiles(s.form) && IsCreated(o)
    ensures HasFiles(s.form) && IsCreated(o) ==>
      r.state == s.(form := ResetForm, modalOpen := false, error := None, isLoading := false)
    ensures HasFiles(s.form) && o.Thrown? ==>
      r.state == s.(error := Some(CreateError), isLoading := false)
    ensures HasFiles(s.form) && o.Ok? && !IsCreated(o) ==>
      r.state == s.(error := None, isLoading := false)
  {
    var w := Submit(s, o);
    w.(state := w.state.(isLoading := false))
  }

  /** `fetchFood`: a 200 replaces the list, a thrown request sets the error. */
  function FetchFood(s: State, o: Outcome<seq<Item>>): (r: State)
    ensures Is200(o) ==> r == s.(foods := o.data)
    ensures o.Ok? && !Is200(o) ==> r == s
    ensures o.Thrown? ==> r == s.(error := Some(LoadError))
  {
    match o
    case Ok(status, data) => if status == 200 then s.(foods := data) else s
    case Thrown(_) => s.(error := Some(LoadError))
  }

  /** The state after a delete, whether a request was sent, and whether the list is fetched again. */
  datatype DeleteResult = DeleteResult(state: State, requested: bool, refetch: bool)

  /**
   * `handleDelete`: a declined confirmation changes nothing; otherwise the
   * error is reset, a 204 or 200 triggers a refetch, and any other outcome
   * sets the server's message or the default one.
   */
  function Delete(s: State, confirmed: bool, o: Outcome<()>): (r: DeleteResult)
    ensures !confirmed ==> r == DeleteResult(s, false, false)
    ensures confirmed ==> r.requested && (r.refetch <==> IsDeleted(o))
    ensures confirmed ==> r.state.foods == s.foods && r.state.isLoading == s.isLoading
    ensures confirmed && IsDeleted(o) ==> r.state == s.(error := Some(""))
    ensures confirmed && !IsDeleted(o) ==>
      r.state == s.(error := Some(if o.Thrown? && o.serverMessage != "" then o.serverMessage else DeleteError))
  {
    if !confirmed then DeleteResult(s, false, false)
    else
      var started := s.(error := Some(""));
      if IsDeleted(o) then DeleteResult(started, true, true)
      else
        var message := if o.Thrown? && o.serverMessage != "" then o.serverMessage else DeleteError;
        DeleteResult(started.(error := Some(message)), true, false)
  }

  /** The submit button is `disabled={isLoading}`; a form cannot be submitted while it is disabled. */
  predicate SubmitEnabled(s: State) { s.modalOpen && !s.isLoading }

  /** What the user can do on the screen, with the outcomes of the requests it sends. */
  datatype Action =
    | OpenModal
    | CloseModal
    | EditForm(form: FoodForm)
    | SubmitForm(outcome: Outcome<()>, refresh: Outcome<seq<Item>>)
    | DeleteFood(confirmed: bool, outcome: Outcome<()>, refresh: Outcome<seq<Item>>)

  /** Which submit handler a session runs: the one as written, or the corrected one. */
  datatype Handler = AsWritten | Corrected

  function SubmitWith(h: Handler, s: State, o: Outcome<()>): SubmitResult {
    match h
    case AsWritten => Submit(s, o)
    case Corrected => SubmitCorrected(s, o)
  }

  /** One user action, with the given submit handler. */
  function Step(h: Handler, s: State, a: Action): State {
    match a
    case OpenModal => s.(modalOpen := true)
    case CloseModal => s.(modalOpen := false)
    case EditForm(f) => s.(form := f)
    case SubmitForm(o, refresh) =>
      if !SubmitEnabled(s) then s
      else
        var r := SubmitWith(h, s, o);
        if r.refetch then FetchFood(r.state, refresh) else r.state
    case DeleteFood(confirmed, o, refresh) =>
      var r := Delete(s, confirmed, o);
      if r.refetch then FetchFood(r.state, refresh) else r.state
  }

  function Session(h: Handler, s: State, actions: seq<Action>): State
    decreases |actions|
  {
    if |actions| == 0 then s else Session(h, Step(h, s, actions[0]), actions[1..])
  }

  /** With the corrected handler, the submit button is never left disabled after an action completes. */
  lemma {:induction false} CorrectedNeverLocks(s: State, actions: seq<Action>)
    requires !s.isLoading
    ensures !Session(Corrected, s, actions).isLoading
    decreases |actions|
  {
    if |actions| > 0 {
      CorrectedNeverLocks(Step(Corrected, s, actions[0]), actions[1..]);
    }
  }

  /**
   * As written, submitting without both files leaves `isLoading` true; no
   * other action clears it and the disabled button blocks every further
   * submit, so the form stays locked whatever the user does next.
   */
  lemma MissingFilesLocksForm(s: State, o: Outcome<()>, actions: seq<Action>)
    requires !HasFiles(s.form)
    ensures Session(AsWritten, Submit(s, o).state, actions).isLoading
    ensures !SubmitEnabled(Session(AsWritten, Submit(s, o).state, actions))
  {
    LockedStaysLocked(AsWritten, Submit(s, o).state, actions);
  }

  /** While `isLoading` is set no submit can start, and nothing else clears it. */
  lemma {:induction false} LockedStaysLocked(h: Handler, s: State, actions: seq<Action>)
    requires s.isLoading
    ensures Session(h, s, actions).isLoading
    decreases |actions|
  {
    if |actions| > 0 {
      LockedStaysLocked(h, Step(h, s, actions[0]), actions[1..]);
    }
  }
}
