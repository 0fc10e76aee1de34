/**
 * The AR viewer page: it reads the navigation payload, redirects home when
 * there is no model, shows the food's details (or a default record), and
 * decides from two flags when to show the "AR unsupported" advisory.
 * The AR-capability probe of the viewer element is an opaque boolean.
 */
module ArView {
  import opened Maybe
  import opened Catalog
  import opened Navigation

  /** The fields the details card shows. */
  datatype Details = Details(itemName: string, description: string, size: string, time: string, price: string)

  /** `defaultFoodDetails`; the price reads "৳0.00". */
  const DefaultDetails := Details("Unknown Food", "No description available.", "N/A", "N/A", "\U{09F3}0.00")

  function DetailsOf(f: Food): Details {
    Details(f.item.itemName, f.item.description, f.item.size, f.item.time, f.item.price)
  }

  /** `state || {}`: a missing payload reads as one with neither field. */
  function Payload(state: Option<NavState>): NavState {
    state.GetOr(NavState(None, None))
  }

  /** `selectedModel` is truthy: present and not the empty string. */
  predicate HasModel(state: Option<NavState>) {
    Payload(state).selectedModel.Some? && Payload(state).selectedModel.value != ""
  }

  /**
   * `foodDetails || defaultFoodDetails`: the payload's record whenever it is
   * present, even with empty fields, and otherwise the whole default record.
   */
  function Displayed(state: Option<NavState>): (r: Details)
    ensures Payload(state).foodDetails.Some? ==> r == DetailsOf(Payload(state).foodDetails.value)
    ensures Payload(state).foodDetails.None? ==> r == DefaultDetails
    ensures state.None? ==> r == DefaultDetails
  {
    match Payload(state).foodDetails
    case Some(f) => DetailsOf(f)
    case None => DefaultDetails
  }

  /** `isARSupported` and `isModelLoading`. */
  datatype Flags = Flags(arSupported: bool, modelLoading: bool)

  const InitialFlags := Flags(true, true)

  /** The viewer element's `load` and `error` events. */
  datatype ViewerEvent = ModelLoad | ModelError

  /** `handleModelLoad` clears only the loading flag; `handleModelError` clears both. */
  function OnEvent(f: Flags, e: ViewerEvent): (r: Flags)
    ensures !r.modelLoading
    ensures e == ModelLoad ==> r.arSupported == f.arSupported
    ensures e == ModelError ==> !r.arSupported
  {
    match e
    case ModelLoad => f.(modelLoading := false)
    case ModelError => Flags(false, false)
  }

  function AfterEvents(f: Flags, events: seq<ViewerEvent>): Flags
    decreases |events|
  {
    if |events| == 0 then f else OnEvent(AfterEvents(f, events[..|events| - 1]), events[|events| - 1])
  }

  /**
   * After any sequence of viewer events, AR counts as supported only if it
   * did before and no error occurred, and the model is loading only if no
   * event has arrived yet.
   */
  lemma {:induction false} AfterEventsFlags(f: Flags, events: seq<ViewerEvent>)
    ensures AfterEvents(f, events) == Flags(f.arSupported && ModelError !in events, f.modelLoading && |events| == 0)
    decreases |events|
  {
    if |events| > 0 {
      var p := events[..|events| - 1];
      AfterEventsFlags(f, p);
      assert events == p + [events[|events| - 1]];
    }
  }

  /** What the mount effect does: redirect home, or probe for AR support. */
  datatype Effect = RedirectHome | ProbeAr

  function MountEffect(state: Option<NavState>): (r: Effect)
    ensures r == RedirectHome <==> !HasModel(state)
  {
    if HasModel(state) then ProbeAr else RedirectHome
  }

  datatype Viewer = ModelViewer(src: string) | ModelNotFound

  datatype Screen = Screen(viewer: Viewer, details: Details, advisory: bool)

  /** The rendered page for a payload and the current flags. */
  function Render(state: Option<NavState>, f: Flags): (r: Screen)
    ensures r.viewer.ModelViewer? <==> HasModel(state)
    ensures r.viewer.ModelViewer? ==> r.viewer.src == Payload(state).selectedModel.value
    ensures r.details == Displayed(state)
    ensures r.advisory <==> !f.arSupported && !f.modelLoading
  {
    Screen(
      if HasModel(state) then ModelViewer(Payload(state).selectedModel.value) else ModelNotFound,
      Displayed(state),
      !f.arSupported && !f.modelLoading)
  }

  /** How a visit to the page ends. */
  datatype Visit = Redirected | Viewing(screen: Screen)

  /**
   * A visit: without a model the page navigates home (and never probes);
   * otherwise the probe sets `isARSupported` on mount, and the viewer's
   * events then arrive in order.
   */
  function VisitPage(state: Option<NavState>, probe: bool, events: seq<ViewerEvent>): Visit {
    if !HasModel(state) then Redirected
    else Viewing(Render(state, AfterEvents(InitialFlags.(arSupported := probe), events)))
  }

  /**
   * The advisory is shown exactly when the viewer has reported back (load or
   * error) and AR is unavailable: the probe said so or the model failed.
   */
  lemma AdvisoryWhen(state: Option<NavState>, probe: bool, events: seq<ViewerEvent>)
    requires HasModel(state)
    ensures VisitPage(state, probe, events).Viewing?
    ensures VisitPage(state, probe, events).screen.advisory <==>
      |events| > 0 && (!probe || ModelError in events)
  {
    AfterEventsFlags(InitialFlags.(arSupported := probe), events);
  }

  /** The advisory is never shown on first render, whatever the payload. */
  lemma NoAdvisoryInitially(state: Option<NavState>)
    ensures !Render(state, InitialFlags).advisory
  {
  }

  /**
   * The selection handoff round trip: a food picked on a listing page
   * reaches the viewer with its own model and its own details, unless its
   * model reference is empty, in which case the viewer sends the user home.
   */
  lemma SelectFoodHandoff(food: Food, probe: bool, events: seq<ViewerEvent>)
    ensures SelectFood(food).path == ArViewPath
    ensures food.item.threeDPicture != "" ==>
      VisitPage(SelectFood(food).state, probe, events).Viewing? &&
      VisitPage(SelectFood(food).state, probe, events).screen.viewer == ModelViewer(food.item.threeDPicture) &&
      VisitPage(SelectFood(food).state, probe, events).screen.details == DetailsOf(food)
    ensures food.item.threeDPicture == "" ==> VisitPage(SelectFood(food).state, probe, events) == Redirected
  {
  }

  /** Reaching the page with no payload at all redirects home. */
  lemma MissingPayloadRedirects(probe: bool, events: seq<ViewerEvent>)
    ensures MountEffect(None) == RedirectHome
    ensures VisitPage(None, probe, events) == Redirected
    ensures Render(None, InitialFlags) == Screen(ModelNotFound, DefaultDetails, false)
  {
  }
}
