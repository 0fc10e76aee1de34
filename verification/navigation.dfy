/** The one-shot navigation payload that hands a selected food to the AR viewer. */
module Navigation {
  import opened Maybe
  import opened Catalog

  /** `location.state` as the AR viewer reads it: `{selectedModel, foodDetails}`, either possibly absent. */
  datatype NavState = NavState(selectedModel: Option<string>, foodDetails: Option<Food>)

  /** A call to `navigate(path, {state})`; `state` is None when no payload is passed. */
  datatype Route = Route(path: string, state: Option<NavState>)

  const ArViewPath := "/ar-view"
  const HomePath := "/"

  /** `handleFoodClick(food.three_d_picture, food)`, as every listing page wires it. */
  function SelectFood(food: Food): Route {
    Route(ArViewPath, Some(NavState(Some(food.item.threeDPicture), Some(food))))
  }
}
