# ARFoodMenu menu pipeline, in Dafny

ARFoodMenu is a restaurant menu front end. A diner browses food cards and opens one dish as a 3D model in
augmented reality. Restaurant staff manage categories and dishes on two admin screens. This project models the
client-side logic behind those screens as pure functions over immutable data, and proves properties of them:

- **Catalog** (`catalog.dfy`) turns the backend's category-grouped menu into a flat list of foods. Each food is
  tagged with its category's name. The list is de-duplicated by food id with JavaScript `Map` semantics: each id
  keeps its first position and its last value. The category bar is derived as `"All"` followed by the distinct
  names of the categories that hold foods.
- **Retry** (`retry.dfy`) models the home and all-foods loaders. Each makes up to five attempts, with a 3000 ms
  pause after each failure but the last. The loop is a state machine over the sequence of request outcomes. A
  `while`-loop method is proved equal to it.
- **Home** (`home.dfy`) covers:
  - the mount effect;
  - the case-insensitive category filter;
  - the substring search on item names;
  - the four-per-category carousels;
  - the slider settings;
  - which section the page renders.
- **AllFood** (`all_food.dfy`) and **CategoryPage** (`category_page.dfy`) are the two listing pages: the
  all-foods page with its error message, and the per-category page reached from the home links.
- **Navigation** and **ArView** (`navigation.dfy`, `ar_view.dfy`) cover the hand-off of a selected dish to the AR
  page, including:
  - the page's fallback details;
  - its redirect when no model is given;
  - the two viewer flags and the "AR is not supported" advisory.
- **AdminCategories** and **AdminMenu** (`admin_categories.dfy`, `admin_menu.dfy`) are the admin screens:
  - the category URL slug;
  - fetching, creating and deleting categories;
  - validating and submitting the add-food form;
  - deleting foods.

Generic pieces sit in their own modules:

- `Maybe`: an option type.
- `Text`: ASCII case mapping, JavaScript's `\s` class and `String.prototype.includes`.
- `Seqs`: order-preserving filter and subsequence.
- `Keyed`: insertion-ordered de-duplication by key, characterised by `MapOf`.
- `Http`: an abstract request outcome and the status checks the screens use.

I/O is replaced by parameters. Every network request becomes an `Outcome` value supplied by the caller: either a
response with a status code and data, or a thrown error carrying the server's message. A sequence of outcomes
stands for the answers a retrying loader receives. A value that JavaScript would treat as missing or falsy is
modelled as `None` or `""`.

## Model

| member | source | states |
|---|---|---|
| Text.ContainsAt | src/page/Home.jsx:179-181 | `includes` holds exactly when the needle occurs at some position of the haystack |
| Seqs.Filter | src/page/Home.jsx:171-176 | `Array.filter` keeps an ordered subsequence: each kept element satisfies the predicate, and each satisfying value is kept as many times as it occurs |
| Keyed.DedupBySpec | src/page/Home.jsx:129-131 | rebuilding a list through a `Map` keyed by id: each key once, at the position of its first occurrence, holding the value of its last occurrence |
| Keyed.DedupByUnique | src/page/Home.jsx:129-131 | a list with no repeated key passes through the `Map` unchanged |
| Catalog.Flatten | src/page/Home.jsx:122-127 | the flattened list has one entry per food of every category |
| Catalog.FlattenPosition | src/page/Home.jsx:122-127 | the j-th food of category c sits after all foods of earlier categories, tagged with c's name |
| Catalog.FlattenConcat | src/page/Home.jsx:122-127 | flattening distributes over concatenation of responses |
| Catalog.Dedup | src/page/Home.jsx:129-132 | the home food list is the `Map`-by-id image of the flattened list |
| Catalog.DedupDistinctIds | src/page/Home.jsx:129-132 | when ids do not repeat, the home list equals the flattened list |
| Catalog.NonEmptyNamesMembers | src/page/Home.jsx:134-136 | a name is collected exactly when some category holding foods carries it |
| Catalog.DeriveCategories | src/page/Home.jsx:134-137 | the bar starts with "All", then each name of a category with foods once, in first-appearance order, and no other name |
| Retry.RunLoaded | src/page/Home.jsx:118-140 | the loop loads data d exactly when some attempt among the first five returns 200 with d after only failures |
| Retry.RunExhausted | src/page/Home.jsx:144-150 | the loop gives up exactly when the first five attempts all fail |
| Retry.RunPending | src/page/Home.jsx:118-152 | the loop is still waiting exactly when fewer than five answers arrived and all of them failed |
| Retry.RunStable | src/page/Home.jsx:138-150 | once the loop has stopped, later answers are never requested and change nothing |
| Retry.RunWaitPlacement | src/page/Home.jsx:144-152 | every 3000 ms pause follows a failed attempt and is followed by another attempt |
| Retry.RunWaitTotal | src/page/Home.jsx:115-152 | at most five attempts; a finished loop paused once per failed attempt except the fifth, at most 12000 ms in all |
| Retry.FetchFoods | src/page/Home.jsx:112-154 | the `while` loop with its `break`s computes the same trace and verdict as the state machine, within five attempts |
| Home.MountPolicy | src/page/Home.jsx:111-157 | loading ends exactly when an attempt succeeds in time; the foods and categories come from that response; five failures leave the initial, still-loading state |
| Home.ByCategory | src/page/Home.jsx:165 | the foods whose category equals the given one ignoring case, in order, each as often as in the list |
| Home.FilteredFoods | src/page/Home.jsx:171-176 | "All" selects every food; any other selection selects the case-insensitive category matches, in order |
| Home.FilterIgnoresSelectionCase | src/page/Home.jsx:171-176 | apart from the literal "All", selecting a name or its lower-case form selects the same foods (a lower-cased name is never "All") |
| Home.SearchResults | src/page/Home.jsx:179-181 | the search keeps, in order, exactly the foods whose name contains the query ignoring case |
| Home.SearchEmptyQuery | src/page/Home.jsx:179-181 | an empty query matches every food |
| Home.SearchIgnoresQueryCase | src/page/Home.jsx:179-181 | a query and its lower-case form give the same results |
| Home.GroupedFoods | src/page/Home.jsx:160-168 | each carousel is a category other than "All" holding between one and four foods: the first four case-insensitive matches |
| Home.GroupedFoodsInOrder | src/page/Home.jsx:160-168 | carousels appear in the category bar's order |
| Home.GroupedFoodsComplete | src/page/Home.jsx:160-168 | every category other than "All" with a matching food gets a carousel |
| Home.GetSliderSettings | src/page/Home.jsx:52-62 | shows min(itemCount, 2) slides, loops only with more items than slides, no dots, speed 500, scrolls one |
| Home.Render | src/page/Home.jsx:228-380 | skeletons while loading; otherwise a non-empty query shows only the search results; otherwise the category bar as loaded, the selected category's foods and, only for "All", the grouped carousels |
| AllFood.MountPolicy | src/page/AllFood.jsx:61-101 | a timely success shows the flattened foods without error; five failures stop loading and show the error message; otherwise still loading |
| CategoryPage.PageFoods | src/page/CategoryFoodPage.jsx:19-33 | the parameter "all" in any case lists every food; any other parameter lists its case-insensitive category matches in order |
| CategoryPage.Fetch | src/page/CategoryFoodPage.jsx:13-45 | loading always ends; a 200 replaces the foods and keeps the old error; anything else sets the error and keeps the foods |
| CategoryPage.FetchCorrected | src/page/CategoryFoodPage.jsx:13-45 | the effect with the error cleared when it starts: loading ends; a 200 leaves no error and lists the page's foods; anything else shows the error and keeps the foods |
| CategoryPage.Title | src/page/CategoryFoodPage.jsx:53-57 | the parameter "all" in any case is titled "All Foods"; any other parameter is titled with its first character upper-cased, the rest unchanged, then " Foods" |
| CategoryPage.TitleOfLink | src/page/CategoryFoodPage.jsx:53-57 | a capitalised category whose route parameter is its lower-cased name, "All" included, is titled "<name> Foods" |
| CategoryPage.LinkMatchesHomeFilter | src/page/CategoryFoodPage.jsx:26-32 | on the same flattened list, the category page's filter for the parameter `Lower(name)` selects the same foods as the home filter for `name` |
| CategoryPage.LinkMatchesHomeList | src/page/CategoryFoodPage.jsx:17-32 | when no food id repeats in the response, the category page for the parameter `Lower(name)` lists the same foods as the home page for `name`, whose list is de-duplicated |
| CategoryPage.Render | src/page/CategoryFoodPage.jsx:61-100 | skeleton while loading, then a non-empty error, then the grid when there are foods, otherwise the empty message |
| CategoryPage.StaleErrorHidesFoods | src/page/CategoryFoodPage.jsx:34-41 | after a failed fetch, a later successful fetch for another category still renders the old error instead of the foods |
| CategoryPage.CorrectedShowsLatestOutcome | src/page/CategoryFoodPage.jsx:13-45 | with the error cleared on each fetch, the page shows the latest outcome: foods after a 200, the error otherwise |
| ArView.Displayed | src/page/ARView.jsx:15-23 | the page shows the passed food's details, or the whole default record when none is passed |
| ArView.OnEvent | src/page/ARView.jsx:44-52 | any viewer event ends model loading; an error also clears AR support |
| ArView.AfterEventsFlags | src/page/ARView.jsx:44-52 | after a sequence of events, loading is over iff there was an event, and AR support survives iff no event was an error |
| ArView.MountEffect | src/page/ARView.jsx:26-41 | the page redirects home exactly when no model is given, and probes AR support otherwise |
| ArView.Render | src/page/ARView.jsx:72-100 | the viewer shows the given model iff there is one; the advisory shows iff AR is unsupported and loading is over |
| ArView.AdvisoryWhen | src/page/ARView.jsx:94-98 | with a model, the advisory appears iff some event arrived and either the probe failed or an event was an error |
| ArView.NoAdvisoryInitially | src/page/ARView.jsx:11-12 | before any event the advisory is hidden |
| ArView.SelectFoodHandoff | src/page/Home.jsx:183-187 | choosing a food navigates to the AR page, which shows that food's model and details, or redirects home when it has no model |
| ArView.MissingPayloadRedirects | src/page/ARView.jsx:9-31 | opening the AR page without navigation state redirects home and would render the fallback |
| AdminCategories.CategoryRoute | src/page/admin/Categories.jsx:41-43 | the route is "/category/" followed by the slug, which has no whitespace and no upper-case letter |
| AdminCategories.SlugIsSlug | src/page/admin/Categories.jsx:41-43 | the slug has no whitespace and no upper-case letter, and slugging it again changes nothing |
| AdminCategories.CollapseHasNoSpace | src/page/admin/Categories.jsx:42 | replacing whitespace runs leaves no whitespace |
| AdminCategories.CollapseRun | src/page/admin/Categories.jsx:42 | one maximal whitespace run between other text becomes exactly one '-' |
| AdminCategories.Fetch | src/page/admin/Categories.jsx:22-39 | loading always ends; a 200 replaces the list; another status changes nothing else; a thrown request sets the error and keeps the list |
| AdminCategories.Create | src/page/admin/Categories.jsx:49-77 | the error is cleared; a 200 or 201 appends exactly one entry for the form, with placeholder image when none, resets the form and closes the modal; a thrown request sets the error and keeps the rest |
| AdminCategories.Delete | src/page/admin/Categories.jsx:79-106 | a declined confirmation changes nothing; otherwise only the error and loading change: a 204 or 200 triggers a refetch, any other outcome shows the server's message or the default, and loading ends |
| AdminCategories.DeleteThenRefresh | src/page/admin/Categories.jsx:79-106 | a delete never leaves the screen loading; a successful one shows the refetched list; a failed one keeps the list and shows an error |
| AdminMenu.Submit | src/page/admin/Menu.jsx:78-129 | without both files the validation error is set, `isLoading` stays true, and nothing is posted; otherwise a 200 or 201 refetches, resets the form and closes the modal, and a thrown request sets the error |
| AdminMenu.MissingFilesLocksForm | src/page/admin/Menu.jsx:84-87 | with the handler as written, after the validation early return the submit button stays disabled through every later action |
| AdminMenu.SubmitCorrected | src/page/admin/Menu.jsx:78-129 | `isLoading` ends false on every path; without both files only the validation error is set and nothing is posted; a 200 or 201 refetches, resets the form and closes the modal; a thrown request sets the error |
| AdminMenu.CorrectedNeverLocks | src/page/admin/Menu.jsx:78-129 | with the corrected handler, `isLoading` is false after every action sequence |
| AdminMenu.FetchFood | src/page/admin/Menu.jsx:51-64 | a 200 replaces the food list, a thrown request sets the error, anything else changes nothing |
| AdminMenu.Delete | src/page/admin/Menu.jsx:131-155 | a declined confirmation changes nothing; otherwise a 204 or 200 triggers a refetch and any other outcome shows the server's message or the default |

## Left out

- The network is left out. Every request is an `Outcome` parameter. A request that never settles is an outcome
  sequence that runs out, which leaves the verdict `Pending`.
- The 3000 ms timer is recorded in the trace as a `Sleep` event; no clock is modelled.
- Component lifecycles, JSX layout, styles, icons, skeleton components and the responsive breakpoints of the
  slider are left out. Only the settings computed from the item count are modelled.
- `alert`, `console`, `window.confirm` and `navigate(-1)` are left out. A confirmation is a boolean parameter.
- Image URLs built from `VITE_REACT_BASE_API_URL` are left out; they are string concatenation with no logic.
- `FormData`, `parseFloat` and the multipart POST in the admin food form are left out. A chosen file is an
  optional string.
- `fetchCategory` in `src/page/admin/Menu.jsx` is left out. It de-duplicates fresh JSON objects with a `Set`,
  which compares by reference and so removes nothing.
- The unused `categoryName` route parameter and its empty effect in the same file are left out.
- `App.jsx`, `main.jsx`, the sidebar and the axios instance are not part of this model.
- Text: `toLowerCase` and `toUpperCase` are modelled on ASCII letters only; other characters are unchanged.
- ArView.VisitPage: the AR support probe is taken to finish before any model load or error event. The effect
  runs on mount, before the model can load.
- CategoryPage.TitleOfLink: takes the page's route parameter to be the lower-cased category name. The home links
  (`src/page/Home.jsx:309` and `:381`) put the lower-cased name into the path without encoding it. A name with `/`,
  `?`, `#` or `%` does not arrive intact: "Fish?" arrives as "fish" and is titled "Fish Foods", and "Rice/curry"
  matches no category route at all. URL parsing is not modelled.
- CategoryPage.LinkMatchesHomeFilter: compares the two filters on one shared flattened list only. The pages do not
  share a list: the home page loads `user_pov/get_all_food/6/` and de-duplicates it by id, while the category page
  loads `user_pov/get_all_food/4/` and keeps repeated ids. A food listed under two categories can appear on the
  category page but not under that category on the home page; CategoryPage.LinkMatchesHomeList states the equality
  for responses without repeated ids, and neither lemma relates the two endpoints' data. It also does not cover a
  backend category other than "All" whose name lower-cases to "all", such as "ALL": its link `/category-food/all`
  lists every food, while the home filter for it lists only that category's matches. The source behaves the same
  way. Both this lemma and CategoryPage.LinkMatchesHomeList take the route parameter to be the lower-cased name,
  which, as for CategoryPage.TitleOfLink, fails for names with `/`, `?`, `#` or `%`.
- AdminCategories.Entry: one record stands for both shapes the screen holds. Fetched categories are labelled with
  `category_name` and deleted by `id`, but created ones carry only `name`, `itemCount` and `image`, and the click
  handler reads `name`. The model keeps the single `name` field and does not model an undefined field: it leaves
  out a missing label, a delete with an undefined id, and `toLowerCase` throwing on an undefined name.
- Catalog.DeriveCategories: a backend category literally named "All" would appear twice in the bar. The source
  does the same, so this is modelled as written.
- AllFood: only the state the loader leaves is modelled; the page's render is not.

## Findings

| source | as written | input that shows it | evidently intended | confidence | as-written member | corrected member |
|---|---|---|---|---|---|---|
| src/page/admin/Menu.jsx:84-87 | the missing-file early return happens after `setIsLoading(true)` and skips the `finally` that clears it, so the submit button (`disabled={isLoading}`, line 306) stays disabled | submit the form with no model file chosen | clear `isLoading` on the validation path too | low, not executed (the file inputs are also marked `required`, which normally stops such a submit in the browser) | AdminMenu.MissingFilesLocksForm | AdminMenu.SubmitCorrected |
| src/page/CategoryFoodPage.jsx:34-41 | `error` is set on failure but never cleared, and the render checks `error` before `foods` (line 63) | a failed fetch for "pizza", then the route parameter changes to "drinks" and that fetch returns 200 | clear the error when a fetch starts or succeeds | low, not executed (needs the route parameter to change while the page stays mounted) | CategoryPage.StaleErrorHidesFoods | CategoryPage.FetchCorrected |
