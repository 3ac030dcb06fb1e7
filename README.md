# Showcase project catalog and filter renderer, in Dafny

This project models the project catalog of the Alt-30 Analytics showcase page
(`assets/js/main.js`): the shared, append-only array of project records, the category
taxonomy, the current filter, the filter bar derived from the catalog, the project grid
rebuilt for a filter, and the public operations that mutate the shared arrays
(`addProject`, `updateStats`, `addTech`) or query the catalog (`getProjectsByCategory`).

Four modules follow the component's parts:

- `Catalog` (`catalog.dfy`): the record types (`Project`, `Category`, `Stat`, `Tech`), the
  shipped data, and the pure filter expression: `Matching` (the `Array.filter` by
  category) and `Filtered` (the `'all'` ternary). Lemmas prove that a filter keeps exactly
  the records of its category, with their multiplicities and in catalog order, and that
  `'all'` keeps the whole catalog, records of unknown categories included.
- `Filters` (`filters.dfy`): the insertion-ordered `Set` seeded with `'all'`
  (`UsedCategories`), the skip of keys without taxonomy entry (`KnownKeys`,
  `FilterKeys`), the buttons (`ButtonsFor`, `RenderedButtons`), the class toggle of
  `filterProjects` (`Activate`) and the count of active buttons. Lemmas prove that the keys
  start with `'all'`, are distinct, follow first-seen order and drop unknown keys, and
  that exactly one (or no) button is active after each operation.
- `Cards` (`cards.dfy`): a card as a record (link, category, icon, title, status badge,
  description, tag labels, delay) and `CreateProjectCard`, whose loop over the tags is
  proved against `CardOf`.
- `Page` (`page.dfy`): `JsArray<T>`, a JavaScript array as a shared object, and the class
  `Showcase`, which holds the module state (`projects`, `categories`, `techStack`,
  `stats`, `currentFilter`) and the three page regions the renderer owns. A region the
  document lacks is `None`; the filter container holds `FilterButton`s, the grid holds
  `Card`s, and the empty-state element records whether it is shown.

Behaviour reproduced as the code has it:

- `renderProjectFilters` marks only the `'all'` button active, whatever the current
  filter is. So after `addProject` at a filter other than `'all'`, the grid shows the
  current filter while the `'all'` button is highlighted (`Showcase.AddProject`).
- `filterProjects` with a key that has no button leaves no button active
  (`Showcase.FilterProjects`, `Filters.ActivateExactlyOne`).
- `getProjectsByCategory('all')` returns the catalog array itself, so later additions show
  through it. Any other key returns a new array (`Showcase.GetProjectsByCategory`).
- `updateStats` empties the shared array and then pushes the new entries into it. Passing
  the stats array itself leaves it empty (`Showcase.UpdateStats`).
- A key of the taxonomy that no record uses (the shipped `'dataviz'`) gets no button. A
  record whose category has no taxonomy entry gets no button either, but it is listed
  under `'all'` and under its own key (`Filters.UnknownCategoryScenario`).
- The transition delay `index * 0.1` seconds is kept as the integer `index`, in tenths of
  a second.

The code does not keep exactly one button active: a rebuild marks `'all'`
(assets/js/main.js:328) whatever the current filter is, `filterProjects` with a key that has
no button leaves none active (assets/js/main.js:406-407), and a taxonomy without `'all'`
leaves none active after a rebuild (`Filters.RenderedButtonsOnlyAllActive`).

## Model

| member | source | states |
|---|---|---|
| `Catalog.Matching` | assets/js/main.js:344 | the filtered list is no longer than the catalog and every record in it has the requested category |
| `Catalog.Filtered` | assets/js/main.js:342-344 | the shown list is no longer than the catalog; for a key other than `'all'` every shown record has that category |
| `Catalog.MatchingIsSelection` | assets/js/main.js:344 | the filter result is a subsequence of the catalog and holds each record of the category exactly as often as the catalog does, and no other record |
| `Catalog.MatchingConcat` | assets/js/main.js:344 | filtering distributes over concatenation, so catalog order is kept |
| `Catalog.FilteredSelectsCategory` | assets/js/main.js:619-621 | `'all'` yields the whole catalog in order, unknown categories included; any other key yields, in catalog order, exactly its records |
| `Catalog.FilteredAppend` | assets/js/main.js:609-612 | after appending a record, every view that it matches gains it at the end, and the other views are unchanged |
| `Catalog.InitialCatalogViews` | assets/js/main.js:12-52 | for the shipped data `'all'` lists the three records, `'finance'` and `'ai'` one each, `'dataviz'` none |
| `Filters.Inserted` | assets/js/main.js:319 | `Set.add` keeps distinctness, adds exactly the key, and never reorders the existing keys |
| `Filters.UsedCategories` | assets/js/main.js:318-319 | the set seeded with `'all'` starts with `'all'` and holds no key twice |
| `Filters.UsedCategoriesMembers` | assets/js/main.js:318-319 | the set holds `'all'` and the categories of the catalog's records, nothing else |
| `Filters.UsedCategoriesGrow` | assets/js/main.js:318-319 | the keys of a catalog prefix are a prefix of the keys of the catalog (insertion order) |
| `Filters.FirstSeenOrder` | assets/js/main.js:318-319 | when a key follows another one, every record of the later key comes after some record of the earlier key |
| `Filters.KnownKeys` | assets/js/main.js:323-325 | every kept key has a taxonomy entry |
| `Filters.KnownKeysMembers` | assets/js/main.js:323-325 | the skip keeps exactly the keys that have a taxonomy entry |
| `Filters.KnownKeysOrder` | assets/js/main.js:323-325 | the skip keeps the keys' order and adds no duplicate |
| `Filters.KnownKeysAllKnown` | assets/js/main.js:323-325 | when every used key has an entry, the skip drops nothing |
| `Filters.KnownKeysHead` | assets/js/main.js:323-325 | a first key that has an entry stays first |
| `Filters.FilterKeysSpec` | assets/js/main.js:318-325 | the button keys are distinct, start with `'all'` when the taxonomy names it, are exactly the known used keys, and keep first-seen order |
| `Filters.FilterKeysAppend` | assets/js/main.js:609-611 | adding a record appends its category to the buttons only when the category is new and known; otherwise the buttons are unchanged |
| `Filters.ActivateExactlyOne` | assets/js/main.js:405-407 | with distinct keys, the toggle leaves one button active when a button has the key, and none otherwise |
| `Filters.RenderedButtonsOnlyAllActive` | assets/js/main.js:327-332 | rebuilt buttons have distinct keys, and a button is active iff its key is `'all'`: exactly one button when the taxonomy names `'all'`, and that button comes first |
| `Filters.InitialFilterKeys` | assets/js/main.js:314-334 | the shipped data yields the buttons `'all'`, `'finance'`, `'ai'`, `'economics'`, and none for `'dataviz'` |
| `Filters.UnknownCategoryScenario` | assets/js/main.js:609-611 | adding a `'robotics'` record leaves the buttons unchanged; the `'robotics'` key selects that record; the `'ai'` view is unchanged |
| `Cards.CreateProjectCard` | assets/js/main.js:360-400 | the card carries the record's link, category, icon, title and description, one tag label per tag in order with only the first primary, and a badge exactly when the status is truthy |
| `Page.Showcase.constructor` | assets/js/main.js:12-82 | the script starts with the shipped catalog, taxonomy, tech stack and stats and the filter `'all'` |
| `Page.Showcase.RenderProjectFilters` | assets/js/main.js:314-334 | a missing container is left alone; otherwise it holds the rebuilt buttons, and nothing else changes |
| `Page.Showcase.ShowNoProjectsMessage` | assets/js/main.js:419-424 | the empty-state is shown if the element exists |
| `Page.Showcase.HideNoProjectsMessage` | assets/js/main.js:426-431 | the empty-state is hidden if the element exists |
| `Page.Showcase.RenderProjects` | assets/js/main.js:336-358 | with no grid nothing changes; otherwise the grid holds one card per selected record in catalog order with delay index i for the i-th card, and the empty-state is shown iff nothing is selected |
| `Page.Showcase.InitializeProjects` | assets/js/main.js:309-312 | the filter bar is rebuilt and the grid shows the whole catalog |
| `Page.Showcase.FilterProjects` | assets/js/main.js:402-417 | the current filter becomes the key; a button is active iff its key is the key (one button if present, none otherwise); the grid shows the key's records |
| `Page.Showcase.AddProject` | assets/js/main.js:609-614 | the catalog gains the record at the end, earlier records unchanged; the current filter is kept; the buttons are rebuilt with only `'all'` active; the grid shows the current filter |
| `Page.Showcase.GetProjectsByCategory` | assets/js/main.js:619-621 | the result holds the key's view of the catalog; for `'all'` it is the catalog array itself, otherwise a new array |
| `Page.Showcase.UpdateStats` | assets/js/main.js:626-631 | the same stats array now holds the new entries, or nothing if it was passed itself; the other arrays are unchanged |
| `Page.Showcase.AddTech` | assets/js/main.js:636-640 | the tech stack gains the entry at the end, earlier entries unchanged; the other arrays are unchanged |

## Left out

- Particle background (assets/js/main.js:152-251): random floats, canvas drawing and animation frames.
- Counter animation `animateCounter`: floating-point steps driven by animation frames.
- The intersection observer, `observeElements`, the loading screen and every `setTimeout` that re-observes elements after a render: browser callbacks and timing.
- `debounce` and the resize handler: timers.
- Theme handling, navigation, mobile menu, scroll effects, parallax and smooth scrolling: DOM event glue with no catalog state.
- Lazy image loading, the script fallback that loads from a CDN, and console logging.
- `initializeStats` and `initializeTechStack`, which `updateStats` and `addTech` call to redraw their sections: they only write markup. The model stops after the array update.
- Markup: buttons and cards are records, and HTML strings, escaping and class names are not modelled. The click listener of a button is `FilterProjects` with that button's key.
- Taxonomy lookup by object property: a key inherited from the object prototype (such as `constructor`) would pass the `if (!category)` test in the source. The model treats only the taxonomy's own keys as entries.
- Record identity: records are values, so two equal records pushed separately are not told apart.
- `status` is modelled as an optional string. Absent and `""` are falsy; other JavaScript values are not modelled.
- The statistics entry field `label` is named `caption`, because `label` is a Dafny keyword.
- Argument shapes: the public operations (assets/js/main.js:646-666) take untyped arguments; the model takes keys as strings and records and arrays as well-formed values. Not modelled: `filterProjects()` with no argument, which sets `currentFilter` to `undefined`, activates no button and, through the default parameter `filter = 'all'`, renders the whole catalog now and on every later `addProject`, while `getProjectsByCategory()` selects only the records without a category; `updateStats` with a non-iterable argument, which empties `stats` and then throws; and `addProject` with a record that has no `tags` array, which pushes it and rebuilds the buttons. Any render whose filter selects it, including the one `addProject` itself runs when the grid exists, then throws after appending the cards before it.
- Page markup: `filterProjects` toggles every `.filter-btn` in the whole document; the model toggles only the buttons inside the filter container and none when that container is missing, so buttons placed elsewhere in the page markup are not modelled.
- Initial page: the constructor assumes the filter container and the grid start empty and the empty-state starts hidden; the page markup that decides this is not part of this model.
