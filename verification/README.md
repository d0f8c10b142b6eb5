# Project dashboard: a Dafny model of its filter, overlay and card engine

The project dashboard shows a fixed list of project records as a card grid
or on a map. Behind the markup sit three small pieces of logic, modelled
here module by module:

- `Dashboard` (dashboard.dfy): the search/status/category filter over the
  project list, the statistics over the full list, and the status and
  category option lists (distinct values in first-occurrence order). The
  interaction state (search term, two selectors, view mode, selected project)
  is the class `DashboardState`. Its setters, "Clear filters", the card-click
  toggle and the map-click selection are methods.
- `ProjectMap` (project_map.dfy): `loadGeospatialData`. Its loop fills a
  polygon dictionary and a points dictionary keyed by project id from an
  abstract network oracle. Its `forEach` grows a bounding box over every
  project's rectangle corners or position. The module also holds the marker
  and polygon colour mappings, the polygon style with selection emphasis, and
  the class `MapView` with the three layer switches.
- `ProjectCard` (project_card.dfy): the team lead's initials, the first three
  tags with a `+N` overflow badge, and the status badge variant.
- `Strings` (strings.dfy) models the JavaScript string built-ins the code
  relies on: `toLowerCase`, `toUpperCase`, `includes`, `split` and `join`.
  `Records` (records.dfy) holds the project record.

The network is a parameter `fetch: string -> Response`. For each URL it
answers `Ok(doc)`, `NotOk` or `Throws`; `Throws` also stands for a failing
`.json()`. Within one run of the loader, every request is awaited before the
next one starts, so the loop is modelled as sequential.

Four behaviours of the code are easy to miss:

- Polygon colours send every status other than Completed and Active to amber.
  Only marker colours use gray for unknown statuses.
- When there are no projects, the bounds are not recomputed and keep their
  previous value within the current mounting of the map. They are not reset.
- One `try` covers both requests of a project. A thrown polygon request
  therefore also skips that project's points request.
- Requests are awaited one after another, not issued concurrently.

## Model

| member | source | states |
|---|---|---|
| Strings.ToLower | project-dashboard/src/components/Dashboard.tsx:42-45 | lower-casing keeps the letters up to case and leaves no capital |
| Strings.ToUpper | project-dashboard/src/components/ProjectCard.tsx:36 | upper-casing keeps the letters up to case and leaves no small letter |
| Strings.LowerForgetsCase | project-dashboard/src/components/Dashboard.tsx:42-45 | lower-casing forgets the input's case: lower(upper(s)) = lower(s), and lower is idempotent |
| Strings.Contains | project-dashboard/src/components/Dashboard.tsx:42-45 | `includes`: see `ContainsIffOccurs` for its meaning |
| Strings.ContainsIffOccurs | project-dashboard/src/components/Dashboard.tsx:42-45 | `includes` holds iff the needle occurs as a contiguous run at some index |
| Strings.Split | project-dashboard/src/components/ProjectCard.tsx:36 | `split(' ')` always yields at least one piece |
| Strings.Join | project-dashboard/src/components/ProjectCard.tsx:36 | `join`: see `SplitJoin` (inverse of `Split`) and `JoinedFirstChars` |
| Strings.SplitJoin | project-dashboard/src/components/ProjectCard.tsx:36 | joining the pieces with the separator gives back the string; no piece holds a separator; pieces = separators + 1 |
| Dashboard.Matches | project-dashboard/src/components/Dashboard.tsx:41-50 | the `filter` callback, the conjunction of `MatchesSearch` (case-insensitive `includes` on name, description or a tag), `MatchesStatus` and `MatchesCategory` ("all" or exact equality); see `FilterMembership`, `SearchIgnoresCase`, `StatusFilterIsExact`, `CategoryFilterIsExact` |
| Dashboard.FilterProjects | project-dashboard/src/components/Dashboard.tsx:40-52 | the filtered list is no longer than the input, and each element is from the input and matches |
| Dashboard.PrependedSelection | project-dashboard/src/components/Dashboard.tsx:40-52 | a subsequence avoiding the first project stays a subsequence, in order, when the first project is put in front (the step where `filter` keeps `ps[0]`) |
| Dashboard.FilterIsOrderedSelection | project-dashboard/src/components/Dashboard.tsx:40-52 | the filtered list is a subsequence of the input (increasing positions), and those positions are exactly the matching ones |
| Dashboard.FilterMembership | project-dashboard/src/components/Dashboard.tsx:42-50 | a project is shown iff it is in the list and matches search, status and category |
| Dashboard.ClearedFiltersShowAll | project-dashboard/src/components/Dashboard.tsx:42-48 | with term "" and both selectors "all" the result is the whole list |
| Dashboard.SearchIgnoresCase | project-dashboard/src/components/Dashboard.tsx:42-45 | two terms equal up to case give the same list |
| Dashboard.UpperCasedSearchSameResult | project-dashboard/src/components/Dashboard.tsx:42-45 | upper-casing the term does not change the list |
| Dashboard.FilterIdempotent | project-dashboard/src/components/Dashboard.tsx:40-52 | filtering the filtered list again with the same inputs changes nothing |
| Dashboard.StatusFilterIsExact | project-dashboard/src/components/Dashboard.tsx:47-58 | a status selector other than "all" keeps only exactly-equal statuses, and as many projects as the status count |
| Dashboard.CategoryFilterIsExact | project-dashboard/src/components/Dashboard.tsx:48 | a category selector other than "all" keeps exactly the projects of that category |
| Dashboard.ComputeStats | project-dashboard/src/components/Dashboard.tsx:54-62 | `stats`: the total is the number of projects and each status bucket is within it; see `StatusBucketsBounded` for their sum |
| Dashboard.BudgetSum | project-dashboard/src/components/Dashboard.tsx:59 | the `reduce` over budgets: non-negative when every budget is; see `FilteredBudgetBounded` |
| Dashboard.CountStatus | project-dashboard/src/components/Dashboard.tsx:56-58 | a status count never exceeds the number of projects |
| Dashboard.StatusBucketsBounded | project-dashboard/src/components/Dashboard.tsx:54-62 | active + completed + planning <= total, with equality iff every status is one of the three |
| Dashboard.FilteredBudgetBounded | project-dashboard/src/components/Dashboard.tsx:59 | with non-negative budgets, the total budget is at least the budget of any filtered view, which is itself at least 0 |
| Dashboard.OneOfEachStatus | project-dashboard/src/components/Dashboard.tsx:40-62 | with one Active, one Completed and one Planning project: all three shown unfiltered, stats 3/1/1/1, and "Completed" keeps only the completed one |
| Dashboard.Distinct | project-dashboard/src/components/Dashboard.tsx:64-65 | `[...new Set(...)]`: no longer than its input and drawn from it; see `DistinctIsFirstOccurrences` |
| Dashboard.DistinctIsFirstOccurrences | project-dashboard/src/components/Dashboard.tsx:64-65 | the option list has no duplicates, holds exactly the values present, in first-occurrence order |
| Dashboard.StatusOptionsCoverProjects | project-dashboard/src/components/Dashboard.tsx:64 | every project's status is offered, and every offered status belongs to a project |
| Dashboard.CategoryOptionsCoverProjects | project-dashboard/src/components/Dashboard.tsx:65 | every project's category is offered, and every offered category belongs to a project |
| Dashboard.DashboardState.constructor | project-dashboard/src/components/Dashboard.tsx:33-38 | initial state: term "", both selectors "all", grid view, nothing selected |
| Dashboard.DashboardState.Visible | project-dashboard/src/components/Dashboard.tsx:40-52 | `filteredProjects`: no longer than the list, every shown project is in it and matches the current term and selectors |
| Dashboard.DashboardState.FiltersActive | project-dashboard/src/components/Dashboard.tsx:176 | the "Clear filters" button condition; see `InactiveFiltersShowAll` |
| Dashboard.DashboardState.OptionsAndStatsCoverProjects | project-dashboard/src/components/Dashboard.tsx:54-65 | the stats and both option lists come from the full list whatever the filters: total = number of projects, buckets within it, options cover the projects both ways |
| Dashboard.DashboardState.InactiveFiltersShowAll | project-dashboard/src/components/Dashboard.tsx:176-184 | when the "Clear filters" button is hidden, every project is visible |
| Dashboard.DashboardState.SetSearchTerm | project-dashboard/src/components/Dashboard.tsx:141 | sets the term and nothing else |
| Dashboard.DashboardState.SetStatusFilter | project-dashboard/src/components/Dashboard.tsx:146 | sets the status selector and nothing else |
| Dashboard.DashboardState.SetCategoryFilter | project-dashboard/src/components/Dashboard.tsx:158 | sets the category selector and nothing else |
| Dashboard.DashboardState.SetViewMode | project-dashboard/src/components/Dashboard.tsx:89-102 | switching view changes neither the filters, the selection nor the visible list |
| Dashboard.DashboardState.ClearFilters | project-dashboard/src/components/Dashboard.tsx:180-184 | resets to "", "all", "all"; afterwards every project is visible; selection and view are kept |
| Dashboard.DashboardState.ClickCard | project-dashboard/src/components/Dashboard.tsx:207-209 | deselects when the card was selected, selects it otherwise; filters and visible list unchanged |
| Dashboard.DashboardState.SelectOnMap | project-dashboard/src/components/ProjectMap.tsx:216-217 | a polygon click (and likewise a marker click, line 270) sets the selection to that id, never clears it |
| ProjectCard.GetInitials | project-dashboard/src/components/ProjectCard.tsx:35-37 | `getInitials`; see `InitialsAreWordHeads` and `InitialsOfOneWord` |
| ProjectCard.FirstChars | project-dashboard/src/components/ProjectCard.tsx:36 | `map(n => n[0])`: one entry per piece; see `JoinedFirstChars` |
| ProjectCard.JoinedFirstChars | project-dashboard/src/components/ProjectCard.tsx:36 | joining the first characters gives one character per non-empty piece, in order; empty pieces contribute nothing |
| ProjectCard.InitialsAreWordHeads | project-dashboard/src/components/ProjectCard.tsx:35-37 | initials: one upper-case character per non-empty piece (its upper-cased first character); never more than the pieces; "" for "" |
| ProjectCard.InitialsOfOneWord | project-dashboard/src/components/ProjectCard.tsx:36 | a name with no space gives its upper-cased first character |
| ProjectCard.ShownTags | project-dashboard/src/components/ProjectCard.tsx:122 | the shown tags are a prefix of the tags, of length min(len, 3) |
| ProjectCard.OverflowCount | project-dashboard/src/components/ProjectCard.tsx:127-131 | the `+N` badge exists iff there are more than three tags, and shown tags + N = number of tags |
| ProjectCard.TagsAccountedFor | project-dashboard/src/components/ProjectCard.tsx:122-131 | the `+N` badge appears iff tags are hidden, N > 0, and shown + N = number of tags |
| ProjectCard.StatusBadge | project-dashboard/src/components/ProjectCard.tsx:71-75 | default iff Completed, secondary iff Active, outline otherwise |
| ProjectMap.LayerMap | project-dashboard/src/components/ProjectMap.tsx:83-108 | one layer's dictionary after the loop; see `LayerMapContents` |
| ProjectMap.LoadAll | project-dashboard/src/components/ProjectMap.tsx:83-108 | both dictionaries after the loop; see `EntriesDependOnOwnResponses` |
| ProjectMap.FetchOverlays | project-dashboard/src/components/ProjectMap.tsx:83-110 | the loop's dictionaries equal the per-layer specification `LoadAll` of the projects and the oracle |
| ProjectMap.LayerMapHasLoaded | project-dashboard/src/components/ProjectMap.tsx:90-102 | every project whose document was requested and answered OK has an entry under its id |
| ProjectMap.LayerMapLastLoaded | project-dashboard/src/components/ProjectMap.tsx:86-107 | every entry comes from a project with that id whose request answered OK, the last such one (later ones overwrite) |
| ProjectMap.LayerMapContents | project-dashboard/src/components/ProjectMap.tsx:86-107 | a key is present iff some project with that id had the document requested and answered OK; its value is the last such project's document |
| ProjectMap.EntriesDependOnOwnResponses | project-dashboard/src/components/ProjectMap.tsx:88-106 | with unique ids: a project has an entry iff its own request answered OK; a not-OK or thrown request affects no other project; a thrown polygon request leaves no points entry |
| ProjectMap.ExtendPoint | project-dashboard/src/components/ProjectMap.tsx:116-123 | `extend` by one point: the result contains the point and the previous box, and an empty box becomes the point itself |
| ProjectMap.Corners | project-dashboard/src/components/ProjectMap.tsx:116-123 | what a project adds: never nothing; the rectangle's two corners, else its position; see `BoundsEncloseEveryProject` |
| ProjectMap.ExtendAll | project-dashboard/src/components/ProjectMap.tsx:114-124 | extending gives a box iff there was one or a point was added |
| ProjectMap.ExtendAllEncloses | project-dashboard/src/components/ProjectMap.tsx:116-123 | the extended box contains every added point and the previous box |
| ProjectMap.ExtendAllTight | project-dashboard/src/components/ProjectMap.tsx:116-123 | each edge of the extended box is an edge of the previous box or a coordinate of an added point |
| ProjectMap.BoundsOf | project-dashboard/src/components/ProjectMap.tsx:113-124 | there is a box iff there is a project |
| ProjectMap.BoundsEncloseEveryProject | project-dashboard/src/components/ProjectMap.tsx:113-124 | the box contains each project's south-west and north-east corners, or its lat/lng when it has no rectangle |
| ProjectMap.BoundsAreTight | project-dashboard/src/components/ProjectMap.tsx:113-124 | each edge of the box is attained by some project's corner or position |
| ProjectMap.SingleProjectBounds | project-dashboard/src/components/ProjectMap.tsx:121-122 | a single project without a rectangle is framed exactly by its position |
| ProjectMap.ComputeBounds | project-dashboard/src/components/ProjectMap.tsx:114-124 | the `forEach` accumulator equals the specification `BoundsOf` |
| ProjectMap.MarkerColour | project-dashboard/src/components/ProjectMap.tsx:52-56 | a marker is gray iff its status is not one of Active, Completed, Planning |
| ProjectMap.PolygonColour | project-dashboard/src/components/ProjectMap.tsx:133-139 | a polygon is never gray; it is amber iff the status is neither Completed nor Active |
| ProjectMap.ColourMappingsDisagreeOnUnknown | project-dashboard/src/components/ProjectMap.tsx:52-56 | the two colour mappings agree iff the status is known; an unknown status gives a gray marker and an amber polygon |
| ProjectMap.BadgeFollowsPolygonColour | project-dashboard/src/components/ProjectMap.tsx:278-282 | the marker popup's badge variant is default/secondary/outline exactly when the polygon is green/blue/amber |
| ProjectMap.Hex | project-dashboard/src/components/ProjectMap.tsx:54-56 | each colour's CSS literal is a 7-character `#` string; the same literals appear at lines 134-139 |
| ProjectMap.HexDistinguishesColours | project-dashboard/src/components/ProjectMap.tsx:52-56 | the four colour literals are pairwise distinct, so a literal identifies its colour |
| ProjectMap.PolygonStyle | project-dashboard/src/components/ProjectMap.tsx:133-141 | stroke and fill carry the literal of the polygon colour of the status, never the gray literal; opacity 0.8 |
| ProjectMap.SelectionEmphasis | project-dashboard/src/components/ProjectMap.tsx:136-140 | weight 3 and fill opacity 0.4 exactly for the selected id, 2 and 0.2 otherwise; with unique ids at most one polygon is emphasised |
| ProjectMap.MapView.constructor | project-dashboard/src/components/ProjectMap.tsx:72-78 | empty dictionaries, no bounds, all three layers visible |
| ProjectMap.MapView.LoadGeospatialData | project-dashboard/src/components/ProjectMap.tsx:81-130 | dictionaries rebuilt from empty and replaced wholesale; bounds replaced when there are projects, kept otherwise; layers untouched |
| ProjectMap.MapView.TogglePolygons | project-dashboard/src/components/ProjectMap.tsx:166 | flips the polygon layer only |
| ProjectMap.MapView.TogglePoints | project-dashboard/src/components/ProjectMap.tsx:176 | flips the points layer only |
| ProjectMap.MapView.ToggleMarkers | project-dashboard/src/components/ProjectMap.tsx:186 | flips the marker layer only |

## Left out

- All JSX markup, the UI kit, lucide icons and CSS classes. They are presentational only.
- Leaflet rendering is left out: map container, tile layer, GeoJSON and Popup components, `L.circleMarker`, the constant point style, the hover `setStyle` and the default centre and zoom. `LatLngBounds.extend` is modelled only as min/max over coordinates.
- The render-time `projects.find` and `!polygonData` checks. `LayerMapContents` shows that every loaded key is the id of a current project.
- `fetch` and `.json()`. The per-URL oracle returns the same answer for the same URL within one run. GeoJSON content is opaque. The `console.warn` log is not modelled.
- The ordering of async effect runs and stale results overwriting newer ones, and React's `useMemo`/`useEffect` scheduling. These are concurrency and framework semantics.
- `Intl.NumberFormat` budget formatting and `toLocaleDateString`. These are locale libraries.
- The SVG/`btoa` marker icon. Only its colour is modelled.
- Strings.ToLower: maps only ASCII letters. Unicode case mapping is not modelled.
- Strings.ToUpper: maps only ASCII letters. Unicode case mapping (which can change length) is not modelled.
- Dashboard.FilteredBudgetBounded: budgets and coordinates are exact reals. Floating-point rounding of the budget sum is not modelled.
- ProjectMap.MapView: stands for one mounting of the map component. The dashboard renders the map only in map view (project-dashboard/src/components/Dashboard.tsx:192-199), so switching to the grid discards its layer switches, dictionaries and bounds, and returning to the map starts a fresh `MapView` (the constructor's state). `DashboardState` does not hold a `MapView`, and `SetViewMode` does not model that reset.
- ProjectCard.InitialsAreWordHeads: strings are modelled as sequences of Unicode characters, not UTF-16 code units. For a word starting outside the Basic Multilingual Plane (an emoji, a CJK Extension B ideograph), the source's `n[0]` is the first half of a surrogate pair, while the model takes the whole character: for `"😀 Smith"` the source gives `"\uD83DS"` and the model `"😀S"`. `includes` and `split(' ')` agree with JavaScript on well-formed strings.
- The `geospatial.layers` field. It is carried in the record but no core code reads it.
- project-dashboard/vite.config.ts. It is build configuration with no logic.
