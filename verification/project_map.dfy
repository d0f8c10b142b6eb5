/** The map view's engine: loading the polygon and point documents of the
    visible projects into two dictionaries keyed by project id, the bounding
    box that frames the projects, the status colours and polygon style, and
    the three layer switches. The network is an oracle `fetch` that answers
    each URL with a document, a non-OK status, or a thrown error. */
module ProjectMap {
  import opened Records
  import ProjectCard

  // ---------------------------------------------------------------------
  // Loading the overlays

  /** A parsed GeoJSON document; its content is not interpreted here. */
  datatype GeoDoc = GeoDoc(json: string)

  /** The outcome of `await fetch(url)` followed by `await response.json()`. */
  datatype Response = Ok(doc: GeoDoc) | NotOk | Throws

  /** `geospatialData`: one dictionary per kind of document. */
  datatype GeospatialData = GeospatialData(polygons: map<string, GeoDoc>, points: map<string, GeoDoc>)

  datatype Layer = PolygonLayer | PointsLayer

  /** A URL passes the `if (url)` test: present and not the empty string. */
  predicate Present(url: Option<string>)
  {
    url.Some? && url.value != ""
  }

  function Url(p: Project, layer: Layer): Option<string>
    requires p.geospatial.Some?
  {
    if layer == PolygonLayer then p.geospatial.value.polygon else p.geospatial.value.points
  }

  /** The polygon request of `p` throws, which abandons the rest of its `try`. */
  predicate PolygonThrows(p: Project, fetch: string -> Response)
  {
    p.geospatial.Some? && Present(Url(p, PolygonLayer)) && fetch(Url(p, PolygonLayer).value).Throws?
  }

  /** The loop requests this document of `p`. */
  predicate Requested(p: Project, layer: Layer, fetch: string -> Response)
  {
    p.geospatial.Some? && Present(Url(p, layer))
    && (layer == PointsLayer ==> !PolygonThrows(p, fetch))
  }

  /** The document was requested and came back OK. */
  predicate Loaded(p: Project, layer: Layer, fetch: string -> Response)
  {
    Requested(p, layer, fetch) && fetch(Url(p, layer).value).Ok?
  }

  function LoadedDoc(p: Project, layer: Layer, fetch: string -> Response): GeoDoc
    requires Loaded(p, layer, fetch)
  {
    fetch(Url(p, layer).value).doc
  }

  /** The dictionary for one layer after the loop has visited `ps`. */
  function LayerMap(ps: seq<Project>, layer: Layer, fetch: string -> Response): map<string, GeoDoc>
    decreases |ps|
  {
    if ps == [] then map[]
    else
      var m := LayerMap(ps[..|ps| - 1], layer, fetch);
      var p := ps[|ps| - 1];
      if Loaded(p, layer, fetch) then m[p.id := LoadedDoc(p, layer, fetch)] else m
  }

  function LoadAll(ps: seq<Project>, fetch: string -> Response): GeospatialData
  {
    GeospatialData(LayerMap(ps, PolygonLayer, fetch), LayerMap(ps, PointsLayer, fetch))
  }

  /** The loop of `loadGeospatialData`: both dictionaries start empty, each
      project's documents are awaited in turn, a non-OK answer is skipped and
      a thrown error abandons that project's remaining request. */
  method FetchOverlays(projects: seq<Project>, fetch: string -> Response) returns (data: GeospatialData)
    ensures data == LoadAll(projects, fetch)
  {
    var polygons: map<string, GeoDoc> := map[];
    var points: map<string, GeoDoc> := map[];
    for i := 0 to |projects|
      invariant polygons == LayerMap(projects[..i], PolygonLayer, fetch)
      invariant points == LayerMap(projects[..i], PointsLayer, fetch)
    {
      var project := projects[i];
      assert projects[..i + 1][..i] == projects[..i];
      if project.geospatial.Some? {
        var g := project.geospatial.value;
        label attempt: {
          if Present(g.polygon) {
            var response := fetch(g.polygon.value);
            if response.Throws? {
              break attempt;
            }
            if response.Ok? {
              polygons := polygons[project.id := response.doc];
            }
          }
          if Present(g.points) {
            var response := fetch(g.points.value);
            if response.Throws? {
              break attempt;
            }
            if response.Ok? {
              points := points[project.id := response.doc];
            }
          }
        }
      }
    }
    assert projects[..|projects|] == projects;
    data := GeospatialData(polygons, points);
  }

  /** `id` was loaded from `ps[j]`, and no later project with that id
      loaded this layer (a later one overwrites an earlier one). */
  ghost predicate LastLoadedAt(ps: seq<Project>, layer: Layer, fetch: string -> Response, id: string, j: int)
  {
    0 <= j < |ps| && ps[j].id == id && Loaded(ps[j], layer, fetch)
    && forall k :: j < k < |ps| && ps[k].id == id ==> !Loaded(ps[k], layer, fetch)
  }

  /** Every project whose document was requested and answered OK has an
      entry under its id. */
  lemma {:induction false} LayerMapHasLoaded(ps: seq<Project>, layer: Layer, fetch: string -> Response, j: int)
    requires 0 <= j < |ps| && Loaded(ps[j], layer, fetch)
    ensures ps[j].id in LayerMap(ps, layer, fetch)
    decreases |ps|
  {
    var n := |ps| - 1;
    if j < n {
      var pre := ps[..n];
      assert pre[j] == ps[j];
      LayerMapHasLoaded(pre, layer, fetch, j);
    }
  }

  /** Every entry comes from a project with that id whose document was
      requested and answered OK, the last such project in the list. */
  lemma {:induction false} LayerMapLastLoaded(ps: seq<Project>, layer: Layer, fetch: string -> Response, id: string)
    returns (j: int)
    requires id in LayerMap(ps, layer, fetch)
    ensures LastLoadedAt(ps, layer, fetch, id, j)
    ensures LayerMap(ps, layer, fetch)[id] == LoadedDoc(ps[j], layer, fetch)
    decreases |ps|
  {
    var n := |ps| - 1;
    var pre, p := ps[..n], ps[n];
    if Loaded(p, layer, fetch) && id == p.id {
      j := n;
    } else {
      var m := LayerMap(pre, layer, fetch);
      assert id in m && LayerMap(ps, layer, fetch)[id] == m[id];
      j := LayerMapLastLoaded(pre, layer, fetch, id);
      assert pre[j] == ps[j];
      forall k | j < k < |ps| && ps[k].id == id ensures !Loaded(ps[k], layer, fetch) {
        if k < n { assert pre[k] == ps[k]; }
      }
    }
  }

  /** A key is in a layer's dictionary exactly when some project with that
      id had the document requested and answered OK; its value is the
      document of the last such project. */
  lemma LayerMapContents(ps: seq<Project>, layer: Layer, fetch: string -> Response)
    ensures forall id :: (id in LayerMap(ps, layer, fetch))
              <==> exists j :: 0 <= j < |ps| && ps[j].id == id && Loaded(ps[j], layer, fetch)
    ensures forall id :: id in LayerMap(ps, layer, fetch) ==>
              exists j :: LastLoadedAt(ps, layer, fetch, id, j) && LayerMap(ps, layer, fetch)[id] == LoadedDoc(ps[j], layer, fetch)
  {
    forall id | id in LayerMap(ps, layer, fetch)
      ensures exists j :: LastLoadedAt(ps, layer, fetch, id, j) && LayerMap(ps, layer, fetch)[id] == LoadedDoc(ps[j], layer, fetch)
    {
      var j := LayerMapLastLoaded(ps, layer, fetch, id);
    }
    forall j | 0 <= j < |ps| && Loaded(ps[j], layer, fetch) ensures ps[j].id in LayerMap(ps, layer, fetch) {
      LayerMapHasLoaded(ps, layer, fetch, j);
    }
  }

  /** When project ids are unique, each project's entries depend on its own
      responses only: an entry exists exactly when its own request answered
      OK, a failure of one project never removes another project's entry,
      and a thrown polygon request also leaves that project without points. */
  lemma EntriesDependOnOwnResponses(ps: seq<Project>, fetch: string -> Response, j: int)
    requires forall a, b :: 0 <= a < b < |ps| ==> ps[a].id != ps[b].id
    requires 0 <= j < |ps|
    ensures ps[j].id in LoadAll(ps, fetch).polygons <==> Loaded(ps[j], PolygonLayer, fetch)
    ensures ps[j].id in LoadAll(ps, fetch).points <==> Loaded(ps[j], PointsLayer, fetch)
    ensures Loaded(ps[j], PolygonLayer, fetch) ==> LoadAll(ps, fetch).polygons[ps[j].id] == LoadedDoc(ps[j], PolygonLayer, fetch)
    ensures PolygonThrows(ps[j], fetch) ==> ps[j].id !in LoadAll(ps, fetch).points
  {
    var id := ps[j].id;
    assert forall k :: 0 <= k < |ps| && ps[k].id == id ==> k == j;
    var polygons, points := LayerMap(ps, PolygonLayer, fetch), LayerMap(ps, PointsLayer, fetch);
    if id in polygons {
      var k := LayerMapLastLoaded(ps, PolygonLayer, fetch, id);
      assert k == j;
    }
    if id in points {
      var k := LayerMapLastLoaded(ps, PointsLayer, fetch, id);
      assert k == j;
    }
    if Loaded(ps[j], PolygonLayer, fetch) {
      LayerMapHasLoaded(ps, PolygonLayer, fetch, j);
    }
    if Loaded(ps[j], PointsLayer, fetch) {
      LayerMapHasLoaded(ps, PointsLayer, fetch, j);
    }
  }

  // ---------------------------------------------------------------------
  // Bounds: `new LatLngBounds([])` extended by every project

  datatype LatLng = LatLng(lat: real, lng: real)

  datatype Box = Box(south: real, west: real, north: real, east: real)

  function Min(a: real, b: real): real { if a <= b then a else b }

  function Max(a: real, b: real): real { if a >= b then a else b }

  /** `bounds.extend(point)`: an empty box becomes the point itself. */
  function ExtendPoint(b: Option<Box>, pt: LatLng): (r: Box)
    ensures Encloses(r, pt)
    ensures b.Some? ==> Covers(r, b.value)
    ensures b.None? ==> r == Box(pt.lat, pt.lng, pt.lat, pt.lng)
  {
    match b
    case None => Box(pt.lat, pt.lng, pt.lat, pt.lng)
    case Some(x) => Box(Min(x.south, pt.lat), Min(x.west, pt.lng), Max(x.north, pt.lat), Max(x.east, pt.lng))
  }

  function ExtendAll(b: Option<Box>, pts: seq<LatLng>): (r: Option<Box>)
    ensures r.Some? <==> b.Some? || pts != []
    decreases |pts|
  {
    if pts == [] then b else ExtendAll(Some(ExtendPoint(b, pts[0])), pts[1..])
  }

  /** What a project contributes: the south-west and north-east corners of
      its rectangle when it has one, otherwise its own position. */
  function Corners(p: Project): (r: seq<LatLng>)
    ensures r != []
  {
    match p.location.bounds
    case Some(rect) => [LatLng(rect.south, rect.west), LatLng(rect.north, rect.east)]
    case None => [LatLng(p.location.lat, p.location.lng)]
  }

  function AllCorners(ps: seq<Project>): (r: seq<LatLng>)
    ensures r == [] <==> ps == []
    decreases |ps|
  {
    if ps == [] then [] else AllCorners(ps[..|ps| - 1]) + Corners(ps[|ps| - 1])
  }

  function BoundsOf(ps: seq<Project>): (r: Option<Box>)
    ensures r.Some? <==> ps != []
  {
    ExtendAll(None, AllCorners(ps))
  }

  predicate Encloses(b: Box, pt: LatLng)
  {
    b.south <= pt.lat <= b.north && b.west <= pt.lng <= b.east
  }

  predicate Covers(outer: Box, inner: Box)
  {
    outer.south <= inner.south && outer.west <= inner.west && inner.north <= outer.north && inner.east <= outer.east
  }

  lemma {:induction false} ExtendAllAppend(b: Option<Box>, xs: seq<LatLng>, ys: seq<LatLng>)
    ensures ExtendAll(b, xs + ys) == ExtendAll(ExtendAll(b, xs), ys)
    decreases |xs|
  {
    if xs == [] {
      assert xs + ys == ys;
    } else {
      assert (xs + ys)[0] == xs[0] && (xs + ys)[1..] == xs[1..] + ys;
      ExtendAllAppend(Some(ExtendPoint(b, xs[0])), xs[1..], ys);
    }
  }

  /** Extending yields a box exactly when there was one or there is a point,
      and that box covers the old box and every point added. */
  lemma {:induction false} ExtendAllEncloses(b: Option<Box>, pts: seq<LatLng>)
    ensures ExtendAll(b, pts).Some? <==> b.Some? || pts != []
    ensures ExtendAll(b, pts).Some? ==>
              (forall pt :: pt in pts ==> Encloses(ExtendAll(b, pts).value, pt))
              && (b.Some? ==> Covers(ExtendAll(b, pts).value, b.value))
    decreases |pts|
  {
    if pts != [] {
      var b' := ExtendPoint(b, pts[0]);
      ExtendAllEncloses(Some(b'), pts[1..]);
      assert pts == [pts[0]] + pts[1..];
    }
  }

  /** Each edge of the extended box is an edge of the old box or a
      coordinate of an added point: the box is no larger than needed. */
  lemma {:induction false} ExtendAllTight(b: Option<Box>, pts: seq<LatLng>)
    requires b.Some? || pts != []
    ensures var r := ExtendAll(b, pts).value;
            ((b.Some? && r.south == b.value.south) || exists pt :: pt in pts && pt.lat == r.south)
            && ((b.Some? && r.north == b.value.north) || exists pt :: pt in pts && pt.lat == r.north)
            && ((b.Some? && r.west == b.value.west) || exists pt :: pt in pts && pt.lng == r.west)
            && ((b.Some? && r.east == b.value.east) || exists pt :: pt in pts && pt.lng == r.east)
    decreases |pts|
  {
    ExtendAllEncloses(b, pts);
    if pts != [] {
      var b' := ExtendPoint(b, pts[0]);
      ExtendAllTight(Some(b'), pts[1..]);
      assert pts == [pts[0]] + pts[1..];
      assert forall pt :: pt in pts[1..] ==> pt in pts;
    }
  }

  lemma {:induction false} AllCornersMembership(ps: seq<Project>)
    ensures AllCorners(ps) == [] <==> ps == []
    ensures forall c :: c in AllCorners(ps) <==> exists j :: 0 <= j < |ps| && c in Corners(ps[j])
    decreases |ps|
  {
    if ps != [] {
      var n := |ps| - 1;
      AllCornersMembership(ps[..n]);
      assert forall j :: 0 <= j < n ==> ps[..n][j] == ps[j];
    }
  }

  /** The box exists exactly when there is a project, and then it contains
      every project's rectangle corners, or its position when it has no
      rectangle. */
  lemma BoundsEncloseEveryProject(ps: seq<Project>)
    ensures BoundsOf(ps).Some? <==> ps != []
    ensures BoundsOf(ps).Some? ==>
              forall j, c :: 0 <= j < |ps| && c in Corners(ps[j]) ==> Encloses(BoundsOf(ps).value, c)
  {
    AllCornersMembership(ps);
    ExtendAllEncloses(None, AllCorners(ps));
  }

  /** Each edge of the box is attained by a corner or position of some project. */
  lemma BoundsAreTight(ps: seq<Project>)
    requires ps != []
    ensures var b := BoundsOf(ps).value;
            (exists j, c :: 0 <= j < |ps| && c in Corners(ps[j]) && c.lat == b.south)
            && (exists j, c :: 0 <= j < |ps| && c in Corners(ps[j]) && c.lat == b.north)
            && (exists j, c :: 0 <= j < |ps| && c in Corners(ps[j]) && c.lng == b.west)
            && (exists j, c :: 0 <= j < |ps| && c in Corners(ps[j]) && c.lng == b.east)
  {
    AllCornersMembership(ps);
    ExtendAllTight(None, AllCorners(ps));
  }

  /** A single project without a rectangle is framed by its own position. */
  lemma SingleProjectBounds(p: Project)
    requires p.location.bounds.None?
    ensures BoundsOf([p]) == Some(Box(p.location.lat, p.location.lng, p.location.lat, p.location.lng))
  {
    var pt := LatLng(p.location.lat, p.location.lng);
    assert [p][..0] == [];
    assert AllCorners([p]) == [pt];
    assert ExtendAll(None, [pt]) == ExtendAll(Some(ExtendPoint(None, pt)), []);
  }

  /** The `forEach` that extends one accumulator box project by project. */
  method ComputeBounds(projects: seq<Project>) returns (bounds: Option<Box>)
    ensures bounds == BoundsOf(projects)
  {
    bounds := None;
    for i := 0 to |projects|
      invariant bounds == ExtendAll(None, AllCorners(projects[..i]))
    {
      var project := projects[i];
      assert projects[..i + 1][..i] == projects[..i];
      assert AllCorners(projects[..i + 1]) == AllCorners(projects[..i]) + Corners(project);
      ExtendAllAppend(None, AllCorners(projects[..i]), Corners(project));
      match project.location.bounds {
        case Some(rect) =>
          // extending by the rectangle extends by both of its corners
          var sw, ne := LatLng(rect.south, rect.west), LatLng(rect.north, rect.east);
          assert ExtendAll(bounds, [sw, ne]) == ExtendAll(Some(ExtendPoint(bounds, sw)), [ne]);
          bounds := Some(ExtendPoint(Some(ExtendPoint(bounds, sw)), ne));
        case None =>
          bounds := Some(ExtendPoint(bounds, LatLng(project.location.lat, project.location.lng)));
      }
    }
    assert projects[..|projects|] == projects;
  }

  // ---------------------------------------------------------------------
  // Colours and polygon style

  datatype Colour = Green | Blue | Amber | Gray

  /** The CSS colour literal written for each colour; distinct colours give
      distinct literals, so a style's literal determines its colour. */
  function Hex(c: Colour): (h: string)
    ensures |h| == 7 && h[0] == '#'
  {
    match c
    case Green => "#22c55e"
    case Blue => "#3b82f6"
    case Amber => "#f59e0b"
    case Gray => "#6b7280"
  }

  lemma HexDistinguishesColours(a: Colour, b: Colour)
    ensures Hex(a) == Hex(b) <==> a == b
  {
  }

  /** The marker colour of `createCustomIcon`: unknown statuses are gray. */
  function MarkerColour(status: string): (c: Colour)
    ensures c == Gray <==> !IsTrackedStatus(status)
  {
    if status == "Completed" then Green
    else if status == "Active" then Blue
    else if status == "Planning" then Amber
    else Gray
  }

  /** The polygon colour of `getPolygonStyle`: unknown statuses are amber. */
  function PolygonColour(status: string): (c: Colour)
    ensures c != Gray
    ensures c == Amber <==> status != "Completed" && status != "Active"
  {
    if status == "Completed" then Green
    else if status == "Active" then Blue
    else Amber
  }

  /** The two mappings agree on the three known statuses and disagree on
      every other one: gray marker, amber polygon. */
  lemma ColourMappingsDisagreeOnUnknown(status: string)
    ensures MarkerColour(status) == PolygonColour(status) <==> IsTrackedStatus(status)
    ensures !IsTrackedStatus(status) ==> MarkerColour(status) == Gray && PolygonColour(status) == Amber
  {
  }

  /** The status badge in the marker popup follows the polygon colour:
      default for green, secondary for blue, outline for amber. (The
      polygon's own popup always shows an outline badge.) */
  lemma BadgeFollowsPolygonColour(status: string)
    ensures ProjectCard.StatusBadge(status) == ProjectCard.Default <==> PolygonColour(status) == Green
    ensures ProjectCard.StatusBadge(status) == ProjectCard.Secondary <==> PolygonColour(status) == Blue
    ensures ProjectCard.StatusBadge(status) == ProjectCard.Outline <==> PolygonColour(status) == Amber
  {
  }

  datatype PathStyle = PathStyle(color: string, weight: nat, opacity: real, fillColor: string, fillOpacity: real)

  /** `getPolygonStyle`: stroke and fill carry the literal of the polygon
      colour, so a never-gray colour means the gray literal never appears. */
  function PolygonStyle(p: Project, selectedProject: string): (s: PathStyle)
    ensures s.color == s.fillColor == Hex(PolygonColour(p.status))
    ensures s.color != Hex(Gray)
    ensures s.opacity == 0.8
  {
    var selected := selectedProject == p.id;
    var hex := Hex(PolygonColour(p.status));
    PathStyle(hex, if selected then 3 else 2, 0.8, hex, if selected then 0.4 else 0.2)
  }

  /** The selected project's polygon is drawn heavier (weight 3, fill
      opacity 0.4) and otherwise alike; every other one has weight 2 and fill
      opacity 0.2. With unique ids at most one polygon is emphasised. */
  lemma SelectionEmphasis(ps: seq<Project>, selectedProject: string)
    requires forall a, b :: 0 <= a < b < |ps| ==> ps[a].id != ps[b].id
    ensures forall j :: 0 <= j < |ps| ==>
              (PolygonStyle(ps[j], selectedProject).weight == 3 <==> ps[j].id == selectedProject)
    ensures forall j :: 0 <= j < |ps| && ps[j].id != selectedProject ==>
              PolygonStyle(ps[j], selectedProject).weight == 2 && PolygonStyle(ps[j], selectedProject).fillOpacity == 0.2
    ensures forall j :: 0 <= j < |ps| && ps[j].id == selectedProject ==>
              PolygonStyle(ps[j], selectedProject) == PolygonStyle(ps[j], "").(weight := 3, fillOpacity := 0.4)
    ensures forall a, b :: 0 <= a < b < |ps| ==>
              !(PolygonStyle(ps[a], selectedProject).weight == 3 && PolygonStyle(ps[b], selectedProject).weight == 3)
  {
  }

  // ---------------------------------------------------------------------
  // The map component's state

  class MapView {
    var geospatialData: GeospatialData
    /** `mapBounds`: `None` is the initial `null`. */
    var mapBounds: Option<Box>
    /** `visibleLayers`. */
    var showPolygons: bool
    var showPoints: bool
    var showMarkers: bool

    constructor ()
      ensures geospatialData == GeospatialData(map[], map[]) && mapBounds == None
      ensures showPolygons && showPoints && showMarkers
    {
      geospatialData := GeospatialData(map[], map[]);
      mapBounds := None;
      showPolygons, showPoints, showMarkers := true, true, true;
    }

    /** `loadGeospatialData`: the dictionaries are rebuilt from nothing and
        replace the old ones; the bounds are replaced only when there is a
        project, otherwise they keep their previous value. */
    method LoadGeospatialData(projects: seq<Project>, fetch: string -> Response)
      modifies this
      ensures geospatialData == LoadAll(projects, fetch)
      ensures projects == [] ==> mapBounds == old(mapBounds)
      ensures projects != [] ==> mapBounds == BoundsOf(projects) && mapBounds.Some?
      ensures showPolygons == old(showPolygons) && showPoints == old(showPoints) && showMarkers == old(showMarkers)
    {
      var data := FetchOverlays(projects, fetch);
      geospatialData := data;
      if |projects| > 0 {
        var bounds := ComputeBounds(projects);
        BoundsEncloseEveryProject(projects);
        mapBounds := bounds;
      }
    }

    method TogglePolygons()
      modifies this
      ensures showPolygons == !old(showPolygons)
      ensures showPoints == old(showPoints) && showMarkers == old(showMarkers)
      ensures geospatialData == old(geospatialData) && mapBounds == old(mapBounds)
    {
      showPolygons := !showPolygons;
    }

    method TogglePoints()
      modifies this
      ensures showPoints == !old(showPoints)
      ensures showPolygons == old(showPolygons) && showMarkers == old(showMarkers)
      ensures geospatialData == old(geospatialData) && mapBounds == old(mapBounds)
    {
      showPoints := !showPoints;
    }

    method ToggleMarkers()
      modifies this
      ensures showMarkers == !old(showMarkers)
      ensures showPolygons == old(showPolygons) && showPoints == old(showPoints)
      ensures geospatialData == old(geospatialData) && mapBounds == old(mapBounds)
    {
      showMarkers := !showMarkers;
    }
  }
}
