/** The project record shared by the dashboard, its cards and its map.
    The three components each declare a view of the same JSON record; this
    datatype is their union (the map's view adds `bounds` and `geospatial`). */
module Records {

  datatype Option<+T> = None | Some(value: T)

  /** `location.bounds`: an optional rectangle around the project site. */
  datatype Rect = Rect(north: real, south: real, east: real, west: real)

  datatype Location = Location(lat: real, lng: real, address: string, bounds: Option<Rect>)

  /** `geospatial`: URLs of a polygon document and of a points document. */
  datatype Geospatial = Geospatial(polygon: Option<string>, points: Option<string>, layers: Option<seq<string>>)

  datatype Project = Project(
    id: string,
    name: string,
    description: string,
    location: Location,
    geospatial: Option<Geospatial>,
    status: string,
    category: string,
    budget: real,
    completion: real,
    startDate: string,
    endDate: string,
    teamLead: string,
    teamSize: int,
    stakeholders: seq<string>,
    tags: seq<string>)

  /** The three status values the dashboard counts and colours on its own;
      any other status is shown but not counted. */
  predicate IsTrackedStatus(status: string)
  {
    status == "Active" || status == "Completed" || status == "Planning"
  }
}
