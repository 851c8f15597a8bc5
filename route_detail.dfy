/**
 * One route's detail view (`RouteDetail`): the document listener's two
 * callbacks as state transitions, and the initial map region. The polyline
 * it draws is `RouteData.RouteCoordinates` of the route data.
 */
module RouteDetail {
  import opened Wrappers
  import opened Geo
  import opened RouteData
  import UserRoutesScreen

  datatype State = State(routeData: Option<Route>, loading: bool)

  /** A document snapshot: its id and its data, absent when the document does not exist. */
  datatype DocSnapshot = DocSnapshot(id: string, data: Option<DocData>)

  /** The component's initial state: no data, loading. */
  const Initial: State := State(None, true)

  /** `handleSnapshot`: with data, the route is stored and loading ends; without, nothing changes. */
  function HandleSnapshot(st: State, doc: DocSnapshot): (st': State)
    ensures doc.data.Some? ==> st'.routeData == Some(FromDoc(RouteDoc(doc.id, doc.data.value))) && !st'.loading
    ensures doc.data.None? ==> st' == st
  {
    match doc.data
    case Some(data) => State(Some(FromDoc(RouteDoc(doc.id, data))), false)
    case None => st
  }

  /** `handleSnapshotError`: loading ends and the route data is kept. */
  function HandleSnapshotError(st: State): (st': State)
    ensures !st'.loading && st'.routeData == st.routeData
  {
    st.(loading := false)
  }

  /**
   * From the initial state, a snapshot of a missing document leaves the
   * screen loading with no data; only a listener error ends the loading
   * without data.
   */
  lemma MissingDocumentKeepsLoading(id: string)
    ensures HandleSnapshot(Initial, DocSnapshot(id, None)) == State(None, true)
    ensures HandleSnapshotError(HandleSnapshot(Initial, DocSnapshot(id, None))) == State(None, false)
  {
  }

  /**
   * `initialMapRegion`: the default centre without data or points, else the
   * last point, always with the default deltas. The route's `path` is read
   * without a guard, so it must be present.
   */
  function InitialMapRegion(routeData: Option<Route>, d: Deltas): (r: Region)
    requires routeData.Some? ==> routeData.value.path.Some?
    ensures r.latitudeDelta == d.latitudeDelta && r.longitudeDelta == d.longitudeDelta
    ensures routeData.None? || routeData.value.path.value == [] ==> r == DefaultRegion(d)
    ensures routeData.Some? && routeData.value.path.value != [] ==>
      LatLng(r.latitude, r.longitude) == Position(routeData.value.path.value[|routeData.value.path.value| - 1])
  {
    if routeData.None? || |routeData.value.path.value| == 0 then DefaultRegion(d)
    else
      var lastPoint := routeData.value.path.value[|routeData.value.path.value| - 1];
      RegionAt(lastPoint.latitude, lastPoint.longitude, d)
  }

  /**
   * This screen and the user-routes screen centre a route the same way
   * unless its last point has a zero coordinate, which only the user-routes
   * screen replaces by the default.
   */
  lemma SameRegionAsUserRoutes(route: Route, d: Deltas)
    requires route.path.Some?
    requires route.path.value != [] ==>
      route.path.value[|route.path.value| - 1].latitude != 0.0 && route.path.value[|route.path.value| - 1].longitude != 0.0
    ensures InitialMapRegion(Some(route), d) == UserRoutesScreen.InitialMapRegion(Some(route), d)
  {
  }
}
