/**
 * Another user's route list (`UserRoutesScreen`): the list built from a
 * snapshot, the selected route by index, its map region, and the "live"
 * tag on list items. The polyline of the selected route is
 * `RouteData.RouteCoordinates`.
 */
module UserRoutesScreen {
  import opened Wrappers
  import opened Geo
  import opened RouteData
  import Sorting
  import RouteScreen

  datatype State = State(routes: seq<Route>, loading: bool, selectedRouteIndex: Option<nat>)

  /** `handleSnapshot`: the routes newest first, loading cleared, the selection index kept. */
  method HandleSnapshot(st: State, docs: seq<RouteDoc>) returns (st': State)
    ensures Sorting.Descending(st'.routes, StartTime)
    ensures multiset(st'.routes) == multiset(FromDocs(docs))
    ensures forall k :: Sorting.WithKey(st'.routes, StartTime, k) == Sorting.WithKey(FromDocs(docs), StartTime, k)
    ensures !st'.loading && st'.selectedRouteIndex == st.selectedRouteIndex
  {
    var sorted := CollectSorted(docs);
    st' := st.(routes := sorted, loading := false);
  }

  /**
   * `selectedRoute`: `routes[selectedRouteIndex]`, or nothing. An index past
   * the end reads `undefined`, which the screen treats like no selection.
   */
  function SelectedRoute(st: State): (r: Option<Route>)
    ensures st.selectedRouteIndex.None? ==> r.None?
    ensures st.selectedRouteIndex.Some? && st.selectedRouteIndex.value < |st.routes| ==>
      r == Some(st.routes[st.selectedRouteIndex.value])
    ensures st.selectedRouteIndex.Some? && st.selectedRouteIndex.value >= |st.routes| ==> r.None?
    ensures r.Some? ==> r.value in st.routes
  {
    match st.selectedRouteIndex
    case None => None
    case Some(i) => if i < |st.routes| then Some(st.routes[i]) else None
  }

  /** `handleSelectRoute`: only the index changes. */
  function SelectRoute(st: State, index: nat): (st': State)
    ensures st'.selectedRouteIndex == Some(index)
    ensures st'.routes == st.routes && st'.loading == st.loading
  {
    st.(selectedRouteIndex := Some(index))
  }

  /** `handleBackToList`: the selection is cleared and nothing else changes. */
  function BackToList(st: State): (st': State)
    ensures SelectedRoute(st') == None
    ensures st'.routes == st.routes && st'.loading == st.loading
  {
    st.(selectedRouteIndex := None)
  }

  /** Selecting an index of the list selects that route; going back selects nothing */
  lemma {:induction false} SelectThenBack(st: State, index: nat)
    requires index < |st.routes|
    ensures SelectedRoute(SelectRoute(st, index)) == Some(st.routes[index])
    ensures BackToList(SelectRoute(st, index)) == st.(selectedRouteIndex := None)
  {
  }

  /** `value || fallback` for a number: 0 is falsy and falls back. */
  function OrDefault(value: Option<real>, fallback: real): (r: real)
    ensures value.Some? && value.value != 0.0 ==> r == value.value
    ensures value.None? || value.value == 0.0 ==> r == fallback
  {
    if value.Some? && value.value != 0.0 then value.value else fallback
  }

  /** The last recorded point, if there is one (`path[path.length - 1]`). */
  function LastPoint(path: seq<Coord>): (r: Option<Coord>)
    ensures r.None? <==> path == []
    ensures r.Some? ==> r.value == path[|path| - 1] && r.value in path
  {
    if path == [] then None else Some(path[|path| - 1])
  }

  /**
   * `initialMapRegion`: the default centre with nothing selected; otherwise
   * the last point's latitude and longitude, each replaced by its default
   * when the path is empty or the value is 0. The selected route's `path` is
   * read without a guard, so it must be present.
   */
  function InitialMapRegion(selected: Option<Route>, d: Deltas): (r: Region)
    requires selected.Some? ==> selected.value.path.Some?
    ensures r.latitudeDelta == d.latitudeDelta && r.longitudeDelta == d.longitudeDelta
    ensures selected.None? ==> r == DefaultRegion(d)
    ensures selected.Some? && selected.value.path.value == [] ==> r == DefaultRegion(d)
    ensures selected.Some? && selected.value.path.value != [] ==>
      var last := selected.value.path.value[|selected.value.path.value| - 1];
      && r.latitude == (if last.latitude != 0.0 then last.latitude else DefaultLatitude)
      && r.longitude == (if last.longitude != 0.0 then last.longitude else DefaultLongitude)
  {
    if selected.None? then DefaultRegion(d)
    else
      var last := LastPoint(selected.value.path.value);
      RegionAt(
        OrDefault(if last.Some? then Some(last.value.latitude) else None, DefaultLatitude),
        OrDefault(if last.Some? then Some(last.value.longitude) else None, DefaultLongitude),
        d)
  }

  /** A last point on the equator keeps its longitude but gets the default latitude. */
  lemma EquatorFallsBackToDefaultLatitude(route: Route, longitude: real, t: int, d: Deltas)
    requires route.path == Some([Coord(0.0, longitude, t)]) && longitude != 0.0
    ensures InitialMapRegion(Some(route), d) == RegionAt(DefaultLatitude, longitude, d)
  {
  }

  /** `isLive` in `renderRouteItem`: the first item, with at least one point, and active. */
  function IsLive(route: Route, index: nat): (b: bool)
    ensures b <==> index == 0 && route.path.Some? && |route.path.value| > 0 && route.isActive == Some(true)
  {
    var isMostRecent := index == 0;
    var length := if route.path.Some? then |route.path.value| else 0;
    isMostRecent && length > 0 && route.isActive == Some(true)
  }

  /** At most one item of a list is tagged live, and a live item is live by the route screen's rule too. */
  lemma AtMostOneLive(routes: seq<Route>, i: nat, j: nat)
    requires i < |routes| && j < |routes|
    requires IsLive(routes[i], i) && IsLive(routes[j], j)
    ensures i == j == 0
    ensures RouteScreen.IsLiveRoute(routes[i])
  {
  }

  /** The route screen's rule is weaker: an active route down the list, or one with no points, is not tagged here. */
  lemma LiveTagNeedsFirstAndPoints(route: Route, index: nat)
    requires RouteScreen.IsLiveRoute(route)
    ensures IsLive(route, index) <==> index == 0 && route.path.Some? && route.path.value != []
  {
  }
}
