/**
 * The signed-in user's route list and map (`RouteScreen`): the route list
 * built from a snapshot, the "live" rule, what selecting a route does, the
 * initial map region and the polyline drawn for the selected route.
 */
module RouteScreen {
  import opened Wrappers
  import opened Geo
  import opened RouteData
  import Sorting

  /** The component state the modelled callbacks read and write. */
  datatype State = State(
    routes: seq<Route>,
    loading: bool,
    selectedRoute: Option<Route>,
    liveLocation: Option<LatLng>)

  /** `isLiveRoute`: `route.isActive === true`; an absent flag is not live. */
  function IsLiveRoute(route: Route): (b: bool)
    ensures b <==> route.isActive.Some? && route.isActive.value
    ensures route.isActive.None? ==> !b
  {
    route.isActive == Some(true)
  }

  /** `handleSnapshot`: the routes newest first, loading cleared, the rest untouched. */
  method HandleSnapshot(st: State, docs: seq<RouteDoc>) returns (st': State)
    ensures Sorting.Descending(st'.routes, StartTime)
    ensures multiset(st'.routes) == multiset(FromDocs(docs))
    ensures forall k :: Sorting.WithKey(st'.routes, StartTime, k) == Sorting.WithKey(FromDocs(docs), StartTime, k)
    ensures !st'.loading && st'.selectedRoute == st.selectedRoute && st'.liveLocation == st.liveLocation
  {
    var sorted := CollectSorted(docs);
    st' := st.(routes := sorted, loading := false);
  }

  /** `handleSnapshotError`: loading is cleared and nothing else changes. */
  function HandleSnapshotError(st: State): (st': State)
    ensures !st'.loading
    ensures st'.routes == st.routes && st'.selectedRoute == st.selectedRoute && st'.liveLocation == st.liveLocation
  {
    st.(loading := false)
  }

  /**
   * `handleRouteSelect`: a live route opens the sharing screen with that
   * route; any other becomes the selected route. Exactly one happens.
   */
  function HandleRouteSelect(st: State, route: Route): (res: (State, Option<Route>))
    ensures IsLiveRoute(route) ==> res.1 == Some(route) && res.0 == st
    ensures !IsLiveRoute(route) ==> res.1.None? && res.0 == st.(selectedRoute := Some(route))
  {
    if IsLiveRoute(route) then (st, Some(route)) else (st.(selectedRoute := Some(route)), None)
  }

  /** `selectedRoute?.path?.length` is truthy. */
  function HasPoints(selected: Option<Route>): (b: bool)
    ensures b ==> selected.Some? && selected.value.path.Some? && |selected.value.path.value| >= 1
    ensures !b ==> selected.None? || selected.value.path.None? || selected.value.path.value == []
  {
    selected.Some? && selected.value.path.Some? && |selected.value.path.value| > 0
  }

  /** `getInitialRegion`: the first recorded point, else the live location, else the default centre. */
  function GetInitialRegion(selected: Option<Route>, liveLocation: Option<LatLng>, d: Deltas): (r: Region)
    ensures r.latitudeDelta == d.latitudeDelta && r.longitudeDelta == d.longitudeDelta
    ensures HasPoints(selected) ==>
      LatLng(r.latitude, r.longitude) == Position(selected.value.path.value[0])
    ensures !HasPoints(selected) && liveLocation.Some? ==>
      LatLng(r.latitude, r.longitude) == liveLocation.value
    ensures !HasPoints(selected) && liveLocation.None? ==>
      r.latitude == DefaultLatitude && r.longitude == DefaultLongitude
  {
    if HasPoints(selected) then
      var first := selected.value.path.value[0];
      RegionAt(first.latitude, first.longitude, d)
    else if liveLocation.Some? then
      RegionAt(liveLocation.value.latitude, liveLocation.value.longitude, d)
    else
      DefaultRegion(d)
  }

  /** While the selected route has points, the live location does not move the initial region. */
  lemma InitialRegionIgnoresLiveWhenRouteHasPoints(selected: Option<Route>, a: Option<LatLng>, b: Option<LatLng>, d: Deltas)
    requires HasPoints(selected)
    ensures GetInitialRegion(selected, a, d) == GetInitialRegion(selected, b, d)
  {
  }

  /** The points of `path` not at `x`, in their order. */
  function Without(path: seq<Coord>, x: LatLng): (r: seq<Coord>)
    ensures |r| <= |path|
    ensures forall i :: 0 <= i < |r| ==> Position(r[i]) != x
    decreases |path|
  {
    if path == [] then []
    else (if Position(path[0]) == x then [] else [path[0]]) + Without(path[1..], x)
  }

  /** `Without` removes exactly the points at `x`, each other point keeping its multiplicity. */
  lemma {:induction false} WithoutMultiset(path: seq<Coord>, x: LatLng, c: Coord)
    ensures multiset(Without(path, x))[c] == if Position(c) == x then 0 else multiset(path)[c]
    decreases |path|
  {
    if path != [] {
      WithoutMultiset(path[1..], x, c);
      assert path == [path[0]] + path[1..];
    }
  }

  /** `Without` distributes over concatenation, so relative order is kept. */
  lemma {:induction false} WithoutAppend(a: seq<Coord>, b: seq<Coord>, x: LatLng)
    ensures Without(a + b, x) == Without(a, x) + Without(b, x)
    decreases |a|
  {
    if a == [] {
      assert a + b == b;
    } else {
      WithoutAppend(a[1..], b, x);
      WithoutCons(a[0], a[1..] + b, x);
      WithoutCons(a[0], a[1..], x);
      assert [a[0]] + (a[1..] + b) == a + b;
      assert [a[0]] + a[1..] == a;
    }
  }

  /** One step of the filter: the head is kept unless it is at `x`. */
  lemma WithoutCons(c: Coord, rest: seq<Coord>, x: LatLng)
    ensures Without([c] + rest, x) == (if Position(c) == x then [] else [c]) + Without(rest, x)
  {
    assert ([c] + rest)[0] == c && ([c] + rest)[1..] == rest;
  }

  /** `Without` keeps every point when none is at `x`. */
  lemma {:induction false} WithoutNoMatch(path: seq<Coord>, x: LatLng)
    requires forall i :: 0 <= i < |path| ==> Position(path[i]) != x
    ensures Without(path, x) == path
    decreases |path|
  {
    if path != [] {
      WithoutNoMatch(path[1..], x);
    }
  }

  /**
   * `polylineCoordinates`: nothing without a selected path; otherwise the
   * path's positions with the points at the live location filtered out, and
   * the live location appended last when the route is active.
   */
  function PolylineCoordinates(selected: Option<Route>, liveLocation: Option<LatLng>): (r: seq<LatLng>)
    ensures selected.None? || selected.value.path.None? ==> r == []
    ensures selected.Some? && selected.value.path.Some? ==> |r| <= |selected.value.path.value| + 1
    ensures liveLocation.None? && selected.Some? && selected.value.path.Some? ==> |r| == |selected.value.path.value|
  {
    if selected.None? || selected.value.path.None? then []
    else
      var path := selected.value.path.value;
      var filtered := if liveLocation.None? then Positions(path) else Positions(Without(path, liveLocation.value));
      if selected.value.isActive == Some(true) && liveLocation.Some? then filtered + [liveLocation.value]
      else filtered
  }

  /** With no selected path the polyline is empty, active route or not. */
  lemma PolylineEmptyWithoutPath(selected: Option<Route>, liveLocation: Option<LatLng>)
    requires selected.None? || selected.value.path.None?
    ensures PolylineCoordinates(selected, liveLocation) == []
  {
  }

  /** With no live location the polyline is the path's positions, in order. */
  lemma PolylineWithoutLiveIsPath(route: Route)
    requires route.path.Some?
    ensures var r := PolylineCoordinates(Some(route), None);
      |r| == |route.path.value| && forall i :: 0 <= i < |r| ==> r[i] == Position(route.path.value[i])
  {
  }

  /**
   * With a live location the polyline is the filtered path, then the live
   * location when the route is active; so it is at most one point longer
   * than the path.
   */
  lemma PolylineWithLiveShape(route: Route, live: LatLng)
    requires route.path.Some?
    ensures var r, f := PolylineCoordinates(Some(route), Some(live)), Positions(Without(route.path.value, live));
      && r == (if route.isActive == Some(true) then f + [live] else f)
      && |r| <= |route.path.value| + 1
  {
  }

  /** The live location is in the polyline exactly when the route is active, and then it is the last point. */
  lemma PolylineHoldsLiveIffActive(route: Route, live: LatLng)
    requires route.path.Some?
    ensures var r := PolylineCoordinates(Some(route), Some(live));
      && (live in r <==> route.isActive == Some(true))
      && (route.isActive == Some(true) ==> r[|r| - 1] == live)
  {
    PolylineWithLiveShape(route, live);
    assert live !in Positions(Without(route.path.value, live));
  }

  /** Every polyline point other than the live location is a recorded point of the path. */
  lemma PolylinePointsAreRecorded(route: Route, live: LatLng, i: nat)
    requires route.path.Some?
    requires i < |PolylineCoordinates(Some(route), Some(live))|
    requires PolylineCoordinates(Some(route), Some(live))[i] != live
    ensures exists j :: 0 <= j < |route.path.value| && PolylineCoordinates(Some(route), Some(live))[i] == Position(route.path.value[j])
  {
    var path := route.path.value;
    var kept := Without(path, live);
    PolylineWithLiveShape(route, live);
    assert i < |kept|;
    WithoutMultiset(path, live, kept[i]);
    assert kept[i] in multiset(path);
    var j :| 0 <= j < |path| && path[j] == kept[i];
  }
}
