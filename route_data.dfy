/**
 * Route documents as the screens read them from the `routes` sub-collection,
 * the list every route screen builds from a query snapshot, and the
 * coordinates the detail screens draw for a route.
 */
module RouteData {
  import opened Wrappers
  import opened Geo
  import Sorting

  /** The fields of a route document. Any of them may be absent in a snapshot. */
  datatype DocData = DocData(
    name: Option<string>,
    startedAt: Option<int>,  // `startedAt.toDate().getTime()`; absent while the server timestamp is pending
    path: Option<seq<Coord>>,
    isActive: Option<bool>)

  /** One document of a query snapshot: its id and its data. */
  datatype RouteDoc = RouteDoc(id: string, data: DocData)

  /** The screens' `Route`: the document id next to the document's fields. */
  datatype Route = Route(
    id: string,
    name: Option<string>,
    startedAt: Option<int>,
    path: Option<seq<Coord>>,
    isActive: Option<bool>)

  /** `{id: doc.id, ...doc.data()}`, and equally the explicit five-field copy. */
  function FromDoc(doc: RouteDoc): (r: Route)
    ensures r.id == doc.id && r.name == doc.data.name && r.startedAt == doc.data.startedAt
    ensures r.path == doc.data.path && r.isActive == doc.data.isActive
  {
    Route(doc.id, doc.data.name, doc.data.startedAt, doc.data.path, doc.data.isActive)
  }

  /** `FromDoc` applied to every document, in snapshot order. */
  function FromDocs(docs: seq<RouteDoc>): (rs: seq<Route>)
    ensures |rs| == |docs|
    ensures forall i :: 0 <= i < |docs| ==> rs[i] == FromDoc(docs[i])
    decreases |docs|
  {
    if docs == [] then [] else FromDocs(docs[..|docs| - 1]) + [FromDoc(docs[|docs| - 1])]
  }

  /** `route?.path?.map(p => ({latitude, longitude})) || []`: the path's positions, in order, or none. */
  function RouteCoordinates(route: Option<Route>): (r: seq<LatLng>)
    ensures route.None? || route.value.path.None? ==> r == []
    ensures route.Some? && route.value.path.Some? ==>
      |r| == |route.value.path.value| && forall i :: 0 <= i < |r| ==> r[i] == Position(route.value.path.value[i])
  {
    if route.Some? && route.value.path.Some? then Positions(route.value.path.value) else []
  }

  /** `a.startedAt?.toDate()?.getTime() || 0`: the sort key, 0 when the timestamp is missing. */
  function StartTime(r: Route): (t: int)
    ensures r.startedAt.None? ==> t == 0
    ensures r.startedAt.Some? ==> t == r.startedAt.value
  {
    r.startedAt.GetOr(0)
  }

  /** The route list sorted by `startedAt`, newest first. */
  function ByStartDesc(rs: seq<Route>): seq<Route> {
    Sorting.SortDesc(rs, StartTime)
  }

  /**
   * The body shared by the `handleSnapshot` callbacks of the route list and
   * the user-routes screens: push one `Route` per document inside `forEach`,
   * then sort a copy newest first.
   */
  method CollectSorted(docs: seq<RouteDoc>) returns (sorted: seq<Route>)
    ensures sorted == ByStartDesc(FromDocs(docs))
    ensures Sorting.Descending(sorted, StartTime)
    ensures multiset(sorted) == multiset(FromDocs(docs))
    ensures forall k :: Sorting.WithKey(sorted, StartTime, k) == Sorting.WithKey(FromDocs(docs), StartTime, k)
  {
    var routeList: seq<Route> := [];
    for i := 0 to |docs|
      invariant routeList == FromDocs(docs[..i])
    {
      assert docs[..i + 1][..i] == docs[..i];
      routeList := routeList + [FromDoc(docs[i])];
    }
    assert docs[..|docs|] == docs;
    sorted := ByStartDesc(routeList);
    Sorting.SortDescIsDescending(routeList, StartTime);
    Sorting.SortDescIsPermutation(routeList, StartTime);
    forall k ensures Sorting.WithKey(sorted, StartTime, k) == Sorting.WithKey(routeList, StartTime, k) {
      Sorting.SortDescIsStable(routeList, StartTime, k);
    }
  }
}
