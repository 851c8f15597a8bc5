/**
 * The zustand path store: the list of points drawn for the live route.
 * Every action replaces `path` by a new array.
 */
module PathStoreModel {
  import opened Geo

  class PathStore {
    var path: seq<LatLng>

    /** `create(...)`: the path starts empty. */
    constructor ()
      ensures path == []
    {
      path := [];
    }

    /** `setPath`: the path becomes exactly `newPath`, whatever it was. */
    method SetPath(newPath: seq<LatLng>)
      modifies this
      ensures path == newPath
    {
      path := newPath;
    }

    /** `addPoint`: `[...state.path, point]`. */
    method AddPoint(point: LatLng)
      modifies this
      ensures path == old(path) + [point]
      ensures |path| == |old(path)| + 1 && path[..|old(path)|] == old(path) && path[|path| - 1] == point
    {
      path := path + [point];
    }

    /** `clearPath`: the path becomes empty; clearing an empty path changes nothing. */
    method ClearPath()
      modifies this
      ensures path == []
    {
      path := [];
    }
  }

  /** `clearPath` followed by `addPoint(p1) ... addPoint(pn)` leaves exactly `[p1, ..., pn]`. */
  method RecordFromScratch(store: PathStore, points: seq<LatLng>)
    modifies store
    ensures store.path == points
  {
    store.ClearPath();
    for i := 0 to |points|
      invariant store.path == points[..i]
    {
      store.AddPoint(points[i]);
      assert points[..i + 1] == points[..i] + [points[i]];
    }
    assert points[..|points|] == points;
  }
}
