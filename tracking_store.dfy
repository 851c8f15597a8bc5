/**
 * The zustand tracking store: four fields that UI code reads, overwritten by
 * setter actions. The location tracker mirrors its session into it.
 */
module TrackingStoreModel {
  import opened Wrappers

  /** A geolocation watch id (`number`). */
  type WatchHandle = int

  class TrackingStore {
    var isTracking: bool
    var routeDocId: Option<string>
    var autoRouteName: string
    var watchId: Option<WatchHandle>

    /** The state `clearTracking` restores, which is also the initial state. */
    predicate IsCleared()
      reads this
    {
      !isTracking && routeDocId.None? && autoRouteName == "" && watchId.None?
    }

    /** `create(...)`: the store starts cleared. */
    constructor ()
      ensures IsCleared()
    {
      isTracking := false;
      routeDocId := None;
      autoRouteName := "";
      watchId := None;
    }

    /** `setTracking`: only `isTracking` changes. */
    method SetTracking(b: bool)
      modifies this
      ensures isTracking == b
      ensures routeDocId == old(routeDocId) && autoRouteName == old(autoRouteName) && watchId == old(watchId)
    {
      isTracking := b;
    }

    /** `setRouteInfo`: only `routeDocId` and `autoRouteName` change. */
    method SetRouteInfo(id: Option<string>, name: string)
      modifies this
      ensures routeDocId == id && autoRouteName == name
      ensures isTracking == old(isTracking) && watchId == old(watchId)
    {
      routeDocId := id;
      autoRouteName := name;
    }

    /** `setWatchId`: only `watchId` changes. */
    method SetWatchId(w: Option<WatchHandle>)
      modifies this
      ensures watchId == w
      ensures isTracking == old(isTracking) && routeDocId == old(routeDocId) && autoRouteName == old(autoRouteName)
    {
      watchId := w;
    }

    /**
     * `clearTracking`: every field returns to its initial value. The new state
     * does not depend on the old one, so clearing twice equals clearing once.
     */
    method ClearTracking()
      modifies this
      ensures IsCleared()
    {
      isTracking := false;
      routeDocId := None;
      autoRouteName := "";
      watchId := None;
    }
  }

  /** Two clears in a row leave the same state as one. */
  method ClearTwice(s: TrackingStore)
    modifies s
    ensures s.IsCleared()
  {
    s.ClearTracking();
    ghost var once := (s.isTracking, s.routeDocId, s.autoRouteName, s.watchId);
    s.ClearTracking();
    assert once == (s.isTracking, s.routeDocId, s.autoRouteName, s.watchId);
  }
}
