/**
 * The live-tracking session: a process-wide state machine that starts a
 * route, fans each position sample out to local subscribers, appends it to
 * the route's remote record, and stops.
 *
 * Asynchronous I/O is replaced by sequential steps. The outcome of each
 * remote call (whether it throws) and every value the platform supplies
 * (the new document id, the watch handle, server and client clocks) is a
 * parameter. A ghost log `io` records, in order, every call the session
 * makes to the document store and to the location sensor.
 */
module LocationTrackerModel {
  import opened Wrappers
  import opened Geo
  import SeqSet
  import Decimal
  import opened TrackingStoreModel

  /** The identity of a subscriber callback (callbacks are compared by reference). */
  type Callback = nat

  /** `RouteInfo`: what start returns and `getCurrentRouteInfo` reads. */
  datatype RouteInfo = RouteInfo(routeDocId: Option<string>, autoRouteName: string)

  /** A document of a user's `routes` sub-collection as the tracker writes it. */
  datatype RouteRecord = RouteRecord(
    name: string,
    path: seq<Coord>,
    startedAt: int,
    isActive: bool,
    lastUpdated: Option<int>)

  /** One invocation of a subscriber with a sample. */
  datatype Delivery = Delivery(callback: Callback, coord: Coord)

  /** A call to a collaborator outside the process. */
  datatype IoCall =
    | CountRoutes(user: string)
    | CreateRoute(user: string, routeId: string)
    | WatchPosition(handle: WatchHandle)
    | AppendPoint(user: string, routeId: string, coord: Coord)
    | ClearWatch(handle: WatchHandle)
    | MarkInactive(user: string, routeId: string)

  /** JavaScript truthiness of `string | null | undefined`: present and not empty. */
  predicate Truthy(s: Option<string>) {
    s.Some? && s.value != ""
  }

  const RoutePrefix: string := "Route "

  /** The display name of a new route: `Route ${existing + 1}`. */
  function RouteName(existing: nat): (name: string)
    ensures |name| > |RoutePrefix| && name[..|RoutePrefix|] == RoutePrefix
    ensures forall i :: |RoutePrefix| <= i < |name| ==> Decimal.IsDigit(name[i])
    ensures name[|RoutePrefix|] != '0'
    ensures Decimal.Parse(name[|RoutePrefix|..]) == existing + 1
  {
    var digits := Decimal.Render(existing + 1);
    Decimal.ParseRender(existing + 1);
    assert (RoutePrefix + digits)[|RoutePrefix|..] == digits;
    RoutePrefix + digits
  }

  /** Different counts of existing routes give different names. */
  lemma RouteNameInjective(m: nat, n: nat)
    requires RouteName(m) == RouteName(n)
    ensures m == n
  {
  }

  /** A user with no routes gets "Route 1"; one with four gets "Route 5". */
  lemma RouteNameExamples()
    ensures RouteName(0) == "Route 1"
    ensures RouteName(4) == "Route 5"
  {
  }

  /** The user's routes in a snapshot of the whole collection. */
  function RoutesOf(routes: map<string, map<string, RouteRecord>>, user: string): map<string, RouteRecord> {
    if user in routes then routes[user] else map[]
  }

  /** The collection after `update({path: arrayUnion(c), lastUpdated: t})`; a missing document is not updated. */
  function WithPoint(routes: map<string, map<string, RouteRecord>>, user: string, id: string, c: Coord, t: int)
    : (r: map<string, map<string, RouteRecord>>)
    ensures r.Keys == routes.Keys
    ensures forall u :: u in routes ==> r[u].Keys == routes[u].Keys
    ensures forall u, d :: u in routes && d in routes[u] && (u, d) != (user, id) ==> r[u][d] == routes[u][d]
  {
    if user in routes && id in routes[user] then
      var rec := routes[user][id];
      routes[user := routes[user][id := rec.(path := SeqSet.Add(rec.path, c), lastUpdated := Some(t))]]
    else routes
  }

  /** The collection after `update({isActive: false})`; a missing document is not updated. */
  function Deactivated(routes: map<string, map<string, RouteRecord>>, user: string, id: string)
    : (r: map<string, map<string, RouteRecord>>)
    ensures r.Keys == routes.Keys
    ensures forall u :: u in routes ==> r[u].Keys == routes[u].Keys
    ensures forall u, d :: u in routes && d in routes[u] && (u, d) != (user, id) ==> r[u][d] == routes[u][d]
    ensures user in routes && id in routes[user] ==> r[user][id] == routes[user][id].(isActive := false)
    ensures !(user in routes && id in routes[user]) ==> r == routes
  {
    if user in routes && id in routes[user] then
      routes[user := routes[user][id := routes[user][id].(isActive := false)]]
    else routes
  }

  /**
   * Appending a sample never removes or reorders a point: the old path is a
   * prefix of the new one, the sample is in the new one, and a path without
   * duplicates keeps none, with the sample present exactly once.
   */
  lemma AppendKeepsPath(routes: map<string, map<string, RouteRecord>>, user: string, id: string, c: Coord, t: int)
    requires user in routes && id in routes[user]
    ensures var p, q := routes[user][id].path, WithPoint(routes, user, id, c, t)[user][id].path;
      && |p| <= |q| <= |p| + 1
      && q[..|p|] == p
      && c in q
      && (c in p ==> q == p)
      && (SeqSet.Distinct(p) ==> SeqSet.Distinct(q) && multiset(q)[c] == 1)
  {
    var p := routes[user][id].path;
    if SeqSet.Distinct(p) {
      SeqSet.AddKeepsDistinct(p, c);
      SeqSet.AddOccursOnce(p, c);
    }
  }

  /** Appending refreshes `lastUpdated` and leaves the name, start time and `isActive` alone. */
  lemma AppendKeepsHeader(routes: map<string, map<string, RouteRecord>>, user: string, id: string, c: Coord, t: int)
    requires user in routes && id in routes[user]
    ensures var a, b := routes[user][id], WithPoint(routes, user, id, c, t)[user][id];
      b.name == a.name && b.startedAt == a.startedAt && b.isActive == a.isActive && b.lastUpdated == Some(t)
  {
  }

  /** Delivering the same sample twice leaves the path as delivering it once (array-union is idempotent). */
  lemma AppendIdempotent(routes: map<string, map<string, RouteRecord>>, user: string, id: string, c: Coord, t: int)
    ensures WithPoint(WithPoint(routes, user, id, c, t), user, id, c, t) == WithPoint(routes, user, id, c, t)
  {
    if user in routes && id in routes[user] {
      var a := routes[user][id];
      var once := WithPoint(routes, user, id, c, t);
      assert once[user][id] == a.(path := SeqSet.Add(a.path, c), lastUpdated := Some(t));
      SeqSet.AddIdempotent(a.path, c);
      assert once[user][id].(path := SeqSet.Add(once[user][id].path, c), lastUpdated := Some(t)) == once[user][id];
      assert once[user][id := once[user][id]] == once[user];
      assert once[user := once[user]] == once;
    }
  }

  /**
   * Creating a document under a fresh id adds exactly one route for that user
   * and none for anybody else, so the user's next route is named one higher.
   */
  lemma CreateAddsOneRoute(routes: map<string, map<string, RouteRecord>>, user: string, id: string, record: RouteRecord)
    requires id !in RoutesOf(routes, user)
    ensures var after := routes[user := RoutesOf(routes, user)[id := record]];
      && |RoutesOf(after, user)| == |RoutesOf(routes, user)| + 1
      && RouteName(|RoutesOf(after, user)|) == RouteName(|RoutesOf(routes, user)| + 1)
      && forall u :: u != user ==> RoutesOf(after, u) == RoutesOf(routes, u)
  {
    var mine := RoutesOf(routes, user);
    assert mine[id := record].Keys == mine.Keys + {id};
  }

  /** The callbacks among `s` that throw, in the order they are invoked. */
  function Failing(s: seq<Callback>, throwing: set<Callback>): (r: seq<Callback>)
    ensures |r| <= |s|
    ensures forall c :: c in r <==> c in s && c in throwing
    decreases |s|
  {
    if s == [] then []
    else Failing(s[..|s| - 1], throwing) + (if s[|s| - 1] in throwing then [s[|s| - 1]] else [])
  }

  /** The Firestore data the tracker writes: users' `routes` sub-collections. */
  class RouteCollection {
    var routes: map<string, map<string, RouteRecord>>

    /** A collection with no user documents and no routes yet. */
    constructor ()
      ensures routes == map[]
    {
      routes := map[];
    }

    /** `.collection('routes').get()` then `.size`. */
    function Size(user: string): (n: nat)
      reads this
      ensures n == |RoutesOf(routes, user)|
    {
      |RoutesOf(routes, user)|
    }

    /** `.doc(id).set(record)`: the document is created, or overwritten if the id exists. */
    method SetRoute(user: string, id: string, record: RouteRecord)
      modifies this
      ensures routes == old(routes)[user := RoutesOf(old(routes), user)[id := record]]
      ensures id !in RoutesOf(old(routes), user) ==> Size(user) == old(Size(user)) + 1
      ensures forall u :: u != user ==> Size(u) == old(Size(u))
    {
      ghost var mine := RoutesOf(routes, user);
      assert mine[id := record].Keys == mine.Keys + {id};
      routes := routes[user := RoutesOf(routes, user)[id := record]];
      assert RoutesOf(routes, user) == mine[id := record];
    }

    /** `.doc(id).update({path: arrayUnion(c), lastUpdated})`. */
    method AppendPoint(user: string, id: string, c: Coord, t: int)
      modifies this
      ensures routes == WithPoint(old(routes), user, id, c, t)
    {
      routes := WithPoint(routes, user, id, c, t);
    }

    /** `.doc(id).update({isActive: false})`. */
    method MarkInactive(user: string, id: string)
      modifies this
      ensures routes == Deactivated(old(routes), user, id)
    {
      routes := Deactivated(routes, user, id);
    }
  }

  /** The module-level variables of the tracker and the user the watch callback closed over, for stating what did not change. */
  datatype Session = Session(
    watchId: Option<WatchHandle>,
    routeDocId: Option<string>,
    autoRouteName: string,
    isTracking: bool,
    sessionUser: string)

  class Tracker {
    var watchId: Option<WatchHandle>
    var routeDocId: Option<string>
    var autoRouteName: string
    var isTracking: bool
    /** `locationSubscribers`, in insertion order. */
    var subscribers: seq<Callback>
    /** The user the watch callback closed over when the session started. */
    var sessionUser: string
    ghost var io: seq<IoCall>
    const store: TrackingStore
    const db: RouteCollection

    /** A session is either fully set up or fully absent; the subscriber set has no duplicates. */
    ghost predicate Valid()
      reads this
    {
      && (isTracking <==> watchId.Some?)
      && (isTracking <==> routeDocId.Some?)
      && SeqSet.Distinct(subscribers)
    }

    ghost function State(): Session
      reads this
    {
      Session(watchId, routeDocId, autoRouteName, isTracking, sessionUser)
    }

    /** Process start: no session, no subscribers, nothing called yet. */
    constructor (store: TrackingStore, db: RouteCollection)
      ensures Valid()
      ensures State() == Session(None, None, "", false, "") && subscribers == [] && io == []
      ensures this.store == store && this.db == db
    {
      watchId := None;
      routeDocId := None;
      autoRouteName := "";
      isTracking := false;
      subscribers := [];
      sessionUser := "";
      io := [];
      this.store := store;
      this.db := db;
    }

    /** `isCurrentlyTracking`: true exactly while a route and a watch exist. */
    function IsCurrentlyTracking(): (r: bool)
      reads this
      requires Valid()
      ensures r <==> routeDocId.Some?
      ensures r <==> watchId.Some?
    {
      isTracking
    }

    /** `getCurrentRouteInfo`: the route id is present exactly while tracking. */
    function GetCurrentRouteInfo(): (r: RouteInfo)
      reads this
      requires Valid()
      ensures r.routeDocId.Some? <==> isTracking
      ensures r.routeDocId == routeDocId && r.autoRouteName == autoRouteName
    {
      RouteInfo(routeDocId, autoRouteName)
    }

    /** `removeSubscriber`: only the given callback leaves the set. */
    method RemoveSubscriber(callback: Callback)
      requires Valid()
      modifies this`subscribers
      ensures Valid()
      ensures subscribers == SeqSet.Remove(old(subscribers), callback)
      ensures callback !in subscribers
      ensures forall c :: c in subscribers <==> c in old(subscribers) && c != callback
    {
      SeqSet.RemoveKeepsDistinct(subscribers, callback);
      subscribers := SeqSet.Remove(subscribers, callback);
    }

    /**
     * `notifySubscribers`: every subscriber, in set order, is invoked once with
     * the same sample. A callback that throws is caught and reported, and does
     * not stop the later ones: what is delivered does not depend on `throwing`.
     */
    method NotifySubscribers(coord: Coord, throwing: set<Callback>) returns (deliveries: seq<Delivery>, warnings: seq<Callback>)
      ensures |deliveries| == |subscribers|
      ensures forall i :: 0 <= i < |subscribers| ==> deliveries[i] == Delivery(subscribers[i], coord)
      ensures warnings == Failing(subscribers, throwing)
    {
      deliveries, warnings := [], [];
      for i := 0 to |subscribers|
        invariant |deliveries| == i
        invariant forall k :: 0 <= k < i ==> deliveries[k] == Delivery(subscribers[k], coord)
        invariant warnings == Failing(subscribers[..i], throwing)
      {
        var cb := subscribers[i];
        deliveries := deliveries + [Delivery(cb, coord)];
        assert subscribers[..i + 1][..i] == subscribers[..i];
        if cb in throwing {
          warnings := warnings + [cb];
        }
      }
      assert subscribers[..|subscribers|] == subscribers;
    }

    /**
     * `startTracking`. The callback, if given, joins the subscriber set first,
     * whatever happens next. Then, in order: an active session is returned as
     * it is; a missing email gives null; the route count and the new document
     * are requested (either may throw, giving null); the watch starts, the
     * store is updated and the session becomes active.
     */
    method StartTracking(
      onLocationUpdate: Option<Callback>,
      user: Option<string>,     // `auth().currentUser?.email`
      countOk: bool,            // the count query succeeds
      createOk: bool,           // the `set` of the new document succeeds
      newId: string,            // the id `doc()` generates
      serverTime: int,          // `serverTimestamp()` as the server resolves it
      handle: WatchHandle)      // what `watchPosition` returns
      returns (r: Option<RouteInfo>)
      requires Valid()
      modifies this, store, db
      ensures Valid()
      ensures subscribers == if onLocationUpdate.Some? then SeqSet.Add(old(subscribers), onLocationUpdate.value) else old(subscribers)
      // already tracking: the current session is returned and nothing else happens
      ensures old(isTracking) ==>
        && r == Some(RouteInfo(old(routeDocId), old(autoRouteName)))
        && State() == old(State()) && io == old(io) && unchanged(db) && unchanged(store)
      // no email: null, and no remote call
      ensures !old(isTracking) && !Truthy(user) ==>
        && r.None? && State() == old(State()) && io == old(io) && unchanged(db) && unchanged(store)
      // the count throws: null, and only the count was attempted
      ensures !old(isTracking) && Truthy(user) && !countOk ==>
        && r.None? && State() == old(State()) && io == old(io) + [CountRoutes(user.value)]
        && unchanged(db) && unchanged(store)
      // the create throws: null and not tracking, but the new name is already stored
      ensures !old(isTracking) && Truthy(user) && countOk && !createOk ==>
        && r.None? && !isTracking && watchId == old(watchId) && routeDocId == old(routeDocId) && sessionUser == old(sessionUser)
        && autoRouteName == RouteName(old(db.Size(user.value)))
        && io == old(io) + [CountRoutes(user.value), CreateRoute(user.value, newId)]
        && unchanged(db) && unchanged(store)
      // success: a fresh active record named after the count, and an active session that matches it
      ensures !old(isTracking) && Truthy(user) && countOk && createOk ==>
        && isTracking && routeDocId == Some(newId) && watchId == Some(handle) && sessionUser == user.value
        && autoRouteName == RouteName(old(db.Size(user.value)))
        && r == Some(GetCurrentRouteInfo())
        && db.routes == old(db.routes)[user.value := RoutesOf(old(db.routes), user.value)[newId := RouteRecord(autoRouteName, [], serverTime, true, None)]]
        && io == old(io) + [CountRoutes(user.value), CreateRoute(user.value, newId), WatchPosition(handle)]
        && store.isTracking && store.routeDocId == Some(newId) && store.autoRouteName == autoRouteName
        && store.watchId == Some(handle)
    {
      if onLocationUpdate.Some? {
        SeqSet.AddKeepsDistinct(subscribers, onLocationUpdate.value);
        subscribers := SeqSet.Add(subscribers, onLocationUpdate.value);
      }
      if isTracking {
        return Some(RouteInfo(routeDocId, autoRouteName));
      }
      if !Truthy(user) {
        return None;
      }
      r := OpenRoute(user.value, countOk, createOk, newId, serverTime, handle);
    }

    /** The remote part of `startTracking` for a signed-in user and no active session. */
    method OpenRoute(email: string, countOk: bool, createOk: bool, newId: string, serverTime: int, handle: WatchHandle)
      returns (r: Option<RouteInfo>)
      requires Valid() && !isTracking
      modifies this, store, db
      ensures Valid() && subscribers == old(subscribers)
      ensures !countOk ==>
        && r.None? && State() == old(State()) && io == old(io) + [CountRoutes(email)]
        && unchanged(db) && unchanged(store)
      ensures countOk && !createOk ==>
        && r.None? && !isTracking && watchId == old(watchId) && routeDocId == old(routeDocId) && sessionUser == old(sessionUser)
        && autoRouteName == RouteName(old(db.Size(email)))
        && io == old(io) + [CountRoutes(email), CreateRoute(email, newId)]
        && unchanged(db) && unchanged(store)
      ensures countOk && createOk ==>
        && isTracking && routeDocId == Some(newId) && watchId == Some(handle) && sessionUser == email
        && autoRouteName == RouteName(old(db.Size(email)))
        && r == Some(RouteInfo(routeDocId, autoRouteName))
        && db.routes == old(db.routes)[email := RoutesOf(old(db.routes), email)[newId := RouteRecord(autoRouteName, [], serverTime, true, None)]]
        && io == old(io) + [CountRoutes(email), CreateRoute(email, newId), WatchPosition(handle)]
        && store.isTracking && store.routeDocId == Some(newId) && store.autoRouteName == autoRouteName
        && store.watchId == Some(handle)
    {
      io := io + [CountRoutes(email)];
      if !countOk {
        return None;
      }
      var name := RouteName(db.Size(email));
      autoRouteName := name;
      io := io + [CreateRoute(email, newId)];
      if !createOk {
        return None;
      }
      r := Activate(email, name, newId, serverTime, handle);
    }

    /** The successful tail of `startTracking`: create the record, start the watch, fill the store, go active. */
    method Activate(email: string, name: string, newId: string, serverTime: int, handle: WatchHandle)
      returns (r: Option<RouteInfo>)
      requires Valid() && !isTracking
      modifies this, store, db
      ensures Valid() && subscribers == old(subscribers)
      ensures isTracking && routeDocId == Some(newId) && watchId == Some(handle) && sessionUser == email
      ensures autoRouteName == name && r == Some(RouteInfo(routeDocId, autoRouteName))
      ensures db.routes == old(db.routes)[email := RoutesOf(old(db.routes), email)[newId := RouteRecord(name, [], serverTime, true, None)]]
      ensures io == old(io) + [WatchPosition(handle)]
      ensures store.isTracking && store.routeDocId == Some(newId) && store.autoRouteName == name && store.watchId == Some(handle)
    {
      db.SetRoute(email, newId, RouteRecord(name, [], serverTime, true, None));
      routeDocId := Some(newId);
      autoRouteName := name;
      io := io + [WatchPosition(handle)];
      watchId := Some(handle);
      sessionUser := email;
      store.SetWatchId(watchId);
      store.SetTracking(true);
      store.SetRouteInfo(routeDocId, autoRouteName);
      isTracking := true;
      r := Some(RouteInfo(routeDocId, autoRouteName));
    }

    /**
     * The watch callback for one position sample: build the `Coord`, notify
     * the subscribers, then append the sample to the route's path with
     * array-union. The append is not awaited by the sensor and may fail
     * (`writeOk` false), in which case the sample is lost remotely.
     */
    method OnSample(
      latitude: real,
      longitude: real,
      now: int,                 // `Timestamp.now()`, the client clock
      throwing: set<Callback>,  // the subscribers that throw on this sample
      writeOk: bool,            // the update reaches the server
      serverTime: int)          // `serverTimestamp()` for `lastUpdated`
      returns (deliveries: seq<Delivery>, warnings: seq<Callback>)
      requires Valid() && isTracking
      modifies this`io, db
      ensures Valid() && State() == old(State()) && subscribers == old(subscribers)
      ensures |deliveries| == |subscribers|
      ensures forall i :: 0 <= i < |subscribers| ==> deliveries[i] == Delivery(subscribers[i], Coord(latitude, longitude, now))
      ensures warnings == Failing(subscribers, throwing)
      ensures io == old(io) + [AppendPoint(sessionUser, routeDocId.value, Coord(latitude, longitude, now))]
      ensures db.routes == if writeOk then WithPoint(old(db.routes), sessionUser, routeDocId.value, Coord(latitude, longitude, now), serverTime)
                           else old(db.routes)
    {
      var coord := Coord(latitude, longitude, now);
      deliveries, warnings := NotifySubscribers(coord, throwing);
      io := io + [AppendPoint(sessionUser, routeDocId.value, coord)];
      if writeOk {
        db.AppendPoint(sessionUser, routeDocId.value, coord, serverTime);
      }
    }

    /**
     * `stopTracking`, gated on the watch id. Without a watch nothing happens,
     * and the subscribers stay registered. With one, the watch is cleared,
     * the route is marked inactive when both a route id and an email are
     * present (a failure of that write is swallowed), and the store, the
     * session and the subscriber set are cleared regardless.
     */
    method StopTracking(
      user: Option<string>,   // `auth().currentUser?.email` at the time of the stop
      updateOk: bool)         // the `isActive: false` update reaches the server
      requires Valid()
      modifies this, store, db
      ensures Valid()
      ensures old(watchId).None? ==>
        && State() == old(State()) && subscribers == old(subscribers) && io == old(io)
        && unchanged(db) && unchanged(store)
      ensures old(watchId).Some? ==>
        && State() == Session(None, None, "", false, old(sessionUser)) && subscribers == [] && store.IsCleared()
        && io == old(io) + [ClearWatch(old(watchId).value)]
                 + (if Truthy(old(routeDocId)) && Truthy(user) then [MarkInactive(user.value, old(routeDocId).value)] else [])
        && db.routes == if Truthy(old(routeDocId)) && Truthy(user) && updateOk
                        then Deactivated(old(db.routes), user.value, old(routeDocId).value)
                        else old(db.routes)
    {
      if watchId.Some? {
        EndSession(user, updateOk);
      }
    }

    /** The body of `stopTracking` once a watch is known to exist. */
    method EndSession(user: Option<string>, updateOk: bool)
      requires Valid() && watchId.Some?
      modifies this, store, db
      ensures Valid()
      ensures State() == Session(None, None, "", false, old(sessionUser)) && subscribers == [] && store.IsCleared()
      ensures io == old(io) + [ClearWatch(old(watchId).value)]
                    + (if Truthy(old(routeDocId)) && Truthy(user) then [MarkInactive(user.value, old(routeDocId).value)] else [])
      ensures db.routes == if Truthy(old(routeDocId)) && Truthy(user) && updateOk
                           then Deactivated(old(db.routes), user.value, old(routeDocId).value)
                           else old(db.routes)
    {
      io := io + [ClearWatch(watchId.value)];
      watchId := None;
      if Truthy(routeDocId) && Truthy(user) {
        io := io + [MarkInactive(user.value, routeDocId.value)];
        if updateOk {
          db.MarkInactive(user.value, routeDocId.value);
        }
      }
      store.ClearTracking();
      routeDocId := None;
      autoRouteName := "";
      isTracking := false;
      subscribers := [];
    }
  }

  /**
   * Starting twice without a stop returns the same route both times and
   * creates one record: the second call finds the session active.
   */
  method StartTwice(t: Tracker, user: Option<string>, newId: string, otherId: string, serverTime: int,
                    handle: WatchHandle, otherHandle: WatchHandle)
    returns (first: Option<RouteInfo>, second: Option<RouteInfo>)
    requires t.Valid() && !t.isTracking && Truthy(user)
    modifies t, t.store, t.db
    ensures t.Valid() && first.Some? && second == first && t.isTracking && t.watchId == Some(handle)
    ensures t.db.routes == old(t.db.routes)[user.value := RoutesOf(old(t.db.routes), user.value)[newId := RouteRecord(RouteName(old(t.db.Size(user.value))), [], serverTime, true, None)]]
  {
    first := t.StartTracking(None, user, true, true, newId, serverTime, handle);
    second := t.StartTracking(None, user, true, true, otherId, serverTime, otherHandle);
  }

  /**
   * After any stop the tracker reports no route id. A stop with no session
   * makes no call, and a second stop in a row makes none either: two stops
   * make exactly the calls of the first.
   */
  method StopTwice(t: Tracker, user: Option<string>, updateOk: bool)
    requires t.Valid()
    modifies t, t.store, t.db
    ensures t.Valid() && !t.IsCurrentlyTracking() && t.GetCurrentRouteInfo().routeDocId.None?
    ensures old(t.watchId).Some? ==> t.GetCurrentRouteInfo() == RouteInfo(None, "") && t.subscribers == []
    ensures old(t.watchId).None? ==> t.io == old(t.io)
    ensures old(t.watchId).Some? ==>
      t.io == old(t.io) + [ClearWatch(old(t.watchId).value)]
              + (if Truthy(old(t.routeDocId)) && Truthy(user) then [MarkInactive(user.value, old(t.routeDocId).value)] else [])
  {
    t.StopTracking(user, updateOk);
    ghost var between := t.io;
    t.StopTracking(user, updateOk);
    assert t.io == between;
  }

  /**
   * A start whose create call fails has already stored the new name, and a
   * stop that finds no watch keeps it: the tracker then reports no route id
   * together with that stale name.
   */
  method StaleNameAfterFailedCreate(t: Tracker, user: string, newId: string, serverTime: int,
                                    handle: WatchHandle, updateOk: bool)
    requires t.Valid() && !t.isTracking && user != ""
    modifies t, t.store, t.db
    ensures t.Valid() && !t.IsCurrentlyTracking()
    ensures t.GetCurrentRouteInfo() == RouteInfo(None, RouteName(old(t.db.Size(user))))
    ensures t.GetCurrentRouteInfo().autoRouteName != ""
  {
    var r := t.StartTracking(None, Some(user), true, false, newId, serverTime, handle);
    t.StopTracking(Some(user), updateOk);
  }
}
