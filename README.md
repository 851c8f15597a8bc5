# RNMaps live tracking, modelled in Dafny

RNMaps is a React Native app that records walking routes. A signed-in user
starts tracking; the location tracker names a new route "Route N", creates
its document under the user's `routes` collection, and watches the
device's position. Each sample goes to the local subscribers (the map
screens) and is appended to the route's path with array-union. Stopping
clears the watch, marks the route inactive and resets the session. Two
zustand stores mirror the session and the path drawn on the map. The
screens validate the sign-up and login forms, list a user's routes
newest first, decide which route is "live", and compute the map region
and polyline they draw.

The project models:

- the tracker's module-level session (`watchId`, `routeDocId`,
  `autoRouteName`, `isTracking`, the subscriber set, and the user the watch
  callback closes over) as the class `LocationTrackerModel.Tracker`. Its
  methods are `StartTracking`, `OnSample` (the watch callback),
  `StopTracking` and `RemoveSubscriber`, and its read-only queries are
  functions. The tracker also keeps a ghost log `io` of the calls it makes
  to the document store and the location sensor;
- the remote route collection as the class
  `LocationTrackerModel.RouteCollection` (user, then route id, then
  record);
- the tracking store and the path store as classes with the stores'
  fields and actions;
- the screens' helpers as functions over their inputs. The route-list
  build is a loop (`RouteData.CollectSorted`) proved equal to a stable
  descending sort, which is itself proved sorted, a permutation and
  stable;
- the two e-mail regular expressions as ghost predicates with their
  literal meaning, each with an executable scan proved equivalent to it.

Every value the platform produces is a parameter of the operation that
receives it: the signed-in user's e-mail, whether a remote call throws,
the generated document id, the watch handle, server and client clocks,
and which subscriber callbacks throw. The map deltas
`LATITUDE_DELTA_DEFAULT` and `LONGITUDE_DELTA_DEFAULT` come from
`src/components/constant`, which is not part of this model, so they are a
`Geo.Deltas` parameter too.

## Model

| member | source | states |
|---|---|---|
| LocationTrackerModel.Tracker.constructor | src/firebase/LocationTracker.ts:20-25 | the session starts with no watch, no route id, an empty name, not tracking, no session user, no subscribers and no calls, and the session invariant holds |
| LocationTrackerModel.Tracker.NotifySubscribers | src/firebase/LocationTracker.ts:27-35 | every subscriber is invoked once, in set order, with the same sample; the callbacks that throw are reported in order and do not stop delivery to the rest |
| LocationTrackerModel.Failing | src/firebase/LocationTracker.ts:29-33 | the warnings are exactly the subscribers that throw, and there are no more of them than subscribers |
| LocationTrackerModel.Tracker.StartTracking | src/firebase/LocationTracker.ts:37-127 | the callback is added to the set before any check; an e-mail counts only when `Truthy` (present and non-empty). While tracking, the current route info is returned and nothing else changes, the session user included. Without an e-mail it returns null, makes no remote call and leaves the session as it was. If the count throws it returns null with the session unchanged. If the create throws it returns null, still not tracking, with the same watch, route id and session user, and the name is already overwritten. On success the route is named after the existing count, a record with an empty path and `isActive` is created, the session is active with the new id and watch, the store mirrors it, and the result equals `GetCurrentRouteInfo()` |
| LocationTrackerModel.Tracker.OpenRoute | src/firebase/LocationTracker.ts:54-126 | for a signed-in user with no session, each outcome of the count and create calls gives the state and calls described for `StartTracking` |
| LocationTrackerModel.Tracker.Activate | src/firebase/LocationTracker.ts:70-122 | creates the record, logs the start of the watch, sets the store's watch id, tracking flag and route info to the new session, and activates it for the given user |
| LocationTrackerModel.Tracker.OnSample | src/firebase/LocationTracker.ts:80-99 | the session is unchanged; every subscriber gets the sample built from the position and the client clock; the sample is appended by array-union to the route the session points at, or lost when the write fails |
| LocationTrackerModel.Tracker.StopTracking | src/firebase/LocationTracker.ts:129-156 | without a watch nothing changes and no call is made. With one, the watch is cleared. The route is marked inactive only when a route id and an e-mail are both `Truthy` and the write succeeds; a failure is swallowed. The session, the subscribers and the store are reset; the session user is left as it was, with no watch left to use it |
| LocationTrackerModel.Tracker.EndSession | src/firebase/LocationTracker.ts:132-154 | with a watch: the watch is cleared, the route is marked inactive when an id and an e-mail are present and the write succeeds, and the session, subscribers and store are reset |
| LocationTrackerModel.Tracker.RemoveSubscriber | src/firebase/LocationTracker.ts:158-160 | exactly the given callback leaves the set; the others stay, in order by `SeqSet.RemoveAppend` |
| LocationTrackerModel.Tracker.IsCurrentlyTracking | src/firebase/LocationTracker.ts:162 | true exactly when a route id is held, and exactly when a watch is held |
| LocationTrackerModel.Tracker.GetCurrentRouteInfo | src/firebase/LocationTracker.ts:164-166 | the route id and name of the session; the id is present exactly while tracking |
| LocationTrackerModel.RouteName | src/firebase/LocationTracker.ts:61-62 | the name is "Route " followed by decimal digits with no leading zero whose value is the existing count plus one |
| LocationTrackerModel.RouteNameInjective | src/firebase/LocationTracker.ts:61-62 | different route counts give different names |
| LocationTrackerModel.RouteNameExamples | src/firebase/LocationTracker.ts:61-62 | no routes gives "Route 1"; four routes give "Route 5" |
| LocationTrackerModel.CreateAddsOneRoute | src/firebase/LocationTracker.ts:55-75 | creating under a fresh id adds one route for that user and none for anyone else, so the next name is one higher |
| LocationTrackerModel.WithPoint | src/firebase/LocationTracker.ts:90-98 | the update touches only the addressed document and the set of documents stays the same |
| LocationTrackerModel.AppendKeepsPath | src/firebase/LocationTracker.ts:96 | array-union keeps the old path as a prefix, adds at most one point, contains the sample, leaves a path that already has it unchanged, and keeps the path duplicate-free with the sample once |
| LocationTrackerModel.AppendKeepsHeader | src/firebase/LocationTracker.ts:95-98 | the update sets `lastUpdated` and keeps the name, start time and `isActive` |
| LocationTrackerModel.AppendIdempotent | src/firebase/LocationTracker.ts:96 | appending the same sample twice equals appending it once |
| LocationTrackerModel.Deactivated | src/firebase/LocationTracker.ts:137-142 | only the addressed document changes, and only its `isActive`, which becomes false; a missing document leaves everything as it was |
| LocationTrackerModel.RouteCollection.constructor | src/firebase/LocationTracker.ts:54-59 | the collection starts with no user documents and no routes |
| LocationTrackerModel.RouteCollection.Size | src/firebase/LocationTracker.ts:55-61 | the size of the count query is the number of the user's route documents; `SetRoute` states how it changes |
| LocationTrackerModel.RouteCollection.SetRoute | src/firebase/LocationTracker.ts:64-75 | the new document is written under the user and nothing else changes; under a fresh id the user's count grows by one, and every other user's count stays |
| LocationTrackerModel.RouteCollection.AppendPoint | src/firebase/LocationTracker.ts:90-98 | the collection becomes `WithPoint` of the old one |
| LocationTrackerModel.RouteCollection.MarkInactive | src/firebase/LocationTracker.ts:137-142 | the collection becomes `Deactivated` of the old one |
| LocationTrackerModel.StartTwice | src/firebase/LocationTracker.ts:44-46 | a second start after a successful one returns the same route info and creates no second record |
| LocationTrackerModel.StaleNameAfterFailedCreate | src/firebase/LocationTracker.ts:37-156 | after a start whose create fails and a stop, nothing is tracked and there is no route id, but the name that start stored is still reported |
| LocationTrackerModel.StopTwice | src/firebase/LocationTracker.ts:129-156 | no route id after any stop; the route info is empty after a stop that found a watch; a stop without a watch makes no call, and two stops in a row make exactly the calls of the first |
| SeqSet.Add | src/firebase/LocationTracker.ts:41 | adding appends the value unless present: the old elements stay, in order, as a prefix |
| SeqSet.Remove | src/firebase/LocationTracker.ts:159 | deleting drops the value and keeps every other element |
| SeqSet.AddKeepsDistinct | src/firebase/LocationTracker.ts:41 | adding keeps the set free of duplicates |
| SeqSet.AddIdempotent | src/firebase/LocationTracker.ts:41 | adding twice equals adding once |
| SeqSet.AddOccursOnce | src/firebase/LocationTracker.ts:96 | after adding to a duplicate-free sequence, the value occurs exactly once |
| SeqSet.OccursOnceAt | src/firebase/LocationTracker.ts:25 | in a duplicate-free sequence each element occurs exactly once |
| SeqSet.RemoveAppend | src/firebase/LocationTracker.ts:159 | deleting distributes over concatenation, so the remaining elements keep their order |
| SeqSet.RemoveKeepsDistinct | src/firebase/LocationTracker.ts:159 | deleting keeps the set free of duplicates |
| SeqSet.RemovePresent | src/firebase/LocationTracker.ts:159 | deleting a member shrinks the set by one |
| SeqSet.RemoveAfterAdd | src/firebase/LocationTracker.ts:41 | deleting undoes adding an absent value |
| Decimal.Render | src/firebase/LocationTracker.ts:62 | at least one digit, only digits, no leading zero, one digit exactly for numbers below ten |
| Decimal.DigitChar | src/firebase/LocationTracker.ts:62 | the character for a digit is a digit with that value |
| Decimal.ParseRender | src/firebase/LocationTracker.ts:62 | reading back the rendered digits gives the number |
| Decimal.RenderInjective | src/firebase/LocationTracker.ts:62 | distinct numbers render differently |
| TrackingStoreModel.TrackingStore.constructor | src/store/useTrackingStore.ts:15-19 | the store starts not tracking, with no route id, an empty name and no watch id |
| TrackingStoreModel.TrackingStore.SetTracking | src/store/useTrackingStore.ts:21 | only `isTracking` changes |
| TrackingStoreModel.TrackingStore.SetRouteInfo | src/store/useTrackingStore.ts:22 | only the route id and name change |
| TrackingStoreModel.TrackingStore.SetWatchId | src/store/useTrackingStore.ts:23 | only the watch id changes |
| TrackingStoreModel.TrackingStore.ClearTracking | src/store/useTrackingStore.ts:24-30 | every field returns to its initial value |
| TrackingStoreModel.ClearTwice | src/store/useTrackingStore.ts:24-30 | two clears leave the same state as one |
| PathStoreModel.PathStore.constructor | src/store/usePathStore.ts:16 | the path starts empty |
| PathStoreModel.PathStore.SetPath | src/store/usePathStore.ts:17 | the path becomes exactly the argument, whatever it was |
| PathStoreModel.PathStore.AddPoint | src/store/usePathStore.ts:18 | the point is appended: one longer, old prefix kept, the point last |
| PathStoreModel.PathStore.ClearPath | src/store/usePathStore.ts:19 | the path becomes empty, so clearing twice equals clearing once |
| PathStoreModel.RecordFromScratch | src/store/usePathStore.ts:18-19 | clearing and then adding points one by one leaves exactly those points in call order |
| Text.Utf16Length | src/screens/SignupScreen.tsx:67 | `length` counts UTF-16 units: between one and two per character, one each exactly when no character is outside the Basic Multilingual Plane, two each exactly when all are |
| Text.Utf16LengthAppend | src/screens/LoginScreen.tsx:48 | the unit count of a concatenation is the sum of the counts |
| Text.SkipBlanks | src/screens/SignupScreen.tsx:47 | the index of the first non-whitespace character from a start, with only whitespace before it |
| Text.SkipBlanksBack | src/screens/SignupScreen.tsx:47 | the end of the last non-whitespace character below a bound, with only whitespace after it |
| Text.Trim | src/screens/SignupScreen.tsx:47 | a non-empty trimmed string starts and ends with non-whitespace and fits in the string after its start |
| Text.TrimEmptyIffBlank | src/screens/SignupScreen.tsx:47-56 | the trimmed string is empty exactly when the string is all whitespace |
| Text.TrimIsInfix | src/screens/SignupScreen.tsx:47 | the trimmed string is a contiguous part of the string with only whitespace on either side |
| SignupScreen.DotAhead | src/screens/SignupScreen.tsx:38 | the scan finds a '.' followed by a non-blank inside the current blank-free run exactly when one exists |
| SignupScreen.AtFrom | src/screens/SignupScreen.tsx:38 | the scan finds an '@' and '.' arrangement matching the pattern at or after a position exactly when one exists |
| SignupScreen.AtFromIsRegexTest | src/screens/SignupScreen.tsx:38 | the scan from the start is true exactly when some substring has the shape non-blanks '@' non-blanks '.' non-blanks |
| SignupScreen.ValidateEmail | src/screens/SignupScreen.tsx:38 | `validateEmail` is true exactly when the unanchored regular expression's `test` is |
| SignupScreen.ValidateFields | src/screens/SignupScreen.tsx:44-73 | each message is given exactly when its check is the first to fail (blank name, blank e-mail, bad format, empty password, password under six UTF-16 units), and acceptance exactly when all pass |
| SignupScreen.PasswordNotTrimmed | src/screens/SignupScreen.tsx:62-71 | with valid name and e-mail, five spaces fail the length check and six pass |
| SignupScreen.AstralPasswordCountsUnits | src/screens/SignupScreen.tsx:67-71 | with valid name and e-mail, two characters outside the Basic Multilingual Plane fail the length check and three pass it |
| SignupScreen.HandleSignup | src/screens/SignupScreen.tsx:79-83 | `signUp` is called with the form's fields exactly when validation passes; otherwise the first failure's message is shown |
| LoginScreen.FirstAt | src/screens/LoginScreen.tsx:27 | the position of the first '@' at or after a start, or none |
| LoginScreen.AllPlain | src/screens/LoginScreen.tsx:27 | true exactly when the rest has neither whitespace nor '@' |
| LoginScreen.NoBlankUpTo | src/screens/LoginScreen.tsx:27 | true exactly when the slice has no whitespace |
| LoginScreen.DotBefore | src/screens/LoginScreen.tsx:27 | true exactly when a '.' with a character after it appears at or after a start |
| LoginScreen.SplitAcceptsIsRegexTest | src/screens/LoginScreen.tsx:26-29 | splitting at the first '@' accepts exactly when the whole string is plain characters, '@', then plain characters containing an inner '.' |
| LoginScreen.ValidateEmail | src/screens/LoginScreen.tsx:26-29 | `validateEmail` is true exactly when the anchored regular expression's `test` is |
| LoginScreen.AcceptedHasOneAt | src/screens/LoginScreen.tsx:27 | an accepted address has exactly one '@' and no whitespace |
| LoginScreen.LoginEmailPassesSignup | src/screens/LoginScreen.tsx:27 | whatever the login pattern accepts, the sign-up pattern accepts |
| LoginScreen.PaddedEmailOnlyPassesSignup | src/screens/LoginScreen.tsx:37-41 | " a@b.c" passes sign-up's unanchored test but not login's anchored one |
| LoginScreen.HandleLogin | src/screens/LoginScreen.tsx:36-54 | each alert is shown exactly when its guard is the first to fail (blank e-mail, bad format, empty password, password under six UTF-16 units); `login` is called with the inputs exactly when all pass |
| LoginScreen.AstralPasswordLogsIn | src/screens/LoginScreen.tsx:48-54 | with a valid e-mail, a password of three characters outside the Basic Multilingual Plane passes the length guard and `login` is called |
| Geo.Position | src/screens/RouteDetail.tsx:83-86 | the projection keeps latitude and longitude |
| Geo.Positions | src/screens/RouteDetail.tsx:83-86 | the projected path has the same length and order |
| Geo.RegionAt | src/screens/RouteDetail.tsx:74-79 | the region has the given centre and the default deltas; `DefaultRegion` is this region at the default centre |
| RouteData.FromDoc | src/screens/UserRoutesScreen.tsx:66-73 | the route carries the document id and the document's five fields |
| RouteData.FromDocs | src/screens/UserRoutesScreen.tsx:64-74 | one route per document, in snapshot order |
| RouteData.StartTime | src/screens/UserRoutesScreen.tsx:77-78 | the sort key is the start time, or 0 when it is absent |
| RouteData.CollectSorted | src/screens/UserRoutesScreen.tsx:64-80 | the pushed list, copied and sorted (`ByStartDesc`, the sort by `StartTime`), is newest first, a permutation of the documents' routes, and stable among equal start times |
| Sorting.SortDesc | src/screens/RouteScreen.tsx:193-197 | the sorted list has the input's length; its order, permutation and stability are the lemmas below |
| Sorting.InsertMultiset | src/screens/RouteScreen.tsx:193-197 | inserting adds exactly the element |
| Sorting.InsertHead | src/screens/RouteScreen.tsx:193-197 | `Insert` grows the list by exactly one, and the head is the new element or the old head |
| Sorting.InsertDescending | src/screens/RouteScreen.tsx:193-197 | inserting into a newest-first list keeps it newest first |
| Sorting.InsertWithKey | src/screens/RouteScreen.tsx:193-197 | inserting puts the element ahead of every element with the same key |
| Sorting.SortDescIsDescending | src/screens/RouteScreen.tsx:193-197 | the comparator `bTime - aTime` gives a list whose key never increases |
| Sorting.SortDescIsPermutation | src/screens/RouteScreen.tsx:193-197 | the sort is a permutation of its input |
| Sorting.SortDescIsStable | src/screens/RouteScreen.tsx:193-197 | routes with equal start times keep their snapshot order |
| Sorting.SortDescOfDescending | src/screens/RouteScreen.tsx:193-197 | a list already newest first is unchanged |
| RouteScreen.IsLiveRoute | src/screens/RouteScreen.tsx:76-79 | live exactly when `isActive` is present and true |
| RouteScreen.HandleSnapshot | src/screens/RouteScreen.tsx:185-201 | the routes become the snapshot's routes newest first, as a stable permutation; loading ends; the selection and live location are kept |
| RouteScreen.HandleSnapshotError | src/screens/RouteScreen.tsx:203-206 | loading ends and nothing else changes |
| RouteScreen.HandleRouteSelect | src/screens/RouteScreen.tsx:227-233 | a live route is handed to the share screen with the state unchanged; any other becomes the selection with no navigation |
| RouteScreen.HasPoints | src/screens/RouteScreen.tsx:240 | true only for a selection with a path of at least one point, false for no selection, no path or an empty path |
| RouteScreen.GetInitialRegion | src/screens/RouteScreen.tsx:239-263 | the first recorded point if the selected path is non-empty, else the live location, else the default centre; the deltas are always the defaults |
| RouteScreen.InitialRegionIgnoresLiveWhenRouteHasPoints | src/screens/RouteScreen.tsx:240-247 | while the selected route has points the live location does not affect the region |
| RouteScreen.Without | src/screens/RouteScreen.tsx:268-275 | no kept point is at the live location and the result is no longer than the path; that no point is added is `WithoutMultiset` |
| RouteScreen.WithoutMultiset | src/screens/RouteScreen.tsx:268-275 | the points at the live location are all removed and every other point keeps its count, so no point outside the path appears |
| RouteScreen.WithoutAppend | src/screens/RouteScreen.tsx:268-275 | filtering distributes over concatenation, so order is kept |
| RouteScreen.WithoutNoMatch | src/screens/RouteScreen.tsx:268-275 | a path with no point at the live location is kept whole |
| RouteScreen.PolylineCoordinates | src/screens/RouteScreen.tsx:265-289 | empty without a selected path; otherwise at most one point longer than the path, and as long as the path when there is no live location |
| RouteScreen.PolylineEmptyWithoutPath | src/screens/RouteScreen.tsx:266 | no selection or no path gives an empty polyline, even for an active route |
| RouteScreen.PolylineWithoutLiveIsPath | src/screens/RouteScreen.tsx:268-279 | with no live location the polyline is the path's points in order |
| RouteScreen.PolylineWithLiveShape | src/screens/RouteScreen.tsx:268-288 | with a live location the polyline is the filtered path, then the live location exactly when the route is active, at most one longer than the path |
| RouteScreen.PolylineHoldsLiveIffActive | src/screens/RouteScreen.tsx:268-288 | the live location appears in the polyline exactly when the route is active, and then as its last point |
| RouteScreen.PolylinePointsAreRecorded | src/screens/RouteScreen.tsx:268-288 | every polyline point other than the live location is a point of the recorded path |
| UserRoutesScreen.HandleSnapshot | src/screens/UserRoutesScreen.tsx:61-84 | the routes become the documents' routes newest first, as a stable permutation; loading ends; the selected index is kept |
| UserRoutesScreen.SelectedRoute | src/screens/UserRoutesScreen.tsx:91-92 | none without an index or with an index past the end, otherwise the route at the index |
| UserRoutesScreen.SelectRoute | src/screens/UserRoutesScreen.tsx:94-96 | the index is set and the list and loading flag are kept |
| UserRoutesScreen.BackToList | src/screens/UserRoutesScreen.tsx:102-104 | no route is selected afterwards and the list and loading flag are kept |
| UserRoutesScreen.SelectThenBack | src/screens/UserRoutesScreen.tsx:91-104 | selecting an index in range selects that route; going back restores no selection |
| RouteData.RouteCoordinates | src/screens/UserRoutesScreen.tsx:106-113 | the route's path projected to map points, in order and with the same length, or none without a route or a path; `routeCoordinates` in src/screens/RouteDetail.tsx:82-87 is the same expression and uses this member too |
| UserRoutesScreen.LastPoint | src/screens/UserRoutesScreen.tsx:125 | none exactly for an empty path; otherwise the path's last point |
| UserRoutesScreen.OrDefault | src/screens/UserRoutesScreen.tsx:125-126 | a present non-zero number is kept; absent or 0 gives the fallback |
| UserRoutesScreen.InitialMapRegion | src/screens/UserRoutesScreen.tsx:115-130 | the default centre without a selection or with an empty path; otherwise the last point's coordinates, each replaced by its default when 0; the deltas are always the defaults |
| UserRoutesScreen.EquatorFallsBackToDefaultLatitude | src/screens/UserRoutesScreen.tsx:125 | a last point on the equator keeps its longitude but gets the default latitude |
| UserRoutesScreen.IsLive | src/screens/UserRoutesScreen.tsx:132-135 | live exactly when the item is first, its path is non-empty and it is active |
| UserRoutesScreen.AtMostOneLive | src/screens/UserRoutesScreen.tsx:132-135 | at most one list item, the first, is tagged live, and it is live by the route screen's rule too |
| UserRoutesScreen.LiveTagNeedsFirstAndPoints | src/screens/UserRoutesScreen.tsx:133-135 | an active route is tagged live here exactly when it is first and has points |
| RouteDetail.HandleSnapshot | src/screens/RouteDetail.tsx:44-56 | with data the route is stored and loading ends; without data nothing changes |
| RouteDetail.HandleSnapshotError | src/screens/RouteDetail.tsx:58-61 | loading ends and the route data is kept |
| RouteDetail.MissingDocumentKeepsLoading | src/screens/RouteDetail.tsx:29-61 | from the initial state `Initial` (no data, loading) a snapshot of a missing document keeps the screen loading with no data; only a listener error then ends the loading |
| RouteDetail.InitialMapRegion | src/screens/RouteDetail.tsx:63-80 | the default centre without data or points, otherwise the last point; the deltas are always the defaults |
| RouteDetail.SameRegionAsUserRoutes | src/screens/RouteDetail.tsx:63-80 | this screen and the user-routes screen centre a route the same way unless its last point has a zero coordinate |

## Left out

- Firebase Auth and Firestore I/O are not executed. The signed-in e-mail is an `Option<string>` parameter, and each remote call's success is a `bool` parameter. The collection is the class `RouteCollection`, and the calls made are recorded in the ghost log `io` of the `Tracker`.
- Start uses the `collection` constant from `src/components/constant`, which is not part of this model; stop writes to `'locationHistory'`. Both are modelled as the same collection.
- `watchPosition` and `clearWatch` are not executed; the calls are logged in the `Tracker`'s `io` as `WatchPosition` and `ClearWatch`. The watch handle is a parameter. The watch options and sensor errors are not modelled; a watch error callback only logs.
- Interleavings are not modelled. The per-sample remote write is not awaited by the sensor, so `OnSample` requires an active session, and samples arriving after a stop are left out. A failing sample write is a `writeOk` parameter; its unhandled rejection is not modelled.
- `Timestamp.now()` and `serverTimestamp()` are not modelled. They are `int` parameters `now` and `serverTime`, so `toDate().getTime()` is the identity.
- Coordinates are `real` values compared by equality. NaN, `-0` and floating-point rounding are not modelled.
- `WithPoint` does not leave the update's rejection path: updating a missing document leaves the collection as it was, and the model does not raise.
- `RouteData.FromDoc`: `{id: doc.id, ...doc.data()}` in the route screen lets a data field named `id` override the document id. The model always uses the document id, like the explicit copy in the other screens.
- The paths and names of route documents have no JavaScript typing in the model. A `path` that is not an array, or an `isActive` that is truthy but not `true`, is not modelled. `isActive` is `Option<bool>`.
- `UserRoutesScreen.InitialMapRegion` and `RouteDetail.InitialMapRegion` require the selected route's `path` to be present, because the source reads `path.length` without a guard and would throw.
- React rendering, navigation, `Alert`, styles and the loading and empty views are pure UI and are left out. `RouteScreen.HandleRouteSelect` returns the route that would be handed to the share screen instead of navigating.
- `RouteScreen`'s `handleCloseModal`, its live-location document listener, its permission request and its live-location writer (src/screens/RouteScreen.tsx:87-183, 235-237) are left out. They are sensor and I/O glue that set `liveLocation` or the selection from outside; `liveLocation` is an input of the modelled functions.
- `src/screens/ShareScreen.tsx` and `src/screens/ViewScreen.tsx` are not part of this model. ShareScreen sequences `clearPath` and the tracker calls, both covered here; ViewScreen is a subscription plus a filter. `src/firebase/auth.ts` is not part of this model either.
- `Text.IsWhitespace` covers the ECMAScript WhiteSpace and LineTerminator code points, with no Unicode category lookup beyond that fixed list.
- Strings are sequences of Unicode scalar values, so a JavaScript string holding an unpaired surrogate is not modelled; `Text.Utf16Length` counts each character outside the Basic Multilingual Plane as the surrogate pair JavaScript stores.
- The `console.warn` and `console.error` calls of start and stop (src/firebase/LocationTracker.ts:50, 101, 124, 144) are logging only and are not modelled; only the subscriber warnings are, as `OnSample`'s `warnings`.
- `PathStoreModel.PathStore.SetPath` copies the given sequence, while `setPath` stores the caller's array by reference. The modelled sources never call `setPath`, so no aliasing they rely on is lost.
- `UserRoutesScreen.SelectRoute` and `UserRoutesScreen.SelectThenBack` model `handleSelectRoute` (src/screens/UserRoutesScreen.tsx:94-96), which nothing in the screen calls: its only call site is commented out and the list items open the route detail screen instead.
- `LocationTrackerModel.Tracker.StopTracking` keeps the source's behaviour that a stop without a watch clears nothing, so the name stored by a start whose create failed survives the stop (`StaleNameAfterFailedCreate`). Every field is empty after a stop only when that stop found a watch.
