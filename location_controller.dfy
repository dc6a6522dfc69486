/**
 * The location-sharing request handlers
 * (server/src/controllers/locationController.js): start, update, stop,
 * read with liveness repair, history, the active-session listing, and the
 * emergency and safe toggles.
 */
module LocationController {
  import opened Wrappers
  import opened LocationModel
  import Seqs
  import JsText

  /** A session is online while its last signal is less than this many milliseconds old. */
  const OfflineAfterMs := 30000

  /** History points returned when the request gives no limit. */
  const DefaultHistoryLimit := 50

  const StartedMessage := "Location sharing started"
  const EmergencyStartedMessage := "Emergency location sharing started"
  const LiveMessage := "Live location"
  const SignalLostMessage := "Last known location (signal lost)"

  datatype LocationError =
    | MissingCoordinates   // 400 "Latitude and longitude are required"
    | NotFoundOrStopped    // 404 "Location session not found or stopped"
    | NotFound             // 404 "Location session not found"
  {
    function Status(): int {
      if this == MissingCoordinates then 400 else 404
    }
  }

  /** The position fields of a request body; absent ones are None. */
  datatype PointInput = PointInput(
    latitude: Option<real>,
    longitude: Option<real>,
    accuracy: Option<real>,
    altitude: Option<real>,
    speed: Option<real>,
    heading: Option<real>)

  /** The body of `POST /api/location/start`. */
  datatype StartRequest = StartRequest(
    point: PointInput,
    userName: Option<string>,
    contactNumber: Option<string>,
    isEmergency: Option<bool>,
    emergencyType: Option<string>,
    emergencyMessage: Option<string>,
    helpRequestId: Option<string>)

  /** The 201 answer to a start. */
  datatype Started = Started(sessionId: SessionId, location: Session, message: string)

  /** The answer to a read: the stored session and its derived liveness. */
  datatype LocationView = LocationView(
    location: Session,
    isLive: bool,
    lastKnownLocation: Point,
    signalStatus: string,
    message: string)

  /** The answer to a history read. */
  datatype HistoryView = HistoryView(
    sessionId: SessionId,
    history: seq<Point>,
    totalPoints: nat,
    startedAt: int,
    lastActiveAt: int)

  /** The `limit` query parameter after `parseInt`: left out, a number, or `NaN`. */
  datatype HistoryLimit = DefaultLimit | Parsed(n: int) | NotANumber

  /** `latitude == null || longitude == null` is false. */
  predicate HasCoordinates(p: PointInput) {
    p.latitude.Some? && p.longitude.Some?
  }

  /** The point a handler records, stamped with the request time. */
  function Stamp(p: PointInput, now: int): Point
    requires HasCoordinates(p)
  {
    Point(p.latitude.value, p.longitude.value, p.accuracy, p.altitude, p.speed, p.heading, now)
  }

  /** `lastSignalAt > now - 30000`: the signal is less than thirty seconds old. */
  function IsOnlineAt(lastSignalAt: int, now: int): (r: bool)
    ensures r <==> now - lastSignalAt < OfflineAfterMs
  {
    lastSignalAt > now - OfflineAfterMs
  }

  /** Matches of `{ sessionId: id, isSharing: true }`. */
  function SharingWithId(id: SessionId): Session -> bool {
    (s: Session) => s.sessionId == id && s.isSharing
  }

  /** The update `{ isSharing: false, isOnline: false }`. */
  function Stopped(s: Session): (r: Session)
    ensures !r.isSharing && !r.isOnline
    ensures r.currentLocation == s.currentLocation && r.locationHistory == s.locationHistory
    ensures r.isEmergency == s.isEmergency && r.lastSignalAt == s.lastSignalAt
    ensures r.(isSharing := s.isSharing, isOnline := s.isOnline) == s
    ensures WellFormed(s) ==> WellFormed(r)
  {
    s.(isSharing := false, isOnline := false)
  }

  /** The update `{ isEmergency: true, emergencyType: type || "other", emergencyMessage }`. */
  function InEmergency(s: Session, emergencyType: Option<string>, message: Option<string>): (r: Session)
    ensures r.isEmergency
    ensures r.emergencyType == Some(if JsText.Truthy(emergencyType) then emergencyType.value else "other")
    ensures r.emergencyMessage == (if message.Some? then message else s.emergencyMessage)
    ensures r.isSharing == s.isSharing && r.isOnline == s.isOnline
    ensures r.currentLocation == s.currentLocation && r.locationHistory == s.locationHistory
    ensures r.(isEmergency := s.isEmergency, emergencyType := s.emergencyType,
               emergencyMessage := s.emergencyMessage) == s
  {
    s.(isEmergency := true,
       emergencyType := Some(if JsText.Truthy(emergencyType) then emergencyType.value else "other"),
       emergencyMessage := if message.Some? then message else s.emergencyMessage)
  }

  /** The session with its cached online flag recomputed at `now`. */
  function Refresh(s: Session, now: int): (r: Session)
    ensures r.isOnline == IsOnlineAt(s.lastSignalAt, now)
    ensures r.(isOnline := s.isOnline) == s
  {
    s.(isOnline := IsOnlineAt(s.lastSignalAt, now))
  }

  /**
   * `startSharing`: a body without both coordinates is refused and nothing is
   * stored; otherwise a new session is stored whose only point is the given one,
   * sharing and online, in an emergency only if the body asks for one.
   * `freshId` stands for `crypto.randomUUID()`, so it names no stored session.
   */
  method StartSharing(store: LocationCollection, req: StartRequest, freshId: SessionId, now: int)
    returns (r: Result<Started, LocationError>)
    requires store.Valid()
    requires forall i :: 0 <= i < |store.rows| ==> store.rows[i].sessionId != freshId
    modifies store
    ensures store.Valid()
    ensures !HasCoordinates(req.point) ==> r == Failure(MissingCoordinates) && store.rows == old(store.rows)
    ensures HasCoordinates(req.point) ==> r.Success? && store.rows == old(store.rows) + [r.value.location]
    ensures r.Success? ==>
      var s := r.value.location;
      && r.value.sessionId == freshId && s.sessionId == freshId
      && s.currentLocation == Stamp(req.point, now)
      && s.locationHistory == [s.currentLocation]
      && s.isSharing && s.isOnline
      && s.isEmergency == req.isEmergency.GetOr(false)
      && s.emergencyType == req.emergencyType && s.emergencyMessage == req.emergencyMessage
      && s.userName == req.userName && s.contactNumber == req.contactNumber
      && s.helpRequestId == req.helpRequestId
      && s.sharingStartedAt == now && s.lastActiveAt == now && s.lastSignalAt == now
      && r.value.message == (if req.isEmergency.GetOr(false) then EmergencyStartedMessage else StartedMessage)
  {
    if !HasCoordinates(req.point) {
      return Failure(MissingCoordinates);
    }
    var point := Stamp(req.point, now);
    var location := Session(
      freshId, req.userName, req.contactNumber, point, [point],
      req.isEmergency.GetOr(false), req.emergencyType, req.emergencyMessage,
      true, now, now, true, now, req.helpRequestId);
    store.rows := store.rows + [location];
    var message := if req.isEmergency.GetOr(false) then EmergencyStartedMessage else StartedMessage;
    r := Success(Started(freshId, location, message));
  }

  /**
   * `updateLocation`: missing coordinates are refused before any lookup; a
   * session that is unknown or no longer sharing gets 404 and nothing changes;
   * otherwise the point is recorded with `addLocationPoint` and saved.
   */
  method UpdateLocation(store: LocationCollection, id: SessionId, input: PointInput, now: int)
    returns (r: Result<Point, LocationError>)
    requires store.Valid()
    modifies store
    ensures store.Valid()
    ensures !HasCoordinates(input) ==> r == Failure(MissingCoordinates) && store.rows == old(store.rows)
    ensures HasCoordinates(input) && Seqs.FindFirst(old(store.rows), SharingWithId(id)).None? ==>
      r == Failure(NotFoundOrStopped) && store.rows == old(store.rows)
    ensures HasCoordinates(input) && Seqs.FindFirst(old(store.rows), SharingWithId(id)).Some? ==>
      var k := Seqs.FindFirst(old(store.rows), SharingWithId(id)).value;
      && r == Success(Stamp(input, now))
      && store.rows == old(store.rows)[k := WithPoint(old(store.rows)[k], Stamp(input, now), now)]
  {
    if !HasCoordinates(input) {
      return Failure(MissingCoordinates);
    }
    var found := Seqs.FindFirst(store.rows, SharingWithId(id));
    if found.None? {
      return Failure(NotFoundOrStopped);
    }
    var k := found.value;
    var location := new LocationDocument.Load(store.rows[k]);
    var point := Stamp(input, now);
    location.AddLocationPoint(point, now);
    ReplaceKeepsValid(store.rows, k, location.Record());
    store.rows := store.rows[k := location.Record()];
    r := Success(location.currentLocation);
  }

  /**
   * `stopSharing`: the first session with this id stops sharing and goes
   * offline; its last location is returned unchanged. An unknown id gets 404.
   */
  method StopSharing(store: LocationCollection, id: SessionId) returns (r: Result<Point, LocationError>)
    requires store.Valid()
    modifies store
    ensures store.Valid()
    ensures Seqs.FindFirst(old(store.rows), HasId(id)).None? ==>
      r == Failure(NotFound) && store.rows == old(store.rows)
    ensures Seqs.FindFirst(old(store.rows), HasId(id)).Some? ==>
      var k := Seqs.FindFirst(old(store.rows), HasId(id)).value;
      && store.rows == old(store.rows)[k := Stopped(old(store.rows)[k])]
      && r == Success(old(store.rows)[k].currentLocation)
  {
    var found := Seqs.FindFirst(store.rows, HasId(id));
    if found.None? {
      return Failure(NotFound);
    }
    var k := found.value;
    var location := Stopped(store.rows[k]);
    store.rows := store.rows[k := location];
    r := Success(location.currentLocation);
  }

  /**
   * `getLocation`: liveness is recomputed from `lastSignalAt`; the stored flag is
   * written back only when it disagrees (read repair). The session is live when
   * it is online and still sharing; the last known location is always reported.
   */
  method GetLocation(store: LocationCollection, id: SessionId, now: int)
    returns (r: Result<LocationView, LocationError>)
    requires store.Valid()
    modifies store
    ensures store.Valid()
    ensures Seqs.FindFirst(old(store.rows), HasId(id)).None? ==>
      r == Failure(NotFound) && store.rows == old(store.rows)
    ensures Seqs.FindFirst(old(store.rows), HasId(id)).Some? ==>
      var k := Seqs.FindFirst(old(store.rows), HasId(id)).value;
      var s := old(store.rows)[k];
      var online := IsOnlineAt(s.lastSignalAt, now);
      && store.rows == (if s.isOnline == online then old(store.rows) else old(store.rows)[k := Refresh(s, now)])
      && r == Success(LocationView(Refresh(s, now), online && s.isSharing, s.currentLocation,
                                   if online then "online" else "offline",
                                   if online then LiveMessage else SignalLostMessage))
  {
    var found := Seqs.FindFirst(store.rows, HasId(id));
    if found.None? {
      return Failure(NotFound);
    }
    var k := found.value;
    var location := new LocationDocument.Load(store.rows[k]);
    var isCurrentlyOnline := IsOnlineAt(location.lastSignalAt, now);
    if location.isOnline != isCurrentlyOnline {
      location.isOnline := isCurrentlyOnline;
      store.rows := store.rows[k := location.Record()];
    }
    r := Success(LocationView(location.Record(), isCurrentlyOnline && location.isSharing,
                              location.currentLocation,
                              if isCurrentlyOnline then "online" else "offline",
                              if isCurrentlyOnline then LiveMessage else SignalLostMessage));
  }

  /** The argument `getLocationHistory` passes to `slice`: `-parseInt(limit)`. */
  function SliceStart(limit: HistoryLimit): int {
    match limit
    case DefaultLimit => -DefaultHistoryLimit
    case Parsed(n) => -n
    case NotANumber => 0
  }

  /**
   * `getLocationHistory`: the newest `limit` points (50 by default) in recording
   * order, and the full history length. A limit of 0 or one that is not a
   * number returns the whole history; a negative limit drops points from the front.
   */
  function GetLocationHistory(store: LocationCollection, id: SessionId, limit: HistoryLimit)
    : (r: Result<HistoryView, LocationError>)
    reads store
    ensures Seqs.FindFirst(store.rows, HasId(id)).None? <==> r == Failure(NotFound)
    ensures r.Success? ==>
      var s := store.rows[Seqs.FindFirst(store.rows, HasId(id)).value];
      var h := s.locationHistory;
      && r.value.sessionId == id && r.value.totalPoints == |h|
      && r.value.startedAt == s.sharingStartedAt && r.value.lastActiveAt == s.lastActiveAt
      && (limit == DefaultLimit ==> r.value.history == Seqs.Last(h, DefaultHistoryLimit))
      && (limit.Parsed? && limit.n >= 1 ==> r.value.history == Seqs.Last(h, limit.n))
      && (limit == Parsed(0) || limit == NotANumber ==> r.value.history == h)
      && (limit.Parsed? && limit.n < 0 ==> r.value.history == h[Seqs.Min(-limit.n, |h|)..])
  {
    match Seqs.FindFirst(store.rows, HasId(id))
    case None => Failure(NotFound)
    case Some(k) =>
      var s := store.rows[k];
      Success(HistoryView(id, Seqs.JsSlice(s.locationHistory, SliceStart(limit)),
                          |s.locationHistory|, s.sharingStartedAt, s.lastActiveAt))
  }

  /** The `getActiveSessions` query: sharing, and in an emergency when `emergencyOnly === "true"`. */
  function ListedBy(emergencyOnly: Option<string>): Session -> bool {
    if emergencyOnly == Some("true") then IsSharedEmergency else (s: Session) => s.isSharing
  }

  function LastActive(s: Session): int {
    s.lastActiveAt
  }

  /**
   * A session as the listing reports it: selected without its history
   * (`select("-locationHistory")`) and with its online flag recomputed.
   */
  function Listed(s: Session, now: int): (r: Session)
    ensures r.locationHistory == []
    ensures r.isOnline == IsOnlineAt(s.lastSignalAt, now)
    ensures r.(locationHistory := s.locationHistory, isOnline := s.isOnline) == s
  {
    s.(locationHistory := [], isOnline := IsOnlineAt(s.lastSignalAt, now))
  }

  /** `locations.map(...)` over the selected sessions. */
  function WithLiveness(ss: seq<Session>, now: int): (r: seq<Session>)
    ensures |r| == |ss|
    ensures forall i :: 0 <= i < |ss| ==> r[i] == Listed(ss[i], now)
  {
    seq(|ss|, i requires 0 <= i < |ss| => Listed(ss[i], now))
  }

  /**
   * `getActiveSessions`: exactly the sharing sessions (only emergencies when
   * asked), most recently active first, each without its history and with its
   * online flag recomputed by the thirty-second rule.
   */
  function GetActiveSessions(store: LocationCollection, emergencyOnly: Option<string>, now: int)
    : (r: seq<Session>)
    reads store
    ensures forall i :: 0 <= i < |r| ==>
      r[i].isSharing && (emergencyOnly == Some("true") ==> r[i].isEmergency)
    ensures forall i :: 0 <= i < |r| ==>
      r[i].isOnline == IsOnlineAt(r[i].lastSignalAt, now) && r[i].locationHistory == []
    ensures forall i, j :: 0 <= i < j < |r| ==> r[i].lastActiveAt >= r[j].lastActiveAt
    ensures forall s :: s in store.rows && ListedBy(emergencyOnly)(s) ==> Listed(s, now) in r
    ensures forall i :: 0 <= i < |r| ==>
      exists j :: 0 <= j < |store.rows| && ListedBy(emergencyOnly)(store.rows[j])
                  && r[i] == Listed(store.rows[j], now)
    ensures |r| == |Seqs.Filter(store.rows, ListedBy(emergencyOnly))|
  {
    var listed := Seqs.Filter(store.rows, ListedBy(emergencyOnly));
    var sorted := Seqs.SortDesc(listed, LastActive);
    ListingFacts(store.rows, ListedBy(emergencyOnly), listed, sorted, now);
    WithLiveness(sorted, now)
  }

  lemma ListingFacts(rows: seq<Session>, p: Session -> bool, listed: seq<Session>, sorted: seq<Session>, now: int)
    requires listed == Seqs.Filter(rows, p)
    requires multiset(sorted) == multiset(listed)
    ensures forall s :: s in rows && p(s) ==> Listed(s, now) in WithLiveness(sorted, now)
    ensures forall i :: 0 <= i < |sorted| ==>
      exists j :: 0 <= j < |rows| && p(rows[j]) && sorted[i] == rows[j]
  {
    var r := WithLiveness(sorted, now);
    forall s | s in rows && p(s)
      ensures Listed(s, now) in r
    {
      assert s in multiset(sorted);
      var i :| 0 <= i < |sorted| && sorted[i] == s;
      assert r[i] == Listed(s, now);
    }
    forall i | 0 <= i < |sorted|
      ensures exists j :: 0 <= j < |rows| && p(rows[j]) && sorted[i] == rows[j]
    {
      assert sorted[i] in multiset(listed);
      assert sorted[i] in rows;
      var j :| 0 <= j < |rows| && rows[j] == sorted[i];
    }
  }

  /**
   * `activateEmergency`: the first session with this id enters emergency mode,
   * with type "other" when none is given; an unknown id gets 404.
   */
  method ActivateEmergency(store: LocationCollection, id: SessionId,
                           emergencyType: Option<string>, message: Option<string>)
    returns (r: Result<Session, LocationError>)
    requires store.Valid()
    modifies store
    ensures store.Valid()
    ensures Seqs.FindFirst(old(store.rows), HasId(id)).None? ==>
      r == Failure(NotFound) && store.rows == old(store.rows)
    ensures Seqs.FindFirst(old(store.rows), HasId(id)).Some? ==>
      var k := Seqs.FindFirst(old(store.rows), HasId(id)).value;
      && store.rows == old(store.rows)[k := InEmergency(old(store.rows)[k], emergencyType, message)]
      && r == Success(store.rows[k])
  {
    var found := Seqs.FindFirst(store.rows, HasId(id));
    if found.None? {
      return Failure(NotFound);
    }
    var k := found.value;
    var location := InEmergency(store.rows[k], emergencyType, message);
    store.rows := store.rows[k := location];
    r := Success(location);
  }

  /**
   * `markSafe`: the first session with this id leaves emergency mode and nothing
   * else changes, so marking an already safe session again changes nothing.
   * An unknown id gets 404.
   */
  method MarkSafe(store: LocationCollection, id: SessionId) returns (r: Result<Session, LocationError>)
    requires store.Valid()
    modifies store
    ensures store.Valid()
    ensures Seqs.FindFirst(old(store.rows), HasId(id)).None? ==>
      r == Failure(NotFound) && store.rows == old(store.rows)
    ensures Seqs.FindFirst(old(store.rows), HasId(id)).Some? ==>
      var k := Seqs.FindFirst(old(store.rows), HasId(id)).value;
      && store.rows == old(store.rows)[k := old(store.rows)[k].(isEmergency := false)]
      && r == Success(store.rows[k])
      && (!old(store.rows)[k].isEmergency ==> store.rows == old(store.rows))
  {
    var found := Seqs.FindFirst(store.rows, HasId(id));
    if found.None? {
      return Failure(NotFound);
    }
    var k := found.value;
    var location := store.rows[k].(isEmergency := false);
    store.rows := store.rows[k := location];
    r := Success(location);
  }

  /**
   * Once a session is stopped no update can reach it: with unique ids, the
   * `{ sessionId, isSharing: true }` lookup finds nothing.
   */
  lemma {:induction false} StoppedSessionRejectsUpdates(rows: seq<Session>, k: nat)
    requires k < |rows|
    requires forall i, j :: 0 <= i < j < |rows| ==> rows[i].sessionId != rows[j].sessionId
    ensures Seqs.FindFirst(rows[k := Stopped(rows[k])], SharingWithId(rows[k].sessionId)).None?
  {
    var id := rows[k].sessionId;
    var after := rows[k := Stopped(rows[k])];
    forall j | 0 <= j < |after|
      ensures !SharingWithId(id)(after[j])
    {
      if j != k {
        assert after[j] == rows[j];
        assert rows[j].sessionId != id by {
          if j < k {} else {}
        }
      }
    }
  }

  /**
   * Reading a session less than thirty seconds after it was stopped repairs its
   * online flag back to true, while it is still reported as not live: stopping
   * resets `isOnline` but not `lastSignalAt`.
   */
  lemma ReadSoonAfterStopIsOnlineButNotLive(s: Session, now: int)
    requires now - s.lastSignalAt < OfflineAfterMs
    ensures Refresh(Stopped(s), now).isOnline
    ensures !(IsOnlineAt(Stopped(s).lastSignalAt, now) && Stopped(s).isSharing)
  {
  }
}
