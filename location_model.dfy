/**
 * The location-sharing session record (server/src/models/Location.js): a
 * current point, a bounded history, sharing/online/emergency flags and their
 * timestamps, the document method that records a new point, and the two
 * collection finders.
 */
module LocationModel {
  import opened Wrappers
  import Seqs

  type SessionId = string

  /** One recorded position; coordinates are only stored, never computed on. */
  datatype Point = Point(
    latitude: real,
    longitude: real,
    accuracy: Option<real>,
    altitude: Option<real>,
    speed: Option<real>,
    heading: Option<real>,
    timestamp: int)

  /** A stored location session; times are milliseconds since the epoch. */
  datatype Session = Session(
    sessionId: SessionId,
    userName: Option<string>,
    contactNumber: Option<string>,
    currentLocation: Point,
    locationHistory: seq<Point>,
    isEmergency: bool,
    emergencyType: Option<string>,
    emergencyMessage: Option<string>,
    isSharing: bool,
    sharingStartedAt: int,
    lastActiveAt: int,
    isOnline: bool,
    lastSignalAt: int,
    helpRequestId: Option<string>)

  /** How many points a session's history keeps. */
  const MaxHistory := 100

  /**
   * The history after recording `p`: `p` is appended and, once there are more
   * than MaxHistory points, the oldest ones are dropped.
   */
  function BoundedAppend(history: seq<Point>, p: Point): (r: seq<Point>)
    ensures 1 <= |r| <= MaxHistory
    ensures r[|r| - 1] == p
    ensures |history| < MaxHistory ==> r == history + [p]
    ensures |history| >= MaxHistory ==> r == history[|history| - (MaxHistory - 1)..] + [p]
    ensures r == Seqs.Last(history + [p], MaxHistory)
  {
    var pushed := history + [p];
    if |pushed| > MaxHistory then Seqs.JsSlice(pushed, -MaxHistory) else pushed
  }

  /** The history after recording each of `points` in turn. */
  function AppendAll(history: seq<Point>, points: seq<Point>): seq<Point>
    decreases |points|
  {
    if points == [] then history
    else AppendAll(BoundedAppend(history, points[0]), points[1..])
  }

  /**
   * Recording any number of points keeps exactly the newest MaxHistory of all
   * points seen, oldest first: eviction is first-in first-out and order is kept.
   */
  lemma {:induction false} AppendAllKeepsNewest(history: seq<Point>, points: seq<Point>)
    requires |history| <= MaxHistory
    ensures AppendAll(history, points) == Seqs.Last(history + points, MaxHistory)
    decreases |points|
  {
    if points == [] {
      assert history + points == history;
    } else {
      var p, rest := points[0], points[1..];
      var next := BoundedAppend(history, p);
      AppendAllKeepsNewest(next, rest);
      Seqs.LastOfLast(history + [p], rest, MaxHistory);
      ConcatStep(history, points);
    }
  }

  lemma ConcatStep(history: seq<Point>, points: seq<Point>)
    requires points != []
    ensures history + [points[0]] + points[1..] == history + points
  {
    assert points == [points[0]] + points[1..];
  }

  /** The stored session after `addLocationPoint(p)` at time `now`. */
  function WithPoint(s: Session, p: Point, now: int): (r: Session)
    ensures r.currentLocation == p
    ensures r.locationHistory == BoundedAppend(s.locationHistory, p)
    ensures r.isOnline && r.lastActiveAt == now && r.lastSignalAt == now
    ensures r.sessionId == s.sessionId && r.isSharing == s.isSharing
    ensures r.isEmergency == s.isEmergency && r.emergencyType == s.emergencyType
    ensures r.sharingStartedAt == s.sharingStartedAt
    ensures r.(currentLocation := s.currentLocation, locationHistory := s.locationHistory,
               lastActiveAt := s.lastActiveAt, lastSignalAt := s.lastSignalAt,
               isOnline := s.isOnline) == s
    ensures WellFormed(r)
  {
    s.(currentLocation := p,
       locationHistory := BoundedAppend(s.locationHistory, p),
       lastActiveAt := now,
       lastSignalAt := now,
       isOnline := true)
  }

  /**
   * The record invariant: a session always has at least one point, at most
   * MaxHistory of them, and its current location is the last one recorded.
   */
  ghost predicate WellFormed(s: Session) {
    && s.locationHistory != []
    && |s.locationHistory| <= MaxHistory
    && s.locationHistory[|s.locationHistory| - 1] == s.currentLocation
  }

  /** Matches of `{ sessionId: id }`. */
  function HasId(id: SessionId): Session -> bool {
    (s: Session) => s.sessionId == id
  }

  /** Matches of `{ isSharing: true, isOnline: true }`. */
  predicate IsActive(s: Session) {
    s.isSharing && s.isOnline
  }

  /** Matches of `{ isSharing: true, isEmergency: true }`. */
  predicate IsSharedEmergency(s: Session) {
    s.isSharing && s.isEmergency
  }

  /** Every record is well formed and session ids are unique. */
  ghost predicate ValidRows(rows: seq<Session>) {
    && (forall i :: 0 <= i < |rows| ==> WellFormed(rows[i]))
    && (forall i, j :: 0 <= i < j < |rows| ==> rows[i].sessionId != rows[j].sessionId)
  }

  /** Replacing a record by a well-formed one with the same id keeps the table valid. */
  lemma ReplaceKeepsValid(rows: seq<Session>, k: nat, s: Session)
    requires ValidRows(rows) && k < |rows|
    requires WellFormed(s) && s.sessionId == rows[k].sessionId
    ensures ValidRows(rows[k := s])
  {
    var rows' := rows[k := s];
    forall i, j | 0 <= i < j < |rows'|
      ensures rows'[i].sessionId != rows'[j].sessionId
    {
      assert rows'[i].sessionId == rows[i].sessionId;
      assert rows'[j].sessionId == rows[j].sessionId;
    }
  }

  /**
   * A Mongoose document loaded from the collection: handlers change its fields
   * in place and save it back with `Record()`.
   */
  class LocationDocument {
    var sessionId: SessionId
    var userName: Option<string>
    var contactNumber: Option<string>
    var currentLocation: Point
    var locationHistory: seq<Point>
    var isEmergency: bool
    var emergencyType: Option<string>
    var emergencyMessage: Option<string>
    var isSharing: bool
    var sharingStartedAt: int
    var lastActiveAt: int
    var isOnline: bool
    var lastSignalAt: int
    var helpRequestId: Option<string>

    /** The document as it would be saved. */
    function Record(): Session
      reads this
    {
      Session(sessionId, userName, contactNumber, currentLocation, locationHistory,
              isEmergency, emergencyType, emergencyMessage, isSharing, sharingStartedAt,
              lastActiveAt, isOnline, lastSignalAt, helpRequestId)
    }

    constructor Load(s: Session)
      ensures Record() == s
    {
      sessionId := s.sessionId;
      userName := s.userName;
      contactNumber := s.contactNumber;
      currentLocation := s.currentLocation;
      locationHistory := s.locationHistory;
      isEmergency := s.isEmergency;
      emergencyType := s.emergencyType;
      emergencyMessage := s.emergencyMessage;
      isSharing := s.isSharing;
      sharingStartedAt := s.sharingStartedAt;
      lastActiveAt := s.lastActiveAt;
      isOnline := s.isOnline;
      lastSignalAt := s.lastSignalAt;
      helpRequestId := s.helpRequestId;
    }

    /**
     * `addLocationPoint`: the point becomes the current location and is pushed
     * onto the history, which is then cut back to its newest MaxHistory points;
     * the signal is refreshed. Sharing, emergency and identity are untouched.
     */
    method AddLocationPoint(point: Point, now: int)
      modifies this
      ensures Record() == WithPoint(old(Record()), point, now)
    {
      var history := locationHistory + [point];
      if |history| > MaxHistory {
        history := Seqs.JsSlice(history, -MaxHistory);
      }
      assert history == BoundedAppend(locationHistory, point);
      currentLocation, locationHistory := point, history;
      lastActiveAt, lastSignalAt, isOnline := now, now, true;
    }
  }

  /** The `Location` collection, in natural order. */
  class LocationCollection {
    var rows: seq<Session>

    ghost predicate Valid()
      reads this
    {
      ValidRows(rows)
    }

    constructor ()
      ensures rows == [] && Valid()
    {
      rows := [];
    }

    /** `findActiveSessions`: exactly the sessions that are sharing and online. */
    function FindActiveSessions(): (r: seq<Session>)
      reads this
      ensures forall s :: s in r <==> s in rows && s.isSharing && s.isOnline
      ensures |r| <= |rows|
    {
      Seqs.Filter(rows, IsActive)
    }

    /** `findEmergencySessions`: exactly the sessions that are sharing and in an emergency. */
    function FindEmergencySessions(): (r: seq<Session>)
      reads this
      ensures forall s :: s in r <==> s in rows && s.isSharing && s.isEmergency
      ensures |r| <= |rows|
    {
      Seqs.Filter(rows, IsSharedEmergency)
    }
  }
}
