/**
 * The availability enumeration shared by volunteer and NGO profiles
 * (server/src/models/userProfileModel/VolunteerProfile.js and NgoProfile.js).
 */
module ProfileStatus {
  import opened Wrappers

  datatype Availability = Available | Busy | Offline {
    function Name(): string {
      match this
      case Available => "AVAILABLE"
      case Busy => "BUSY"
      case Offline => "OFFLINE"
    }
  }

  /** The list `updateAvailabilityStatus` accepts. */
  const AvailabilityNames: seq<string> := ["AVAILABLE", "BUSY", "OFFLINE"]

  function ParseAvailability(s: string): (r: Option<Availability>)
    ensures r.Some? <==> s in AvailabilityNames
    ensures r.Some? ==> r.value.Name() == s
  {
    if s == "AVAILABLE" then Some(Available)
    else if s == "BUSY" then Some(Busy)
    else if s == "OFFLINE" then Some(Offline)
    else None
  }

  lemma AvailabilityRoundTrip(a: Availability)
    ensures a.Name() in AvailabilityNames
    ensures ParseAvailability(a.Name()) == Some(a)
  {
  }

  /** `availabilityStatus || "OFFLINE"` followed by the schema's enum check. */
  function AvailabilityOrOffline(s: Option<string>): (r: Option<Availability>)
    ensures (s.None? || s == Some("")) ==> r == Some(Offline)
    ensures s.Some? && s.value != "" ==> r == ParseAvailability(s.value)
  {
    if s.None? || s.value == "" then Some(Offline) else ParseAvailability(s.value)
  }
}
