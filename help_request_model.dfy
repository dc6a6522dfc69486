/**
 * The help-request record (server/src/models/HelpRequest.js): the reported
 * emergency, its computed urgency and media, and the admin triage fields.
 */
module HelpRequestModel {
  import opened Wrappers
  import opened ObjectIds
  import Seqs

  /** The `status` enumeration; `pending` is the default. */
  datatype HelpStatus = Pending | Verified | Assigned | InProgress | Resolved | Rejected {
    function Name(): string {
      match this
      case Pending => "pending"
      case Verified => "verified"
      case Assigned => "assigned"
      case InProgress => "in-progress"
      case Resolved => "resolved"
      case Rejected => "rejected"
    }
  }

  /** The `validStatuses` list, in the order the handler lists it. */
  const StatusNames: seq<string> := ["pending", "verified", "assigned", "in-progress", "resolved", "rejected"]

  /** The status a string names, if it is one of `StatusNames`. */
  function ParseStatus(s: string): (r: Option<HelpStatus>)
    ensures r.Some? <==> s in StatusNames
    ensures r.Some? ==> r.value.Name() == s
  {
    if s == "pending" then Some(Pending)
    else if s == "verified" then Some(Verified)
    else if s == "assigned" then Some(Assigned)
    else if s == "in-progress" then Some(InProgress)
    else if s == "resolved" then Some(Resolved)
    else if s == "rejected" then Some(Rejected)
    else None
  }

  /** Every status has a distinct name that parses back to it. */
  lemma StatusNameRoundTrip(st: HelpStatus)
    ensures st.Name() in StatusNames
    ensures ParseStatus(st.Name()) == Some(st)
  {
  }

  /** The `urgency` enumeration; `low` is the schema default. */
  datatype Urgency = Low | Medium | High {
    function Name(): string {
      match this
      case Low => "low"
      case Medium => "medium"
      case High => "high"
    }
  }

  /** A stored voice message or image: decoded bytes, a MIME type and the byte count. */
  datatype Media = Media(data: seq<bv8>, mimeType: string, size: nat)

  datatype HelpRequest = HelpRequest(
    id: ObjectId,
    name: Option<string>,
    location: Option<string>,
    contactNumber: Option<string>,
    realLocation: Option<string>,
    disasterType: Option<string>,
    message: Option<string>,
    urgency: Urgency,
    weatherCondition: string,
    voiceMessage: Option<Media>,
    images: seq<Media>,
    status: HelpStatus,
    assignedTo: Option<ObjectId>,
    adminNotes: Option<string>,
    rejectionReason: Option<string>,
    resolvedAt: Option<int>,
    publishedToSocial: Option<bool>,
    createdAt: int)

  /** Matches of `findById(id)`. */
  function HasId(id: ObjectId): HelpRequest -> bool {
    (h: HelpRequest) => h.id == id
  }

  /** Ids are unique. */
  ghost predicate ValidRows(rows: seq<HelpRequest>) {
    forall i, j :: 0 <= i < j < |rows| ==> rows[i].id != rows[j].id
  }

  /** Replacing a request by one with the same id keeps ids unique. */
  lemma ReplaceKeepsValid(rows: seq<HelpRequest>, k: nat, h: HelpRequest)
    requires ValidRows(rows) && k < |rows| && h.id == rows[k].id
    ensures ValidRows(rows[k := h])
  {
    var after := rows[k := h];
    forall i | 0 <= i < |after|
      ensures after[i].id == rows[i].id
    {
    }
  }

  /** The `HelpRequest` collection, in natural order. */
  class HelpRequestCollection {
    var rows: seq<HelpRequest>

    ghost predicate Valid()
      reads this
    {
      ValidRows(rows)
    }

    constructor ()
      ensures rows == [] && Valid()
    {
      rows := [];
    }

    /** The position of the request with this id, if there is one. */
    function IndexOf(id: ObjectId): (r: Option<nat>)
      reads this
      ensures r.Some? ==> r.value < |rows| && rows[r.value].id == id
      ensures r.None? <==> forall i :: 0 <= i < |rows| ==> rows[i].id != id
    {
      Seqs.FindFirst(rows, HasId(id))
    }

    /** With unique ids, the position found is the only one holding that id. */
    lemma IndexOfUnique(id: ObjectId, k: nat)
      requires Valid()
      requires k < |rows| && rows[k].id == id
      ensures IndexOf(id) == Some(k)
    {
      assert IndexOf(id).Some?;
    }
  }
}
