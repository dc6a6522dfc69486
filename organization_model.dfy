/**
 * The organisation record (server/src/models/ngoModel.js): the NGO linked to
 * a user account, its approval and availability, and the requests assigned
 * to it.
 */
module OrganizationModel {
  import opened Wrappers
  import opened ObjectIds
  import Seqs

  /** The `approvalStatus` enumeration; `pending` is the schema default. */
  datatype Approval = ApprovalPending | Approved | ApprovalRejected | Suspended

  /** The `availabilityStatus` enumeration; `unavailable` is the schema default. */
  datatype Availability = Available | Busy | Unavailable | Offline {
    function Name(): string {
      match this
      case Available => "available"
      case Busy => "busy"
      case Unavailable => "unavailable"
      case Offline => "offline"
    }
  }

  datatype Address = Address(
    street: Option<string>,
    city: Option<string>,
    province: Option<string>,
    postalCode: Option<string>)

  datatype Organization = Organization(
    id: ObjectId,
    userId: ObjectId,
    organizationName: string,
    registrationNumber: Option<string>,
    kind: string,
    contactPerson: string,
    officialEmail: string,
    phone: string,
    address: Option<Address>,
    capabilities: seq<string>,
    serviceArea: seq<string>,
    availabilityStatus: Availability,
    approvalStatus: Approval,
    approvedBy: Option<ObjectId>,
    approvedAt: Option<int>,
    assignedRequests: seq<ObjectId>,
    completedTasks: int)

  function HasId(id: ObjectId): Organization -> bool {
    (o: Organization) => o.id == id
  }

  function HasUserId(userId: ObjectId): Organization -> bool {
    (o: Organization) => o.userId == userId
  }

  function HasRegistrationNumber(n: Option<string>): Organization -> bool {
    (o: Organization) => o.registrationNumber == n
  }

  /**
   * Ids are unique; the unique indexes allow one organisation per user and
   * one per registration number (a missing number counts as a value too);
   * no request is listed twice in an organisation's assignments.
   */
  ghost predicate ValidRows(rows: seq<Organization>) {
    && (forall i, j :: 0 <= i < j < |rows| ==> rows[i].id != rows[j].id)
    && (forall i, j :: 0 <= i < j < |rows| ==> rows[i].userId != rows[j].userId)
    && (forall i, j :: 0 <= i < j < |rows| ==> rows[i].registrationNumber != rows[j].registrationNumber)
    && (forall i :: 0 <= i < |rows| ==> Seqs.NoDuplicates(rows[i].assignedRequests))
  }

  /** The keys the collection's invariant is about. */
  predicate SameKeys(a: Organization, b: Organization) {
    a.id == b.id && a.userId == b.userId && a.registrationNumber == b.registrationNumber
  }

  /** Replacing one organisation by one with the same keys keeps the invariant. */
  lemma UpdateKeepsValid(rows: seq<Organization>, j: nat, o: Organization)
    requires ValidRows(rows) && j < |rows|
    requires SameKeys(rows[j], o) && Seqs.NoDuplicates(o.assignedRequests)
    ensures ValidRows(rows[j := o])
  {
    var after := rows[j := o];
    forall i | 0 <= i < |after|
      ensures SameKeys(after[i], rows[i])
    {
    }
  }

  /** Appending an organisation whose keys are all new keeps the invariant. */
  lemma AppendKeepsValid(rows: seq<Organization>, o: Organization)
    requires ValidRows(rows) && Seqs.NoDuplicates(o.assignedRequests)
    requires forall i :: 0 <= i < |rows| ==> rows[i].id != o.id
    requires forall i :: 0 <= i < |rows| ==> rows[i].userId != o.userId
    requires forall i :: 0 <= i < |rows| ==> rows[i].registrationNumber != o.registrationNumber
    ensures ValidRows(rows + [o])
  {
    var after := rows + [o];
    forall i | 0 <= i < |rows|
      ensures after[i] == rows[i]
    {
    }
  }

  /** The `Organization` collection, in natural order. */
  class OrganizationCollection {
    var rows: seq<Organization>

    ghost predicate Valid()
      reads this
    {
      ValidRows(rows)
    }

    constructor ()
      ensures rows == [] && Valid()
    {
      rows := [];
    }

    /** The position of the organisation with this id, if there is one. */
    function IndexOf(id: ObjectId): (r: Option<nat>)
      reads this
      ensures r.Some? ==> r.value < |rows| && rows[r.value].id == id
      ensures r.None? <==> forall i :: 0 <= i < |rows| ==> rows[i].id != id
    {
      Seqs.FindFirst(rows, HasId(id))
    }
  }
}
