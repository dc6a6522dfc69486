/**
 * Admin triage of help requests (server/src/controllers/adminHelpController.js):
 * the PATCH of admin fields, assignment to an organisation, rejection,
 * verification, resolution, the filtered and paginated listing, and the
 * lookup by id.
 */
module AdminHelp {
  import opened Wrappers
  import opened ObjectIds
  import opened HelpRequestModel
  import OM = OrganizationModel
  import Seqs
  import JsText

  datatype AdminError =
    | InvalidRequestId                              // 400 "Invalid help request ID"
    | RequestNotFound                               // 404 "Help request not found"
    | InvalidStatus                                 // 400 "Invalid status. Allowed values: ..."
    | InvalidOrganizationId                         // 400 "Invalid organization ID"
    | OrganizationIdRequired                        // 400 "Valid organization ID is required"
    | OrganizationNotFound                          // 404 "Organization not found"
    | UnapprovedOrganization                        // 400 "Cannot assign to unapproved organization"
    | OrganizationUnavailable(availability: OM.Availability)  // 400 "Organization is currently ..."
    | ReasonRequired                                // 400 "Rejection reason is required"
    | CannotVerify(current: HelpStatus)             // 400 "Cannot verify request with status: ..."
  {
    function Status(): int {
      if this == RequestNotFound || this == OrganizationNotFound then 404 else 400
    }
  }

  /** The PATCH body: each field may be left out, be `null`, or carry a value. */
  datatype HelpPatch = HelpPatch(
    status: Field<string>,
    assignedTo: Field<string>,
    adminNotes: Field<string>,
    rejectionReason: Field<string>,
    publishedToSocial: Field<bool>)

  /** A stored field after `updateData`: left out keeps it, `null` clears it, a value replaces it. */
  function Patched<T>(f: Field<T>, current: Option<T>): Option<T> {
    match f
    case Absent => current
    case Null => None
    case Given(v) => Some(v)
  }

  /** A status field the handler accepts: left out, or one of the six names. */
  predicate StatusAccepted(f: Field<string>) {
    f.Absent? || (f.Given? && ParseStatus(f.value).Some?)
  }

  /** `!status`: after validation, only a status that was left out is falsy. */
  predicate StatusFalsy(f: Field<string>) {
    !(f.Given? && f.value != "")
  }

  /** The organisation `o` names, looked up by id. */
  predicate IsApprovedOrganization(orgs: seq<OM.Organization>, o: ObjectId) {
    var j := Seqs.FindFirst(orgs, OM.HasId(o));
    j.Some? && orgs[j.value].approvalStatus == OM.Approved
  }

  /**
   * `updateHelpRequest`: the request id is checked, then the status, then the
   * organisation; any failure leaves the collection unchanged. On success only
   * the supplied fields change, a `resolved` status stamps `resolvedAt`, and
   * assigning an organisation without a status moves the request to `assigned`.
   */
  method UpdateHelpRequest(store: HelpRequestCollection, orgs: OM.OrganizationCollection,
                           id: ObjectId, patch: HelpPatch, now: int)
    returns (r: Result<HelpRequest, AdminError>)
    requires store.Valid()
    modifies store
    ensures store.Valid()
    ensures r.Failure? ==> store.rows == old(store.rows)
    ensures r == Failure(InvalidRequestId) <==> !IsValid(id)
    ensures r == Failure(RequestNotFound) <==> IsValid(id) && old(store.IndexOf(id)).None?
    ensures r == Failure(InvalidStatus) <==>
      IsValid(id) && old(store.IndexOf(id)).Some? && !StatusAccepted(patch.status)
    ensures r == Failure(InvalidOrganizationId) <==>
      IsValid(id) && old(store.IndexOf(id)).Some? && StatusAccepted(patch.status)
      && patch.assignedTo.Given? && !IsValid(patch.assignedTo.value)
    ensures r == Failure(OrganizationNotFound) <==>
      IsValid(id) && old(store.IndexOf(id)).Some? && StatusAccepted(patch.status)
      && patch.assignedTo.Given? && IsValid(patch.assignedTo.value)
      && orgs.IndexOf(patch.assignedTo.value).None?
    ensures r == Failure(UnapprovedOrganization) <==>
      IsValid(id) && old(store.IndexOf(id)).Some? && StatusAccepted(patch.status)
      && patch.assignedTo.Given? && IsValid(patch.assignedTo.value)
      && orgs.IndexOf(patch.assignedTo.value).Some?
      && !IsApprovedOrganization(orgs.rows, patch.assignedTo.value)
    ensures r.Success? <==>
      IsValid(id) && old(store.IndexOf(id)).Some? && StatusAccepted(patch.status)
      && (patch.assignedTo.Given? ==>
            IsValid(patch.assignedTo.value) && orgs.IndexOf(patch.assignedTo.value).Some?
            && IsApprovedOrganization(orgs.rows, patch.assignedTo.value))
    ensures r.Success? ==>
      var k := old(store.IndexOf(id)).value;
      var h := old(store.rows)[k];
      && store.rows == old(store.rows)[k := r.value]
      && (patch.status.Given? ==> Some(r.value.status) == ParseStatus(patch.status.value))
      && (patch.status.Absent? && patch.assignedTo.Given? ==> r.value.status == Assigned)
      && (patch.status.Absent? && !patch.assignedTo.Given? ==> r.value.status == h.status)
      && r.value.resolvedAt == (if patch.status == Given("resolved") then Some(now) else h.resolvedAt)
      && r.value.assignedTo == Patched(patch.assignedTo, h.assignedTo)
      && r.value.adminNotes == Patched(patch.adminNotes, h.adminNotes)
      && r.value.rejectionReason == Patched(patch.rejectionReason, h.rejectionReason)
      && r.value.publishedToSocial == Patched(patch.publishedToSocial, h.publishedToSocial)
      && r.value.(status := h.status, resolvedAt := h.resolvedAt, assignedTo := h.assignedTo,
                  adminNotes := h.adminNotes, rejectionReason := h.rejectionReason,
                  publishedToSocial := h.publishedToSocial) == h
  {
    if !IsValid(id) {
      return Failure(InvalidRequestId);
    }
    var found := store.IndexOf(id);
    if found.None? {
      return Failure(RequestNotFound);
    }
    var k := found.value;
    var helpRequest := store.rows[k];

    // updateData, one key at a time
    var status: Option<HelpStatus> := None;
    var resolvedAt: Option<int> := None;
    if !patch.status.Absent? {
      var parsed := if patch.status.Given? then ParseStatus(patch.status.value) else None;
      if parsed.None? {
        return Failure(InvalidStatus);
      }
      status := parsed;
      if patch.status.value == "resolved" {
        resolvedAt := Some(now);
      }
    }
    var assignedTo: Option<Option<ObjectId>> := None;
    if !patch.assignedTo.Absent? {
      if patch.assignedTo.Null? {
        assignedTo := Some(None);
      } else {
        var o := patch.assignedTo.value;
        if !IsValid(o) {
          return Failure(InvalidOrganizationId);
        }
        var j := orgs.IndexOf(o);
        if j.None? {
          return Failure(OrganizationNotFound);
        }
        if orgs.rows[j.value].approvalStatus != OM.Approved {
          return Failure(UnapprovedOrganization);
        }
        assignedTo := Some(Some(o));
        if StatusFalsy(patch.status) {
          status := Some(Assigned);
        }
      }
    }

    var updated := helpRequest.(
      status := status.GetOr(helpRequest.status),
      resolvedAt := if resolvedAt.Some? then resolvedAt else helpRequest.resolvedAt,
      assignedTo := assignedTo.GetOr(helpRequest.assignedTo),
      adminNotes := Patched(patch.adminNotes, helpRequest.adminNotes),
      rejectionReason := Patched(patch.rejectionReason, helpRequest.rejectionReason),
      publishedToSocial := Patched(patch.publishedToSocial, helpRequest.publishedToSocial));
    ReplaceKeepsValid(store.rows, k, updated);
    store.rows := store.rows[k := updated];
    r := Success(updated);
  }

  /** The answer to an assignment: the updated request and the organisation's name. */
  datatype Assignment = Assignment(request: HelpRequest, organizationName: string)

  /**
   * `assignHelpRequest`: both ids are checked, then the request, then the
   * organisation, which must be approved and neither `unavailable` nor
   * `offline`. On success the request is `assigned` to it and the request id
   * is recorded in the organisation's assignments exactly once, however many
   * times it is assigned.
   */
  method AssignHelpRequest(store: HelpRequestCollection, orgs: OM.OrganizationCollection,
                           id: ObjectId, organizationId: Option<string>)
    returns (r: Result<Assignment, AdminError>)
    requires store.Valid() && orgs.Valid()
    modifies store, orgs
    ensures store.Valid() && orgs.Valid()
    ensures r.Failure? ==> store.rows == old(store.rows) && orgs.rows == old(orgs.rows)
    ensures r == Failure(InvalidRequestId) <==> !IsValid(id)
    ensures r == Failure(OrganizationIdRequired) <==>
      IsValid(id) && !(JsText.Truthy(organizationId) && IsValid(organizationId.value))
    ensures r == Failure(RequestNotFound) <==>
      IsValid(id) && JsText.Truthy(organizationId) && IsValid(organizationId.value)
      && old(store.IndexOf(id)).None?
    ensures r == Failure(OrganizationNotFound) <==>
      IsValid(id) && JsText.Truthy(organizationId) && IsValid(organizationId.value)
      && old(store.IndexOf(id)).Some? && old(orgs.IndexOf(organizationId.value)).None?
    ensures r == Failure(UnapprovedOrganization) <==>
      IsValid(id) && JsText.Truthy(organizationId) && IsValid(organizationId.value)
      && old(store.IndexOf(id)).Some? && old(orgs.IndexOf(organizationId.value)).Some?
      && old(orgs.rows)[old(orgs.IndexOf(organizationId.value)).value].approvalStatus != OM.Approved
    ensures r.Failure? && r.error.OrganizationUnavailable? ==>
      var a := r.error.availability;
      && (a == OM.Unavailable || a == OM.Offline)
      && old(orgs.rows)[old(orgs.IndexOf(organizationId.value)).value].availabilityStatus == a
    ensures (r.Failure? && r.error.OrganizationUnavailable?) <==>
      IsValid(id) && JsText.Truthy(organizationId) && IsValid(organizationId.value)
      && old(store.IndexOf(id)).Some? && old(orgs.IndexOf(organizationId.value)).Some?
      && var org := old(orgs.rows)[old(orgs.IndexOf(organizationId.value)).value];
         org.approvalStatus == OM.Approved
         && (org.availabilityStatus == OM.Unavailable || org.availabilityStatus == OM.Offline)
    ensures r.Success? <==>
      IsValid(id) && JsText.Truthy(organizationId) && IsValid(organizationId.value)
      && old(store.IndexOf(id)).Some? && old(orgs.IndexOf(organizationId.value)).Some?
      && var org := old(orgs.rows)[old(orgs.IndexOf(organizationId.value)).value];
         org.approvalStatus == OM.Approved
         && org.availabilityStatus != OM.Unavailable && org.availabilityStatus != OM.Offline
    ensures r.Success? ==>
      var o := organizationId.value;
      var k := old(store.IndexOf(id)).value;
      var j := old(orgs.IndexOf(o)).value;
      var org := old(orgs.rows)[j];
      && org.approvalStatus == OM.Approved
      && org.availabilityStatus != OM.Unavailable && org.availabilityStatus != OM.Offline
      && r.value.request == old(store.rows)[k].(assignedTo := Some(o), status := Assigned)
      && store.rows == old(store.rows)[k := r.value.request]
      && orgs.rows == old(orgs.rows)[j := org.(assignedRequests := Seqs.AddOnce(org.assignedRequests, id))]
      && multiset(orgs.rows[j].assignedRequests)[id] == 1
      && r.value.organizationName == org.organizationName
  {
    if !IsValid(id) {
      return Failure(InvalidRequestId);
    }
    if !JsText.Truthy(organizationId) || !IsValid(organizationId.value) {
      return Failure(OrganizationIdRequired);
    }
    var o := organizationId.value;
    var found := store.IndexOf(id);
    if found.None? {
      return Failure(RequestNotFound);
    }
    var k := found.value;
    var foundOrg := orgs.IndexOf(o);
    if foundOrg.None? {
      return Failure(OrganizationNotFound);
    }
    var j := foundOrg.value;
    var organization := orgs.rows[j];
    if organization.approvalStatus != OM.Approved {
      return Failure(UnapprovedOrganization);
    }
    if organization.availabilityStatus == OM.Unavailable || organization.availabilityStatus == OM.Offline {
      return Failure(OrganizationUnavailable(organization.availabilityStatus));
    }

    var helpRequest := store.rows[k].(assignedTo := Some(o), status := Assigned);
    ReplaceKeepsValid(store.rows, k, helpRequest);
    store.rows := store.rows[k := helpRequest];

    var requests := Seqs.AddOnce(organization.assignedRequests, id);
    if requests != organization.assignedRequests {
      OM.UpdateKeepsValid(orgs.rows, j, organization.(assignedRequests := requests));
      orgs.rows := orgs.rows[j := organization.(assignedRequests := requests)];
    }
    Seqs.OccursOnce(orgs.rows[j].assignedRequests, id);
    r := Success(Assignment(helpRequest, organization.organizationName));
  }

  /**
   * `rejectHelpRequest`: a reason that is missing or only white space is
   * refused before the lookup; otherwise the request becomes `rejected` with
   * that reason.
   */
  method RejectHelpRequest(store: HelpRequestCollection, id: ObjectId, reason: Option<string>)
    returns (r: Result<HelpRequest, AdminError>)
    requires store.Valid()
    modifies store
    ensures store.Valid()
    ensures r.Failure? ==> store.rows == old(store.rows)
    ensures r == Failure(InvalidRequestId) <==> !IsValid(id)
    ensures r == Failure(ReasonRequired) <==> IsValid(id) && (reason.None? || JsText.IsBlank(reason.value))
    ensures r == Failure(RequestNotFound) <==>
      IsValid(id) && reason.Some? && !JsText.IsBlank(reason.value) && old(store.IndexOf(id)).None?
    ensures r.Success? <==>
      IsValid(id) && reason.Some? && !JsText.IsBlank(reason.value) && old(store.IndexOf(id)).Some?
    ensures r.Success? ==>
      var k := old(store.IndexOf(id)).value;
      && r.value == old(store.rows)[k].(status := Rejected, rejectionReason := reason)
      && store.rows == old(store.rows)[k := r.value]
  {
    if !IsValid(id) {
      return Failure(InvalidRequestId);
    }
    if !JsText.Truthy(reason) || JsText.Trim(reason.value) == "" {
      if reason.Some? {
        JsText.TrimEmptyIffBlank(reason.value);
      }
      return Failure(ReasonRequired);
    }
    JsText.TrimEmptyIffBlank(reason.value);
    var found := store.IndexOf(id);
    if found.None? {
      return Failure(RequestNotFound);
    }
    var k := found.value;
    var helpRequest := store.rows[k].(status := Rejected, rejectionReason := reason);
    ReplaceKeepsValid(store.rows, k, helpRequest);
    store.rows := store.rows[k := helpRequest];
    r := Success(helpRequest);
  }

  /** `verifyHelpRequest`: only a `pending` request can be verified; others are refused unchanged. */
  method VerifyHelpRequest(store: HelpRequestCollection, id: ObjectId)
    returns (r: Result<HelpRequest, AdminError>)
    requires store.Valid()
    modifies store
    ensures store.Valid()
    ensures r.Failure? ==> store.rows == old(store.rows)
    ensures r == Failure(InvalidRequestId) <==> !IsValid(id)
    ensures r == Failure(RequestNotFound) <==> IsValid(id) && old(store.IndexOf(id)).None?
    ensures (r.Failure? && r.error.CannotVerify?) <==>
      IsValid(id) && old(store.IndexOf(id)).Some?
      && old(store.rows)[old(store.IndexOf(id)).value].status != Pending
    ensures r.Failure? && r.error.CannotVerify? ==>
      r.error.current == old(store.rows)[old(store.IndexOf(id)).value].status
    ensures r.Success? ==>
      var k := old(store.IndexOf(id)).value;
      && old(store.rows)[k].status == Pending
      && r.value == old(store.rows)[k].(status := Verified)
      && store.rows == old(store.rows)[k := r.value]
    ensures r.Success? <==>
      IsValid(id) && old(store.IndexOf(id)).Some?
      && old(store.rows)[old(store.IndexOf(id)).value].status == Pending
  {
    if !IsValid(id) {
      return Failure(InvalidRequestId);
    }
    var found := store.IndexOf(id);
    if found.None? {
      return Failure(RequestNotFound);
    }
    var k := found.value;
    if store.rows[k].status != Pending {
      return Failure(CannotVerify(store.rows[k].status));
    }
    var helpRequest := store.rows[k].(status := Verified);
    ReplaceKeepsValid(store.rows, k, helpRequest);
    store.rows := store.rows[k := helpRequest];
    r := Success(helpRequest);
  }

  /**
   * The organisations after `$inc: { completedTasks: 1 }` on the one with id
   * `assignee`: that one gains a task and every other is unchanged.
   */
  function Credited(rows: seq<OM.Organization>, assignee: Option<ObjectId>): (r: seq<OM.Organization>)
    ensures |r| == |rows|
    ensures forall i :: 0 <= i < |rows| ==>
      r[i] == rows[i].(completedTasks :=
        rows[i].completedTasks + (if assignee == Some(rows[i].id) then 1 else 0))
  {
    seq(|rows|, i requires 0 <= i < |rows| =>
      rows[i].(completedTasks := rows[i].completedTasks + (if assignee == Some(rows[i].id) then 1 else 0)))
  }

  /** With unique ids, crediting the organisation at `j` is a one-place update. */
  lemma CreditedAt(rows: seq<OM.Organization>, j: nat)
    requires OM.ValidRows(rows) && j < |rows|
    ensures Credited(rows, Some(rows[j].id)) == rows[j := rows[j].(completedTasks := rows[j].completedTasks + 1)]
  {
    var a := Credited(rows, Some(rows[j].id));
    var b := rows[j := rows[j].(completedTasks := rows[j].completedTasks + 1)];
    forall i | 0 <= i < |rows|
      ensures a[i] == b[i]
    {
      if i != j {
        assert rows[i].id != rows[j].id by {
          if i < j {} else {}
        }
      }
    }
  }

  /** Crediting an id no organisation has changes nothing. */
  lemma CreditedNobody(rows: seq<OM.Organization>, assignee: Option<ObjectId>)
    requires forall i :: 0 <= i < |rows| ==> assignee != Some(rows[i].id)
    ensures Credited(rows, assignee) == rows
  {
    var a := Credited(rows, assignee);
    assert forall i :: 0 <= i < |rows| ==> a[i] == rows[i];
  }

  /**
   * `Organization.findByIdAndUpdate(assignedTo, { $inc: { completedTasks: 1 } })`,
   * skipped when the request has no organisation.
   */
  method CreditAssignee(orgs: OM.OrganizationCollection, assignee: Option<ObjectId>)
    requires orgs.Valid()
    modifies orgs
    ensures orgs.Valid()
    ensures orgs.rows == Credited(old(orgs.rows), assignee)
  {
    if assignee.Some? {
      var j := orgs.IndexOf(assignee.value);
      if j.Some? {
        var org := orgs.rows[j.value];
        CreditedAt(orgs.rows, j.value);
        OM.UpdateKeepsValid(orgs.rows, j.value, org.(completedTasks := org.completedTasks + 1));
        orgs.rows := orgs.rows[j.value := org.(completedTasks := org.completedTasks + 1)];
      } else {
        CreditedNobody(orgs.rows, assignee);
      }
    } else {
      CreditedNobody(orgs.rows, assignee);
    }
  }

  /**
   * `resolveHelpRequest`: whatever its status, the request becomes `resolved`
   * at `now`, keeping its notes unless new ones are given; the assigned
   * organisation, if there is one and it exists, gains exactly one completed
   * task, and no other organisation changes.
   */
  method ResolveHelpRequest(store: HelpRequestCollection, orgs: OM.OrganizationCollection,
                            id: ObjectId, adminNotes: Option<string>, now: int)
    returns (r: Result<HelpRequest, AdminError>)
    requires store.Valid() && orgs.Valid()
    modifies store, orgs
    ensures store.Valid() && orgs.Valid()
    ensures r.Failure? ==> store.rows == old(store.rows) && orgs.rows == old(orgs.rows)
    ensures r == Failure(InvalidRequestId) <==> !IsValid(id)
    ensures r == Failure(RequestNotFound) <==> IsValid(id) && old(store.IndexOf(id)).None?
    ensures r.Success? <==> IsValid(id) && old(store.IndexOf(id)).Some?
    ensures r.Success? ==>
      var k := old(store.IndexOf(id)).value;
      var h := old(store.rows)[k];
      && r.value == h.(status := Resolved, resolvedAt := Some(now),
                       adminNotes := if JsText.Truthy(adminNotes) then adminNotes else h.adminNotes)
      && store.rows == old(store.rows)[k := r.value]
      && orgs.rows == Credited(old(orgs.rows), h.assignedTo)
  {
    if !IsValid(id) {
      return Failure(InvalidRequestId);
    }
    var found := store.IndexOf(id);
    if found.None? {
      return Failure(RequestNotFound);
    }
    var k := found.value;
    var helpRequest := store.rows[k].(status := Resolved, resolvedAt := Some(now));
    if JsText.Truthy(adminNotes) {
      helpRequest := helpRequest.(adminNotes := adminNotes);
    }
    ReplaceKeepsValid(store.rows, k, helpRequest);
    store.rows := store.rows[k := helpRequest];
    CreditAssignee(orgs, helpRequest.assignedTo);
    r := Success(helpRequest);
  }

  /** The listing's page when the query gives none. */
  const DefaultPage := 1

  /** The listing's page size when the query gives none. */
  const DefaultPageSize := 20

  /**
   * The query string of the admin listing; `page` and `limit` after `parseInt`,
   * `None` when the query leaves them out.
   */
  datatype ListQuery = ListQuery(
    status: Option<string>,
    disasterType: Option<string>,
    urgency: Option<string>,
    assignedTo: Option<string>,
    page: Option<int>,
    limit: Option<int>)
  {
    /** `page = 1` in the destructuring of `req.query`. */
    function PageNumber(): int {
      page.GetOr(DefaultPage)
    }

    /** `limit = 20` in the destructuring of `req.query`. */
    function PageSize(): int {
      limit.GetOr(DefaultPageSize)
    }
  }

  datatype Pagination = Pagination(total: nat, page: int, limit: int, totalPages: nat)

  datatype Listing = Listing(data: seq<HelpRequest>, pagination: Pagination)

  /**
   * The `assignedTo` filter: "unassigned" matches requests without an
   * organisation, a valid id matches that organisation, anything else is ignored.
   */
  predicate AssigneeMatches(a: Option<string>, h: HelpRequest) {
    if !JsText.Truthy(a) then true
    else if a.value == "unassigned" then h.assignedTo.None?
    else if IsValid(a.value) then h.assignedTo == Some(a.value)
    else true
  }

  /** The `filter` the listing builds: each truthy query value is an equality test. */
  function Matches(q: ListQuery): HelpRequest -> bool {
    (h: HelpRequest) =>
      && (JsText.Truthy(q.status) ==> h.status.Name() == q.status.value)
      && (JsText.Truthy(q.disasterType) ==> h.disasterType == q.disasterType)
      && (JsText.Truthy(q.urgency) ==> h.urgency.Name() == q.urgency.value)
      && AssigneeMatches(q.assignedTo, h)
  }

  function CreatedAt(h: HelpRequest): int {
    h.createdAt
  }

  /** `Math.ceil(a / b)`. */
  function CeilDiv(a: nat, b: nat): (r: nat)
    requires b >= 1
    ensures a == 0 <==> r == 0
    ensures a > 0 ==> (r - 1) * b < a <= r * b
    decreases a
  {
    if a == 0 then 0
    else if a <= b then 1
    else
      var rest := CeilDiv(a - b, b);
      assert (rest + 1 - 1) * b == (rest - 1) * b + b;
      assert (rest + 1) * b == rest * b + b;
      rest + 1
  }

  /**
   * `.skip(skip).limit(limit)` on an ordered result: the items from position
   * `skip` on, at most `limit` of them, where a limit of 0 means no limit.
   */
  function SkipLimit<T>(s: seq<T>, skip: nat, limit: nat): (r: seq<T>)
    ensures limit >= 1 ==> |r| <= limit
    ensures skip >= |s| ==> r == []
    ensures skip < |s| && limit == 0 ==> r == s[skip..]
    ensures skip < |s| && limit >= 1 ==> r == s[skip..Seqs.Min(skip + limit, |s|)]
  {
    if skip >= |s| then []
    else if limit == 0 then s[skip..]
    else s[skip..Seqs.Min(skip + limit, |s|)]
  }

  /**
   * `getAdminHelpRequests`: page `page` of the matching requests, newest
   * first, with the total match count and the number of pages.
   */
  function GetAdminHelpRequests(store: HelpRequestCollection, q: ListQuery): (r: Listing)
    requires q.PageNumber() >= 1 && q.PageSize() >= 1
    reads store
    ensures forall h :: h in r.data ==> h in store.rows && Matches(q)(h)
    ensures forall i, j :: 0 <= i < j < |r.data| ==> r.data[i].createdAt >= r.data[j].createdAt
    ensures |r.data| <= q.PageSize()
    ensures r.pagination.total == |Seqs.Filter(store.rows, Matches(q))|
    ensures r.pagination.page == q.page.GetOr(DefaultPage)
    ensures r.pagination.limit == q.limit.GetOr(DefaultPageSize)
    ensures r.pagination.totalPages == CeilDiv(r.pagination.total, q.PageSize())
    ensures r.data == SkipLimit(Seqs.SortDesc(Seqs.Filter(store.rows, Matches(q)), CreatedAt),
                                PageStart(q.PageNumber(), q.PageSize()), q.PageSize())
  {
    var page := q.PageNumber();
    var limit := q.PageSize();
    var matching := Seqs.Filter(store.rows, Matches(q));
    var sorted := Seqs.SortDesc(matching, CreatedAt);
    var skip: nat := PageStart(page, limit);
    var data := SkipLimit(sorted, skip, limit);
    PageOfSorted(matching, sorted, data, skip, limit);
    Listing(data, Pagination(|matching|, page, limit, CeilDiv(|matching|, limit)))
  }

  /** The `skip` of page `page`: `(page - 1) * limit`. */
  function PageStart(page: int, limit: int): (r: nat)
    requires page >= 1 && limit >= 1
    ensures r == (page - 1) * limit
  {
    (page - 1) * limit
  }

  /**
   * A listing whose query gives neither `page` nor `limit` is page 1 of 20:
   * the 20 newest matches, or all of them when there are fewer.
   */
  lemma DefaultListingIsNewestTwenty(store: HelpRequestCollection, q: ListQuery)
    requires q.page.None? && q.limit.None?
    ensures var r := GetAdminHelpRequests(store, q);
      var sorted := Seqs.SortDesc(Seqs.Filter(store.rows, Matches(q)), CreatedAt);
      && r.pagination.page == 1 && r.pagination.limit == 20
      && r.data == sorted[..Seqs.Min(20, |sorted|)]
  {
    var sorted := Seqs.SortDesc(Seqs.Filter(store.rows, Matches(q)), CreatedAt);
    if |sorted| == 0 {
      assert sorted[..0] == [];
    }
  }

  /** A page of a sorted rearrangement holds only listed items, still in order. */
  lemma PageOfSorted(matching: seq<HelpRequest>, sorted: seq<HelpRequest>, data: seq<HelpRequest>,
                     skip: nat, limit: nat)
    requires multiset(sorted) == multiset(matching)
    requires Seqs.SortedDesc(sorted, CreatedAt)
    requires data == SkipLimit(sorted, skip, limit)
    ensures forall h :: h in data ==> h in matching
    ensures forall i, j :: 0 <= i < j < |data| ==> data[i].createdAt >= data[j].createdAt
  {
    forall h | h in data
      ensures h in matching
    {
      assert h in sorted;
      assert h in multiset(sorted);
    }
    forall i, j | 0 <= i < j < |data|
      ensures data[i].createdAt >= data[j].createdAt
    {
      assert data[i] == sorted[skip + i] && data[j] == sorted[skip + j];
      assert CreatedAt(sorted[skip + i]) >= CreatedAt(sorted[skip + j]);
    }
  }

  /** The listing cut into consecutive pages of `limit` items. */
  function Chunks<T>(s: seq<T>, limit: nat): seq<seq<T>>
    requires limit >= 1
    decreases |s|
  {
    if s == [] then []
    else if |s| <= limit then [s]
    else [s[..limit]] + Chunks(s[limit..], limit)
  }

  function Flatten<T>(ss: seq<seq<T>>): seq<T> {
    if ss == [] then [] else ss[0] + Flatten(ss[1..])
  }

  /** Cutting into pages loses nothing, duplicates nothing and keeps order. */
  lemma {:induction false} ChunksFlatten<T>(s: seq<T>, limit: nat)
    requires limit >= 1
    ensures Flatten(Chunks(s, limit)) == s
    decreases |s|
  {
    if s == [] {
    } else if |s| <= limit {
      assert Flatten([s]) == s + Flatten([]);
    } else {
      ChunksFlatten(s[limit..], limit);
      var cs := [s[..limit]] + Chunks(s[limit..], limit);
      assert cs[1..] == Chunks(s[limit..], limit);
      assert s[..limit] + s[limit..] == s;
    }
  }

  /** There are `totalPages` pages. */
  lemma {:induction false} ChunksCount<T>(s: seq<T>, limit: nat)
    requires limit >= 1
    ensures |Chunks(s, limit)| == CeilDiv(|s|, limit)
    decreases |s|
  {
    if s != [] && |s| > limit {
      ChunksCount(s[limit..], limit);
    }
  }

  /** Each page starts `limit` items after the one before it. */
  lemma PageOffset(prev: int, limit: int)
    ensures prev * limit == (prev - 1) * limit + limit
  {
  }

  /**
   * The skip arithmetic `(page - 1) * limit` selects exactly the page-th page,
   * for every page from 1 to `totalPages`.
   */
  lemma SkipLimitIsChunk<T>(s: seq<T>, limit: nat, page: nat)
    requires limit >= 1
    requires 1 <= page <= CeilDiv(|s|, limit)
    ensures page - 1 < |Chunks(s, limit)|
    ensures Chunks(s, limit)[page - 1] == SkipLimit(s, (page - 1) * limit, limit)
  {
    ChunksCount(s, limit);
    ChunkIsSkipLimit(s, limit, page - 1);
  }

  /** The `i`-th page, counting from 0, is what skipping `i * limit` items and taking `limit` gives. */
  lemma {:induction false} ChunkIsSkipLimit<T>(s: seq<T>, limit: nat, i: nat)
    requires limit >= 1 && i < |Chunks(s, limit)|
    ensures Chunks(s, limit)[i] == SkipLimit(s, i * limit, limit)
    decreases i
  {
    if i == 0 {
      FirstPage(s, limit);
    } else {
      LaterPage(s, limit);
      ChunkIsSkipLimit(s[limit..], limit, i - 1);
      NextPage(s, limit, i - 1, (i - 1) * limit);
      PageOffset(i, limit);
    }
  }

  /** If a page of the rest is a skip-and-limit of the rest, the page after it is one of the whole. */
  lemma NextPage<T>(s: seq<T>, limit: nat, i: nat, skip: nat)
    requires limit >= 1 && |s| > limit
    requires Chunks(s, limit)[1..] == Chunks(s[limit..], limit)
    requires i < |Chunks(s[limit..], limit)|
    requires Chunks(s[limit..], limit)[i] == SkipLimit(s[limit..], skip, limit)
    ensures i + 1 < |Chunks(s, limit)|
    ensures Chunks(s, limit)[i + 1] == SkipLimit(s, limit + skip, limit)
  {
    assert Chunks(s, limit)[i + 1] == Chunks(s[limit..], limit)[i];
    SuffixPage(s, limit, skip, limit);
  }

  /** With more than one page, the pages after the first are the pages of the rest. */
  lemma LaterPage<T>(s: seq<T>, limit: nat)
    requires limit >= 1 && |Chunks(s, limit)| >= 2
    ensures |s| > limit
    ensures Chunks(s, limit)[1..] == Chunks(s[limit..], limit)
  {
  }

  /** The first page is the first `limit` items, or all of them when there are fewer. */
  lemma FirstPage<T>(s: seq<T>, limit: nat)
    requires limit >= 1 && Chunks(s, limit) != []
    ensures Chunks(s, limit)[0] == SkipLimit(s, 0, limit)
  {
    if |s| <= limit {
      assert s[0..|s|] == s;
    } else {
      assert s[0..limit] == s[..limit];
    }
  }

  /** A page of the suffix after the first `a` items is a page of the whole, `a` further on. */
  lemma SuffixPage<T>(s: seq<T>, a: nat, skip: nat, limit: nat)
    requires a <= |s|
    ensures SkipLimit(s[a..], skip, limit) == SkipLimit(s, a + skip, limit)
  {
    if skip < |s| - a {
      if limit == 0 {
        assert s[a..][skip..] == s[a + skip..];
      } else {
        assert s[a..][skip..Seqs.Min(skip + limit, |s| - a)] == s[a + skip..Seqs.Min(a + skip + limit, |s|)];
      }
    }
  }

  /** `getAdminHelpRequestById`: a malformed id gets 400 and an unknown one 404. */
  function GetAdminHelpRequestById(store: HelpRequestCollection, id: ObjectId)
    : (r: Result<HelpRequest, AdminError>)
    reads store
    ensures r == Failure(InvalidRequestId) <==> !IsValid(id)
    ensures r == Failure(RequestNotFound) <==> IsValid(id) && store.IndexOf(id).None?
    ensures r.Success? <==> IsValid(id) && store.IndexOf(id).Some?
    ensures r.Success? ==> r.value == store.rows[store.IndexOf(id).value] && r.value.id == id
  {
    if !IsValid(id) then Failure(InvalidRequestId)
    else match store.IndexOf(id)
      case None => Failure(RequestNotFound)
      case Some(k) => Success(store.rows[k])
  }
}
