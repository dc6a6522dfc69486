/**
 * Admin registration of an NGO (server/src/controllers/adminNgoController.js):
 * an existing user account is linked to a new, already approved organisation
 * and promoted to the NGO role.
 */
module AdminNgo {
  import opened Wrappers
  import opened ObjectIds
  import UM = UserModel
  import OM = OrganizationModel
  import Seqs
  import JsText

  datatype NgoError =
    | UserNotFound            // 404 "User with email ... not found"
    | AlreadyLinked           // 400 "This user is already linked to an NGO profile."
    | DuplicateRegistration   // 400 "Organization with this registration number already exists."
    | DuplicateKey            // 500: the unique index on registrationNumber refuses the insert
  {
    function Status(): int {
      match this
      case UserNotFound => 404
      case AlreadyLinked => 400
      case DuplicateRegistration => 400
      case DuplicateKey => 500
    }
  }

  /** The body of `POST /api/admin/ngos/register`. */
  datatype NgoInput = NgoInput(
    userEmail: string,
    organizationName: string,
    registrationNumber: Option<string>,
    kind: string,
    contactPerson: string,
    officialEmail: string,
    phone: string,
    address: Option<OM.Address>,
    capabilities: Option<seq<string>>,
    serviceArea: Option<seq<string>>)

  /** The 201 answer: the new organisation and the user's role afterwards. */
  datatype Registered = Registered(ngo: OM.Organization, userRole: UM.Role)

  /** Step 5: every role but ADMIN becomes NGO. */
  function PromotedRole(role: UM.Role): (r: UM.Role)
    ensures role == "ADMIN" ==> r == "ADMIN"
    ensures role != "ADMIN" ==> r == "NGO"
  {
    if role != "ADMIN" then "NGO" else role
  }

  /** The lookup by `userEmail.toLowerCase()` is the schema's case-insensitive lookup. */
  lemma LoweredLookup(users: seq<UM.User>, e: string)
    ensures Seqs.FindFirst(users, UM.HasEmail(JsText.Lower(e))) == Seqs.FindFirst(users, UM.HasEmail(e))
  {
    JsText.LowerIdempotent(e);
    Seqs.FindFirstAgrees(users, UM.HasEmail(JsText.Lower(e)), UM.HasEmail(e));
  }

  /**
   * `registerNgo`: the user is looked up by e-mail, then refused if already
   * linked, then a supplied registration number must be new; the organisation
   * is created approved and available, approved by `adminId` at `now`, and the
   * user is promoted unless an admin. Any refusal writes nothing.
   */
  method RegisterNgo(users: UM.UserCollection, orgs: OM.OrganizationCollection, input: NgoInput,
                     adminId: ObjectId, freshId: ObjectId, now: int)
    returns (r: Result<Registered, NgoError>)
    requires users.Valid() && orgs.Valid()
    requires forall i :: 0 <= i < |orgs.rows| ==> orgs.rows[i].id != freshId
    modifies users, orgs
    ensures users.Valid() && orgs.Valid()
    ensures r.Failure? ==> users.rows == old(users.rows) && orgs.rows == old(orgs.rows)
    ensures r == Failure(UserNotFound) <==> old(users.IndexOfEmail(input.userEmail)).None?
    ensures r == Failure(AlreadyLinked) <==>
      old(users.IndexOfEmail(input.userEmail)).Some?
      && Seqs.FindFirst(old(orgs.rows), OM.HasUserId(old(users.rows)[old(users.IndexOfEmail(input.userEmail)).value].id)).Some?
    ensures r == Failure(DuplicateRegistration) <==>
      old(users.IndexOfEmail(input.userEmail)).Some?
      && Seqs.FindFirst(old(orgs.rows), OM.HasUserId(old(users.rows)[old(users.IndexOfEmail(input.userEmail)).value].id)).None?
      && JsText.Truthy(input.registrationNumber)
      && Seqs.FindFirst(old(orgs.rows), OM.HasRegistrationNumber(input.registrationNumber)).Some?
    ensures r == Failure(DuplicateKey) <==>
      old(users.IndexOfEmail(input.userEmail)).Some?
      && Seqs.FindFirst(old(orgs.rows), OM.HasUserId(old(users.rows)[old(users.IndexOfEmail(input.userEmail)).value].id)).None?
      && !JsText.Truthy(input.registrationNumber)
      && Seqs.FindFirst(old(orgs.rows), OM.HasRegistrationNumber(input.registrationNumber)).Some?
    ensures r.Success? ==>
      var k := old(users.IndexOfEmail(input.userEmail)).value;
      var user := old(users.rows)[k];
      && Seqs.FindFirst(old(orgs.rows), OM.HasUserId(user.id)).None?
      && Seqs.FindFirst(old(orgs.rows), OM.HasRegistrationNumber(input.registrationNumber)).None?
      && r.value.ngo == OM.Organization(
           freshId, user.id, input.organizationName, input.registrationNumber, input.kind,
           input.contactPerson, input.officialEmail, input.phone, input.address,
           input.capabilities.GetOr([]), input.serviceArea.GetOr([]),
           OM.Available, OM.Approved, Some(adminId), Some(now), [], 0)
      && orgs.rows == old(orgs.rows) + [r.value.ngo]
      && r.value.userRole == PromotedRole(user.role)
      && users.rows == old(users.rows)[k := user.(role := PromotedRole(user.role))]
  {
    LoweredLookup(users.rows, input.userEmail);
    var found := users.IndexOfEmail(JsText.Lower(input.userEmail));
    if found.None? {
      return Failure(UserNotFound);
    }
    var k := found.value;
    var user := users.rows[k];

    var existingNgo := Seqs.FindFirst(orgs.rows, OM.HasUserId(user.id));
    if existingNgo.Some? {
      return Failure(AlreadyLinked);
    }

    if JsText.Truthy(input.registrationNumber) {
      var duplicateReg := Seqs.FindFirst(orgs.rows, OM.HasRegistrationNumber(input.registrationNumber));
      if duplicateReg.Some? {
        return Failure(DuplicateRegistration);
      }
    }

    // the insert itself, refused by the unique index on registrationNumber
    if Seqs.FindFirst(orgs.rows, OM.HasRegistrationNumber(input.registrationNumber)).Some? {
      return Failure(DuplicateKey);
    }
    var newNgo := OM.Organization(
      freshId, user.id, input.organizationName, input.registrationNumber, input.kind,
      input.contactPerson, input.officialEmail, input.phone, input.address,
      input.capabilities.GetOr([]), input.serviceArea.GetOr([]),
      OM.Available, OM.Approved, Some(adminId), Some(now), [], 0);
    OM.AppendKeepsValid(orgs.rows, newNgo);
    orgs.rows := orgs.rows + [newNgo];

    if user.role != "ADMIN" {
      UM.SetRoleKeepsValid(users.rows, k, "NGO");
      user := user.(role := "NGO");
      users.rows := users.rows[k := user];
    }
    r := Success(Registered(newNgo, user.role));
  }
}
