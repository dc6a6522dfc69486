/**
 * Citizen profiles (server/src/controllers/userManagementController/citizenProfileController.js
 * over server/src/models/userProfileModel/CitizenProfile.js): one profile per
 * user account, keyed by the account id.
 */
module CitizenProfiles {
  import opened Wrappers
  import opened ObjectIds
  import UM = UserModel
  import Auth
  import Seqs
  import JsText

  /** The address sub-document; an absent part is the empty string. */
  datatype Address = Address(street: string, city: string, province: string)

  /** The sub-document's `required` validators: every part is a non-empty string. */
  predicate AddressAccepted(a: Address) {
    a.street != "" && a.city != "" && a.province != ""
  }

  datatype CitizenProfile = CitizenProfile(
    userId: ObjectId,
    phone: string,
    address: Address,
    location: string,
    emergencyContactName: string,
    emergencyContactPhone: string,
    savedShelters: seq<ObjectId>)

  datatype ProfileError =
    | FieldsRequired    // 400 "Missing required fields: phone, address, ..."
    | UserNotExists     // 400 "User Not Exists"
    | ProfileExists     // 409 "Citizen profile already exists"
    | ProfileNotFound   // 404 "Citizen profile not found"
    | UserNotFound      // 404 "User not found"
    | SchemaRejected    // 500: the schema's validators refuse the write
  {
    function Status(): int {
      match this
      case FieldsRequired => 400
      case UserNotExists => 400
      case ProfileExists => 409
      case ProfileNotFound => 404
      case UserNotFound => 404
      case SchemaRejected => 500
    }
  }

  /** The `CitizenProfiles` collection, keyed by `userId` (a unique index). */
  class CitizenProfileCollection {
    var profiles: map<ObjectId, CitizenProfile>

    ghost predicate Valid()
      reads this
    {
      forall u :: u in profiles ==> profiles[u].userId == u
    }

    constructor ()
      ensures profiles == map[] && Valid()
    {
      profiles := map[];
    }
  }

  /** The body of a create. */
  datatype ProfileInput = ProfileInput(
    phone: Option<string>,
    address: Option<Address>,
    location: Option<string>,
    emergencyContactName: Option<string>,
    emergencyContactPhone: Option<string>)

  /** The keys an update body may `$set`; absent keys are None. */
  datatype ProfilePatch = ProfilePatch(
    phone: Option<string>,
    address: Option<Address>,
    location: Option<string>,
    emergencyContactName: Option<string>,
    emergencyContactPhone: Option<string>,
    savedShelters: Option<seq<ObjectId>>)

  datatype ProfileData = ProfileData(profile: CitizenProfile, name: Option<string>, email: string)

  predicate FieldsGiven(input: ProfileInput) {
    && JsText.Truthy(input.phone) && input.address.Some?
    && JsText.Truthy(input.emergencyContactName) && JsText.Truthy(input.emergencyContactPhone)
  }

  /**
   * `createCitizenProfile`: the four required fields are checked first, then
   * the caller's id, then the duplicate, then the address validators; the
   * new profile stores exactly the given fields, with an empty location when
   * none is given and no saved shelters.
   */
  method CreateCitizenProfile(profiles: CitizenProfileCollection, me: ObjectId, input: ProfileInput)
    returns (r: Result<CitizenProfile, ProfileError>)
    requires profiles.Valid()
    modifies profiles
    ensures profiles.Valid()
    ensures r.Failure? ==> profiles.profiles == old(profiles.profiles)
    ensures r == Failure(FieldsRequired) <==> !FieldsGiven(input)
    ensures r == Failure(UserNotExists) <==> FieldsGiven(input) && me == ""
    ensures r == Failure(ProfileExists) <==> FieldsGiven(input) && me != "" && me in old(profiles.profiles)
    ensures r == Failure(SchemaRejected) <==>
      FieldsGiven(input) && me != "" && me !in old(profiles.profiles) && !AddressAccepted(input.address.value)
    ensures r.Success? <==>
      FieldsGiven(input) && me != "" && me !in old(profiles.profiles) && AddressAccepted(input.address.value)
    ensures r.Success? ==>
      && r.value == CitizenProfile(me, input.phone.value, input.address.value, input.location.GetOr(""),
                                   input.emergencyContactName.value, input.emergencyContactPhone.value, [])
      && profiles.profiles == old(profiles.profiles)[me := r.value]
  {
    var existsProfile := me in profiles.profiles;
    if !FieldsGiven(input) {
      return Failure(FieldsRequired);
    } else if me == "" {
      return Failure(UserNotExists);
    } else if existsProfile {
      return Failure(ProfileExists);
    }
    if !AddressAccepted(input.address.value) {
      return Failure(SchemaRejected);
    }
    var profile := CitizenProfile(me, input.phone.value, input.address.value, input.location.GetOr(""),
                                  input.emergencyContactName.value, input.emergencyContactPhone.value, []);
    profiles.profiles := profiles.profiles[me := profile];
    r := Success(profile);
  }

  /**
   * `getCitizenProfile`: the account is checked before the profile, and the
   * answer merges the account's name and e-mail into the profile.
   */
  function GetCitizenProfile(profiles: CitizenProfileCollection, users: UM.UserCollection, me: ObjectId)
    : (r: Result<ProfileData, ProfileError>)
    reads profiles, users
    ensures r == Failure(UserNotFound) <==> users.IndexOf(me).None?
    ensures r == Failure(ProfileNotFound) <==> users.IndexOf(me).Some? && me !in profiles.profiles
    ensures r.Success? <==> users.IndexOf(me).Some? && me in profiles.profiles
    ensures r.Success? ==>
      var u := users.rows[users.IndexOf(me).value];
      r.value == ProfileData(profiles.profiles[me], u.name, u.email)
  {
    match users.IndexOf(me)
    case None => Failure(UserNotFound)
    case Some(k) =>
      if me !in profiles.profiles then Failure(ProfileNotFound)
      else Success(ProfileData(profiles.profiles[me], users.rows[k].name, users.rows[k].email))
  }

  /** The update validators: required strings cannot be emptied. */
  predicate PatchAccepted(p: ProfilePatch) {
    && (p.phone.Some? ==> p.phone.value != "")
    && (p.address.Some? ==> AddressAccepted(p.address.value))
    && (p.emergencyContactName.Some? ==> p.emergencyContactName.value != "")
    && (p.emergencyContactPhone.Some? ==> p.emergencyContactPhone.value != "")
  }

  /** `$set` of the supplied keys; every other field is kept. */
  function ApplyPatch(v: CitizenProfile, p: ProfilePatch): (r: CitizenProfile)
    ensures r.userId == v.userId
    ensures r.phone == (if p.phone.Some? then p.phone.value else v.phone)
    ensures r.address == (if p.address.Some? then p.address.value else v.address)
    ensures r.location == (if p.location.Some? then p.location.value else v.location)
    ensures r.emergencyContactName == (if p.emergencyContactName.Some? then p.emergencyContactName.value else v.emergencyContactName)
    ensures r.emergencyContactPhone == (if p.emergencyContactPhone.Some? then p.emergencyContactPhone.value else v.emergencyContactPhone)
    ensures p.savedShelters.None? ==> r.savedShelters == v.savedShelters
    ensures p.savedShelters.Some? ==> r.savedShelters == p.savedShelters.value
  {
    CitizenProfile(
      v.userId,
      p.phone.GetOr(v.phone),
      p.address.GetOr(v.address),
      p.location.GetOr(v.location),
      p.emergencyContactName.GetOr(v.emergencyContactName),
      p.emergencyContactPhone.GetOr(v.emergencyContactPhone),
      p.savedShelters.GetOr(v.savedShelters))
  }

  /** An empty body changes nothing, and applying the same body twice is applying it once. */
  lemma PatchLaws(v: CitizenProfile, p: ProfilePatch)
    ensures ApplyPatch(v, ProfilePatch(None, None, None, None, None, None)) == v
    ensures ApplyPatch(ApplyPatch(v, p), p) == ApplyPatch(v, p)
  {
  }

  /**
   * `updateCitizenProfile`: only the supplied keys are overwritten; a missing
   * profile gets 404 and nothing changes.
   */
  method UpdateCitizenProfile(profiles: CitizenProfileCollection, me: ObjectId, patch: ProfilePatch)
    returns (r: Result<CitizenProfile, ProfileError>)
    requires profiles.Valid()
    modifies profiles
    ensures profiles.Valid()
    ensures r.Failure? ==> profiles.profiles == old(profiles.profiles)
    ensures r == Failure(SchemaRejected) <==> !PatchAccepted(patch)
    ensures r == Failure(ProfileNotFound) <==> PatchAccepted(patch) && me !in old(profiles.profiles)
    ensures r.Success? <==> PatchAccepted(patch) && me in old(profiles.profiles)
    ensures r.Success? ==>
      && r.value == ApplyPatch(old(profiles.profiles)[me], patch)
      && profiles.profiles == old(profiles.profiles)[me := r.value]
  {
    if !PatchAccepted(patch) {
      return Failure(SchemaRejected);
    }
    if me !in profiles.profiles {
      return Failure(ProfileNotFound);
    }
    var updated := ApplyPatch(profiles.profiles[me], patch);
    profiles.profiles := profiles.profiles[me := updated];
    r := Success(updated);
  }

  /**
   * `deleteCitizenProfile`: the account first, then the profile; a missing
   * account gets 404 with the profile untouched, a missing profile gets 404
   * with the account already gone. The cookie is cleared only when both were
   * deleted.
   */
  method DeleteCitizenProfile(profiles: CitizenProfileCollection, users: UM.UserCollection, me: ObjectId)
    returns (r: Result<Auth.Cookie, ProfileError>)
    requires profiles.Valid() && users.Valid()
    modifies profiles, users
    ensures profiles.Valid() && users.Valid()
    ensures r == Failure(UserNotFound) <==> old(users.IndexOf(me)).None?
    ensures old(users.IndexOf(me)).None? ==>
      users.rows == old(users.rows) && profiles.profiles == old(profiles.profiles)
    ensures old(users.IndexOf(me)).Some? ==>
      && users.rows == Seqs.RemoveAt(old(users.rows), old(users.IndexOf(me)).value)
      && profiles.profiles == old(profiles.profiles) - {me}
      && (r == Failure(ProfileNotFound) <==> me !in old(profiles.profiles))
    ensures r.Success? <==> old(users.IndexOf(me)).Some? && me in old(profiles.profiles)
    ensures r.Success? ==> r.value == Auth.ClearAccessToken
  {
    var deletedUser := users.DeleteById(me);
    if deletedUser.None? {
      return Failure(UserNotFound);
    }
    var existed := me in profiles.profiles;
    profiles.profiles := profiles.profiles - {me};
    if !existed {
      return Failure(ProfileNotFound);
    }
    r := Success(Auth.ClearAccessToken);
  }
}
