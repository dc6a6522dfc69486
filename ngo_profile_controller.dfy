/**
 * NGO profiles (server/src/controllers/userManagementController/ngoProfileController.js
 * over server/src/models/userProfileModel/NgoProfile.js): one profile per
 * user account, keyed by the account id.
 */
module NgoProfiles {
  import opened Wrappers
  import opened ObjectIds
  import opened ProfileStatus
  import UM = UserModel
  import Auth
  import Seqs
  import JsText

  datatype NgoProfile = NgoProfile(
    userId: ObjectId,
    registrationNumber: string,
    contactPhone: string,
    serviceDistricts: seq<string>,
    availabilityStatus: Availability,
    services: seq<string>,
    verifiedByAdmin: bool,
    acceptedTasks: seq<ObjectId>)

  datatype ProfileError =
    | ProfileExists        // 409 "NGO profile already exists"
    | FieldsRequired       // 400 "Missing required fields: registrationNumber and contactPhone"
    | ProfileNotFound      // 404 "NGO profile not found"
    | UserNotFound         // 404 "User not found"
    | InvalidAvailability  // 400 "Invalid availability status. ..."
    | SchemaRejected       // 500: the schema's validators refuse the write
  {
    function Status(): int {
      match this
      case ProfileExists => 409
      case FieldsRequired => 400
      case ProfileNotFound => 404
      case UserNotFound => 404
      case InvalidAvailability => 400
      case SchemaRejected => 500
    }
  }

  /** The `NgoProfiles` collection, keyed by `userId` (a unique index). */
  class NgoProfileCollection {
    var profiles: map<ObjectId, NgoProfile>

    ghost predicate Valid()
      reads this
    {
      forall u :: u in profiles ==> profiles[u].userId == u
    }

    constructor ()
      ensures profiles == map[] && Valid()
    {
      profiles := map[];
    }
  }

  /** The body of a create. */
  datatype ProfileInput = ProfileInput(
    registrationNumber: Option<string>,
    contactPhone: Option<string>,
    serviceDistricts: Option<seq<string>>,
    availabilityStatus: Option<string>,
    services: Option<seq<string>>)

  /** The keys an update body may `$set`; absent keys are None. */
  datatype ProfilePatch = ProfilePatch(
    registrationNumber: Option<string>,
    contactPhone: Option<string>,
    serviceDistricts: Option<seq<string>>,
    availabilityStatus: Option<string>,
    services: Option<seq<string>>,
    acceptedTasks: Option<seq<ObjectId>>,
    verifiedByAdmin: Option<bool>)

  datatype ProfileData = ProfileData(profile: NgoProfile, name: Option<string>, email: string)

  /**
   * `serviceDistricts || ""`: a missing list becomes the empty string, which
   * the array path stores as a one-element list.
   */
  function DistrictsOrBlank(d: Option<seq<string>>): (r: seq<string>)
    ensures d.Some? ==> r == d.value
    ensures d.None? ==> r == [""]
  {
    if d.Some? then d.value else [""]
  }

  /**
   * `createNgoProfile`: an existing profile gets 409 before the required
   * fields are looked at; without a registration number or contact phone the
   * answer is 400; a new profile is OFFLINE unless told otherwise, has no
   * services and is not verified.
   */
  method CreateNgoProfile(profiles: NgoProfileCollection, me: ObjectId, input: ProfileInput)
    returns (r: Result<NgoProfile, ProfileError>)
    requires profiles.Valid()
    modifies profiles
    ensures profiles.Valid()
    ensures r.Failure? ==> profiles.profiles == old(profiles.profiles)
    ensures r == Failure(ProfileExists) <==> me in old(profiles.profiles)
    ensures r == Failure(FieldsRequired) <==>
      me !in old(profiles.profiles)
      && !(JsText.Truthy(input.registrationNumber) && JsText.Truthy(input.contactPhone))
    ensures r == Failure(SchemaRejected) <==>
      me !in old(profiles.profiles)
      && JsText.Truthy(input.registrationNumber) && JsText.Truthy(input.contactPhone)
      && AvailabilityOrOffline(input.availabilityStatus).None?
    ensures r.Success? <==>
      me !in old(profiles.profiles)
      && JsText.Truthy(input.registrationNumber) && JsText.Truthy(input.contactPhone)
      && AvailabilityOrOffline(input.availabilityStatus).Some?
    ensures r.Success? ==>
      && r.value == NgoProfile(me, input.registrationNumber.value, input.contactPhone.value,
                               DistrictsOrBlank(input.serviceDistricts),
                               AvailabilityOrOffline(input.availabilityStatus).value,
                               input.services.GetOr([]), false, [])
      && profiles.profiles == old(profiles.profiles)[me := r.value]
  {
    var existsProfile := me in profiles.profiles;
    if existsProfile {
      return Failure(ProfileExists);
    } else if !JsText.Truthy(input.registrationNumber) || !JsText.Truthy(input.contactPhone) {
      return Failure(FieldsRequired);
    }
    var availability := AvailabilityOrOffline(input.availabilityStatus);
    if availability.None? {
      return Failure(SchemaRejected);
    }
    var profile := NgoProfile(me, input.registrationNumber.value, input.contactPhone.value,
                              DistrictsOrBlank(input.serviceDistricts), availability.value,
                              input.services.GetOr([]), false, []);
    profiles.profiles := profiles.profiles[me := profile];
    r := Success(profile);
  }

  /**
   * `getNgoProfile`: the account is checked before the profile, and the
   * answer merges the account's name and e-mail into the profile.
   */
  function GetNgoProfile(profiles: NgoProfileCollection, users: UM.UserCollection, me: ObjectId)
    : (r: Result<ProfileData, ProfileError>)
    reads profiles, users
    ensures r == Failure(UserNotFound) <==> users.IndexOf(me).None?
    ensures r == Failure(ProfileNotFound) <==> users.IndexOf(me).Some? && me !in profiles.profiles
    ensures r.Success? <==> users.IndexOf(me).Some? && me in profiles.profiles
    ensures r.Success? ==>
      var u := users.rows[users.IndexOf(me).value];
      r.value == ProfileData(profiles.profiles[me], u.name, u.email)
  {
    match users.IndexOf(me)
    case None => Failure(UserNotFound)
    case Some(k) =>
      if me !in profiles.profiles then Failure(ProfileNotFound)
      else Success(ProfileData(profiles.profiles[me], users.rows[k].name, users.rows[k].email))
  }

  /** The update validators: required fields cannot be emptied, the status must be in the enum. */
  predicate PatchAccepted(p: ProfilePatch) {
    && (p.registrationNumber.Some? ==> p.registrationNumber.value != "")
    && (p.contactPhone.Some? ==> p.contactPhone.value != "")
    && (p.availabilityStatus.Some? ==> ParseAvailability(p.availabilityStatus.value).Some?)
  }

  /** `$set` of the supplied keys; every other field is kept. */
  function ApplyPatch(v: NgoProfile, p: ProfilePatch): (r: NgoProfile)
    requires PatchAccepted(p)
    ensures r.userId == v.userId
    ensures r.registrationNumber == (if p.registrationNumber.Some? then p.registrationNumber.value else v.registrationNumber)
    ensures r.contactPhone == (if p.contactPhone.Some? then p.contactPhone.value else v.contactPhone)
    ensures p.serviceDistricts.None? ==> r.serviceDistricts == v.serviceDistricts
    ensures p.serviceDistricts.Some? ==> r.serviceDistricts == p.serviceDistricts.value
    ensures p.availabilityStatus.None? ==> r.availabilityStatus == v.availabilityStatus
    ensures p.availabilityStatus.Some? ==> r.availabilityStatus.Name() == p.availabilityStatus.value
    ensures p.services.None? ==> r.services == v.services
    ensures p.services.Some? ==> r.services == p.services.value
    ensures r.verifiedByAdmin == (if p.verifiedByAdmin.Some? then p.verifiedByAdmin.value else v.verifiedByAdmin)
    ensures r.acceptedTasks == (if p.acceptedTasks.Some? then p.acceptedTasks.value else v.acceptedTasks)
  {
    NgoProfile(
      v.userId,
      if p.registrationNumber.Some? then p.registrationNumber.value else v.registrationNumber,
      if p.contactPhone.Some? then p.contactPhone.value else v.contactPhone,
      p.serviceDistricts.GetOr(v.serviceDistricts),
      if p.availabilityStatus.Some? then ParseAvailability(p.availabilityStatus.value).value
      else v.availabilityStatus,
      p.services.GetOr(v.services),
      p.verifiedByAdmin.GetOr(v.verifiedByAdmin),
      p.acceptedTasks.GetOr(v.acceptedTasks))
  }

  /** An empty body changes nothing, and applying the same body twice is applying it once. */
  lemma PatchLaws(v: NgoProfile, p: ProfilePatch)
    requires PatchAccepted(p)
    ensures ApplyPatch(v, ProfilePatch(None, None, None, None, None, None, None)) == v
    ensures ApplyPatch(ApplyPatch(v, p), p) == ApplyPatch(v, p)
  {
  }

  /**
   * `updateNgoProfile`: the supplied keys overwrite the stored ones; a missing
   * profile gets 404 and nothing changes.
   */
  method UpdateNgoProfile(profiles: NgoProfileCollection, me: ObjectId, patch: ProfilePatch)
    returns (r: Result<NgoProfile, ProfileError>)
    requires profiles.Valid()
    modifies profiles
    ensures profiles.Valid()
    ensures r.Failure? ==> profiles.profiles == old(profiles.profiles)
    ensures r == Failure(SchemaRejected) <==> !PatchAccepted(patch)
    ensures r == Failure(ProfileNotFound) <==> PatchAccepted(patch) && me !in old(profiles.profiles)
    ensures r.Success? <==> PatchAccepted(patch) && me in old(profiles.profiles)
    ensures r.Success? ==>
      && r.value == ApplyPatch(old(profiles.profiles)[me], patch)
      && profiles.profiles == old(profiles.profiles)[me := r.value]
  {
    if !PatchAccepted(patch) {
      return Failure(SchemaRejected);
    }
    if me !in profiles.profiles {
      return Failure(ProfileNotFound);
    }
    var updated := ApplyPatch(profiles.profiles[me], patch);
    profiles.profiles := profiles.profiles[me := updated];
    r := Success(updated);
  }

  /**
   * `updateAvailabilityStatus`: only AVAILABLE, BUSY or OFFLINE are accepted,
   * and only that field of the profile changes.
   */
  method UpdateAvailabilityStatus(profiles: NgoProfileCollection, me: ObjectId,
                                  availabilityStatus: Option<string>)
    returns (r: Result<NgoProfile, ProfileError>)
    requires profiles.Valid()
    modifies profiles
    ensures profiles.Valid()
    ensures r.Failure? ==> profiles.profiles == old(profiles.profiles)
    ensures r == Failure(InvalidAvailability) <==>
      !(availabilityStatus.Some? && availabilityStatus.value in AvailabilityNames)
    ensures r == Failure(ProfileNotFound) <==>
      availabilityStatus.Some? && availabilityStatus.value in AvailabilityNames
      && me !in old(profiles.profiles)
    ensures r.Success? <==>
      availabilityStatus.Some? && availabilityStatus.value in AvailabilityNames
      && me in old(profiles.profiles)
    ensures r.Success? ==>
      && r.value.availabilityStatus.Name() == availabilityStatus.value
      && r.value == old(profiles.profiles)[me].(availabilityStatus := r.value.availabilityStatus)
      && profiles.profiles == old(profiles.profiles)[me := r.value]
  {
    if availabilityStatus.None? || availabilityStatus.value == ""
       || ParseAvailability(availabilityStatus.value).None? {
      return Failure(InvalidAvailability);
    }
    var status := ParseAvailability(availabilityStatus.value).value;
    if me !in profiles.profiles {
      return Failure(ProfileNotFound);
    }
    var updated := profiles.profiles[me].(availabilityStatus := status);
    profiles.profiles := profiles.profiles[me := updated];
    r := Success(updated);
  }

  /**
   * `deleteNgoProfile`: the account first, then the profile; a missing account
   * gets 404 with the profile untouched, a missing profile gets 404 with the
   * account already gone. The cookie is cleared only when both were deleted.
   */
  method DeleteNgoProfile(profiles: NgoProfileCollection, users: UM.UserCollection, me: ObjectId)
    returns (r: Result<Auth.Cookie, ProfileError>)
    requires profiles.Valid() && users.Valid()
    modifies profiles, users
    ensures profiles.Valid() && users.Valid()
    ensures r == Failure(UserNotFound) <==> old(users.IndexOf(me)).None?
    ensures old(users.IndexOf(me)).None? ==>
      users.rows == old(users.rows) && profiles.profiles == old(profiles.profiles)
    ensures old(users.IndexOf(me)).Some? ==>
      && users.rows == Seqs.RemoveAt(old(users.rows), old(users.IndexOf(me)).value)
      && profiles.profiles == old(profiles.profiles) - {me}
      && (r == Failure(ProfileNotFound) <==> me !in old(profiles.profiles))
    ensures r.Success? <==> old(users.IndexOf(me)).Some? && me in old(profiles.profiles)
    ensures r.Success? ==> r.value == Auth.ClearAccessToken
  {
    var userDelete := users.DeleteById(me);
    if userDelete.None? {
      return Failure(UserNotFound);
    }
    var existed := me in profiles.profiles;
    profiles.profiles := profiles.profiles - {me};
    if !existed {
      return Failure(ProfileNotFound);
    }
    r := Success(Auth.ClearAccessToken);
  }
}
