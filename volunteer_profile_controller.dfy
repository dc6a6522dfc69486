/**
 * Volunteer profiles (server/src/controllers/userManagementController/volunteerProfileController.js
 * over server/src/models/userProfileModel/VolunteerProfile.js): one profile
 * per user account, keyed by the account id.
 */
module VolunteerProfiles {
  import opened Wrappers
  import opened ObjectIds
  import opened ProfileStatus
  import UM = UserModel
  import Auth
  import Seqs

  datatype VolunteerProfile = VolunteerProfile(
    userId: ObjectId,
    phone: string,
    skills: seq<string>,
    serviceDistricts: seq<string>,
    availabilityStatus: Availability,
    acceptedTasks: seq<ObjectId>,
    verifiedByAdmin: bool)

  datatype ProfileError =
    | PhoneRequired        // 400 "Missing required field: phone"
    | ProfileExists        // 409 "Volunteer profile already exists"
    | ProfileNotFound      // 404 "Volunteer profile not found"
    | UserNotFound         // 404 "User not found"
    | InvalidAvailability  // 400 "Invalid availability status. ..."
    | SchemaRejected       // 500: the schema's validators refuse the write
  {
    function Status(): int {
      match this
      case PhoneRequired => 400
      case ProfileExists => 409
      case ProfileNotFound => 404
      case UserNotFound => 404
      case InvalidAvailability => 400
      case SchemaRejected => 500
    }
  }

  /** The `VolunteerProfiles` collection, keyed by `userId` (a unique index). */
  class VolunteerProfileCollection {
    var profiles: map<ObjectId, VolunteerProfile>

    ghost predicate Valid()
      reads this
    {
      forall u :: u in profiles ==> profiles[u].userId == u
    }

    constructor ()
      ensures profiles == map[] && Valid()
    {
      profiles := map[];
    }
  }

  /** The body of a create. */
  datatype ProfileInput = ProfileInput(
    phone: Option<string>,
    skills: Option<seq<string>>,
    serviceDistricts: Option<seq<string>>,
    availabilityStatus: Option<string>)

  /** The keys an update body may `$set`; absent keys are None. */
  datatype ProfilePatch = ProfilePatch(
    phone: Option<string>,
    skills: Option<seq<string>>,
    serviceDistricts: Option<seq<string>>,
    availabilityStatus: Option<string>,
    acceptedTasks: Option<seq<ObjectId>>,
    verifiedByAdmin: Option<bool>)

  /** The merged answer of a read: the profile plus the account's name and e-mail. */
  datatype ProfileData = ProfileData(profile: VolunteerProfile, name: Option<string>, email: string)

  /**
   * `createVolunteerProfile`: a missing phone is refused before the duplicate
   * check; a user with a profile gets 409; a new profile takes the defaults
   * (no skills, no districts, OFFLINE, not verified).
   */
  method CreateVolunteerProfile(profiles: VolunteerProfileCollection, me: ObjectId, input: ProfileInput)
    returns (r: Result<VolunteerProfile, ProfileError>)
    requires profiles.Valid()
    modifies profiles
    ensures profiles.Valid()
    ensures r.Failure? ==> profiles.profiles == old(profiles.profiles)
    ensures r == Failure(PhoneRequired) <==> !(input.phone.Some? && input.phone.value != "")
    ensures r == Failure(ProfileExists) <==>
      input.phone.Some? && input.phone.value != "" && me in old(profiles.profiles)
    ensures r == Failure(SchemaRejected) <==>
      input.phone.Some? && input.phone.value != "" && me !in old(profiles.profiles)
      && AvailabilityOrOffline(input.availabilityStatus).None?
    ensures r.Success? <==>
      input.phone.Some? && input.phone.value != "" && me !in old(profiles.profiles)
      && AvailabilityOrOffline(input.availabilityStatus).Some?
    ensures r.Success? ==>
      && r.value == VolunteerProfile(me, input.phone.value, input.skills.GetOr([]),
                                     input.serviceDistricts.GetOr([]),
                                     AvailabilityOrOffline(input.availabilityStatus).value, [], false)
      && profiles.profiles == old(profiles.profiles)[me := r.value]
  {
    var existsProfile := me in profiles.profiles;
    if !(input.phone.Some? && input.phone.value != "") {
      return Failure(PhoneRequired);
    } else if existsProfile {
      return Failure(ProfileExists);
    }
    var availability := AvailabilityOrOffline(input.availabilityStatus);
    if availability.None? {
      return Failure(SchemaRejected);
    }
    var profile := VolunteerProfile(me, input.phone.value, input.skills.GetOr([]),
                                    input.serviceDistricts.GetOr([]), availability.value, [], false);
    profiles.profiles := profiles.profiles[me := profile];
    r := Success(profile);
  }

  /**
   * `getVolunteerProfile`: the profile is checked before the account, and the
   * answer merges the account's name and e-mail into the profile.
   */
  function GetVolunteerProfile(profiles: VolunteerProfileCollection, users: UM.UserCollection, me: ObjectId)
    : (r: Result<ProfileData, ProfileError>)
    reads profiles, users
    ensures r == Failure(ProfileNotFound) <==> me !in profiles.profiles
    ensures r == Failure(UserNotFound) <==> me in profiles.profiles && users.IndexOf(me).None?
    ensures r.Success? <==> me in profiles.profiles && users.IndexOf(me).Some?
    ensures r.Success? ==>
      var u := users.rows[users.IndexOf(me).value];
      r.value == ProfileData(profiles.profiles[me], u.name, u.email)
  {
    if me !in profiles.profiles then Failure(ProfileNotFound)
    else match users.IndexOf(me)
      case None => Failure(UserNotFound)
      case Some(k) => Success(ProfileData(profiles.profiles[me], users.rows[k].name, users.rows[k].email))
  }

  /** The update validators: a required field cannot be emptied, the status must be in the enum. */
  predicate PatchAccepted(p: ProfilePatch) {
    && (p.phone.Some? ==> p.phone.value != "")
    && (p.availabilityStatus.Some? ==> ParseAvailability(p.availabilityStatus.value).Some?)
  }

  /** `$set` of the supplied keys; every other field is kept. */
  function ApplyPatch(v: VolunteerProfile, p: ProfilePatch): (r: VolunteerProfile)
    requires PatchAccepted(p)
    ensures r.userId == v.userId
    ensures r.phone == (if p.phone.Some? then p.phone.value else v.phone)
    ensures p.skills.None? ==> r.skills == v.skills
    ensures p.skills.Some? ==> r.skills == p.skills.value
    ensures p.serviceDistricts.None? ==> r.serviceDistricts == v.serviceDistricts
    ensures p.serviceDistricts.Some? ==> r.serviceDistricts == p.serviceDistricts.value
    ensures p.availabilityStatus.None? ==> r.availabilityStatus == v.availabilityStatus
    ensures p.availabilityStatus.Some? ==> r.availabilityStatus.Name() == p.availabilityStatus.value
    ensures r.acceptedTasks == (if p.acceptedTasks.Some? then p.acceptedTasks.value else v.acceptedTasks)
    ensures r.verifiedByAdmin == (if p.verifiedByAdmin.Some? then p.verifiedByAdmin.value else v.verifiedByAdmin)
  {
    VolunteerProfile(
      v.userId,
      if p.phone.Some? then p.phone.value else v.phone,
      p.skills.GetOr(v.skills),
      p.serviceDistricts.GetOr(v.serviceDistricts),
      if p.availabilityStatus.Some? then ParseAvailability(p.availabilityStatus.value).value
      else v.availabilityStatus,
      p.acceptedTasks.GetOr(v.acceptedTasks),
      p.verifiedByAdmin.GetOr(v.verifiedByAdmin))
  }

  /** An empty body changes nothing, and applying the same body twice is applying it once. */
  lemma PatchLaws(v: VolunteerProfile, p: ProfilePatch)
    requires PatchAccepted(p)
    ensures ApplyPatch(v, ProfilePatch(None, None, None, None, None, None)) == v
    ensures ApplyPatch(ApplyPatch(v, p), p) == ApplyPatch(v, p)
  {
  }

  /**
   * `updateVolunteerProfile`: the supplied keys overwrite the stored ones,
   * including `verifiedByAdmin`; a missing profile gets 404 and nothing changes.
   */
  method UpdateVolunteerProfile(profiles: VolunteerProfileCollection, me: ObjectId, patch: ProfilePatch)
    returns (r: Result<VolunteerProfile, ProfileError>)
    requires profiles.Valid()
    modifies profiles
    ensures profiles.Valid()
    ensures r.Failure? ==> profiles.profiles == old(profiles.profiles)
    ensures r == Failure(SchemaRejected) <==> !PatchAccepted(patch)
    ensures r == Failure(ProfileNotFound) <==> PatchAccepted(patch) && me !in old(profiles.profiles)
    ensures r.Success? <==> PatchAccepted(patch) && me in old(profiles.profiles)
    ensures r.Success? ==>
      && r.value == ApplyPatch(old(profiles.profiles)[me], patch)
      && profiles.profiles == old(profiles.profiles)[me := r.value]
  {
    if !PatchAccepted(patch) {
      return Failure(SchemaRejected);
    }
    if me !in profiles.profiles {
      return Failure(ProfileNotFound);
    }
    var updated := ApplyPatch(profiles.profiles[me], patch);
    profiles.profiles := profiles.profiles[me := updated];
    r := Success(updated);
  }

  /**
   * `updateAvailabilityStatus`: only AVAILABLE, BUSY or OFFLINE are accepted,
   * and only that field of the profile changes.
   */
  method UpdateAvailabilityStatus(profiles: VolunteerProfileCollection, me: ObjectId,
                                  availabilityStatus: Option<string>)
    returns (r: Result<VolunteerProfile, ProfileError>)
    requires profiles.Valid()
    modifies profiles
    ensures profiles.Valid()
    ensures r.Failure? ==> profiles.profiles == old(profiles.profiles)
    ensures r == Failure(InvalidAvailability) <==>
      !(availabilityStatus.Some? && availabilityStatus.value in AvailabilityNames)
    ensures r == Failure(ProfileNotFound) <==>
      availabilityStatus.Some? && availabilityStatus.value in AvailabilityNames
      && me !in old(profiles.profiles)
    ensures r.Success? <==>
      availabilityStatus.Some? && availabilityStatus.value in AvailabilityNames
      && me in old(profiles.profiles)
    ensures r.Success? ==>
      && r.value.availabilityStatus.Name() == availabilityStatus.value
      && r.value == old(profiles.profiles)[me].(availabilityStatus := r.value.availabilityStatus)
      && profiles.profiles == old(profiles.profiles)[me := r.value]
  {
    if availabilityStatus.None? || availabilityStatus.value == ""
       || ParseAvailability(availabilityStatus.value).None? {
      return Failure(InvalidAvailability);
    }
    var status := ParseAvailability(availabilityStatus.value).value;
    if me !in profiles.profiles {
      return Failure(ProfileNotFound);
    }
    var updated := profiles.profiles[me].(availabilityStatus := status);
    profiles.profiles := profiles.profiles[me := updated];
    r := Success(updated);
  }

  /**
   * `deleteVolunteerProfile`: the account is deleted first; without it the
   * profile is untouched and the answer is 404. Without a profile the account
   * stays deleted and the answer is still 404. The cookie is cleared only
   * when both were deleted.
   */
  method DeleteVolunteerProfile(profiles: VolunteerProfileCollection, users: UM.UserCollection, me: ObjectId)
    returns (r: Result<Auth.Cookie, ProfileError>)
    requires profiles.Valid() && users.Valid()
    modifies profiles, users
    ensures profiles.Valid() && users.Valid()
    ensures r == Failure(UserNotFound) <==> old(users.IndexOf(me)).None?
    ensures old(users.IndexOf(me)).None? ==>
      users.rows == old(users.rows) && profiles.profiles == old(profiles.profiles)
    ensures old(users.IndexOf(me)).Some? ==>
      && users.rows == Seqs.RemoveAt(old(users.rows), old(users.IndexOf(me)).value)
      && profiles.profiles == old(profiles.profiles) - {me}
      && (r == Failure(ProfileNotFound) <==> me !in old(profiles.profiles))
    ensures r.Success? <==> old(users.IndexOf(me)).Some? && me in old(profiles.profiles)
    ensures r.Success? ==> r.value == Auth.ClearAccessToken
  {
    var deletedUser := users.DeleteById(me);
    if deletedUser.None? {
      return Failure(UserNotFound);
    }
    var existed := me in profiles.profiles;
    profiles.profiles := profiles.profiles - {me};
    if !existed {
      return Failure(ProfileNotFound);
    }
    r := Success(Auth.ClearAccessToken);
  }
}
