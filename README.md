# RescueNet backend core, modelled in Dafny

This project models the request-handling core of the RescueNet disaster-response
backend (an Express and Mongoose server). It covers these parts:

- **Live location sharing.** A session is a current point plus a history capped at 100 points, with sharing, online and emergency flags. Sessions are started, updated, stopped and read. A read recomputes liveness with a 30-second rule and writes the online flag back only when the stored flag disagrees (read repair).
- **Admin triage of help requests.** Status validation; assignment to approved, available organisations; rejection with a non-blank reason; verification from `pending` only; resolution, which credits the assigned organisation; and the filtered, paginated listing.
- **Admin registration of an NGO.** The guards run in a chain, then the organisation is inserted and the user is promoted to the NGO role.
- **Public help intake.** Urgency is decided by the weather and the disaster type. Media payloads are built from base64 uploads.
- **Accounts and access.** Registration, the order of the login checks, logout, and the role check in the `authorize` middleware.
- **Profile tables.** Volunteer, NGO and citizen profiles, one per account. Each table has its own order of checks at create, get and delete.

## How the model is built

There is one Dafny module per source file.

**Collections.**
- Each Mongoose collection is a class whose table field the handlers reassign.
- Location sessions, help requests, organisations and users are `seq` fields, so that "first match in collection order", filters and sorts mean what they do in MongoDB.
- The three profile collections are `map` fields keyed by the owning account id, which is a unique index in the source.
- Each class has a ghost `Valid()` invariant: unique keys, lower-cased e-mails, and well-formed session histories. Every handler preserves it.

**Handlers.**
- A handler that changes state is a `method` whose `modifies` names exactly the collections the handler writes.
- Its `ensures` gives, for each answer the handler can give (success included), the exact condition under which it is given, as if-and-only-if clauses in the order the source checks them. It also states the whole new state after each answer.
- A handler that only reads is a `function`.
- `addLocationPoint` runs on a loaded Mongoose document. It is a method of the class `LocationDocument`, which is saved back with `Record()`.

**Inputs from outside.**
- Time is a parameter `now`, in milliseconds.
- New ids (`crypto.randomUUID`, Mongo `_id`) are parameters, with a precondition that no stored record already has that id.
- Hashing, password comparison, JWT signing and base64 decoding are function parameters.
- The weather condition is a string parameter.

**JavaScript values.**
- A body field that may be left out is an `Option`. Truthiness of a string is "present and non-empty".
- PATCH fields that distinguish left out, `null` and a value are `Field<T>`.
- An HTTP answer is a `Result` carrying an error datatype, whose `Status()` is the HTTP code.

## Model

| member | source | states |
|---|---|---|
| LocationModel.BoundedAppend | server/src/models/Location.js:86-94 | The new history ends with the point and holds 1 to 100 points. Below 100 old points it is the old history plus the point. Otherwise it is the newest 99 old points plus the point, i.e. the last 100 of old history plus point. |
| LocationModel.AppendAllKeepsNewest | server/src/models/Location.js:84-97 | Recording any sequence of points leaves exactly the newest 100 of all points seen, oldest first: eviction is first-in first-out and order is kept. |
| LocationModel.WithPoint | server/src/models/Location.js:84-97 | After a point is recorded, it is the current location and the history's last element. The session is online with both timestamps equal to `now`. Every other field (id, sharing, emergency type and message, contact fields, start time, linked help request) is unchanged, and the record stays well formed. |
| LocationModel.LocationDocument.AddLocationPoint | server/src/models/Location.js:84-97 | The document's saved record becomes exactly `WithPoint` of its old record. |
| LocationModel.LocationCollection.FindActiveSessions | server/src/models/Location.js:74-76 | A session is returned if and only if it is stored, sharing and online. |
| LocationModel.LocationCollection.FindEmergencySessions | server/src/models/Location.js:79-81 | A session is returned if and only if it is stored, sharing and in an emergency. |
| LocationModel.ReplaceKeepsValid | server/src/models/Location.js:16-59 | Saving a well-formed session under its own id keeps session ids unique and every history well formed. |
| LocationController.Stopped | server/src/controllers/locationController.js:122-126 | A stopped session is neither sharing nor online, and every other field is unchanged. |
| LocationController.InEmergency | server/src/controllers/locationController.js:255-263 | The session is in an emergency. It has the given type, or "other" when the type is falsy. The message is replaced only when one is given. Every other field is unchanged. |
| LocationController.StartSharing | server/src/controllers/locationController.js:13-71 | A body without both coordinates gets 400 and nothing is stored. Otherwise exactly one session is appended with the fresh id. Its only history point is the stamped point. It is sharing and online, in an emergency only if asked, with the body's optional fields, all three timestamps equal to `now`, and the start or emergency-start message. |
| LocationController.UpdateLocation | server/src/controllers/locationController.js:77-112 | Missing coordinates get 400 before any lookup. No sharing session with that id gives 404 with the store unchanged. Otherwise exactly that session becomes `WithPoint` of itself and the stamped point, which is returned. |
| LocationController.StopSharing | server/src/controllers/locationController.js:118-141 | An unknown id gets 404 with no change. Otherwise only the first session with that id becomes `Stopped`, and its unchanged current location is returned. |
| LocationController.GetLocation | server/src/controllers/locationController.js:147-179 | An unknown id gets 404. Online means the last signal is strictly less than 30000 ms old. The store changes only when the stored online flag differs from that rule, and then only in that flag. The answer is live if and only if the session is online and sharing. It always carries the last known location, the online or offline signal status, and the matching message. |
| LocationController.GetLocationHistory | server/src/controllers/locationController.js:185-209 | An unknown id gets 404. `totalPoints` is the full history length. With no limit the answer is the newest 50 points in order. A limit n >= 1 gives the newest min(n, length). A limit of 0 or NaN gives the whole history. A negative limit drops points from the front. |
| LocationController.GetActiveSessions | server/src/controllers/locationController.js:215-244 | Exactly the sharing sessions appear, or the sharing emergencies when `emergencyOnly` is "true": every qualifying stored session appears, and every entry comes from one. Entries are sorted by `lastActiveAt`, newest first, carry no history, and have the online flag recomputed by the 30-second rule. |
| LocationController.ActivateEmergency | server/src/controllers/locationController.js:250-278 | An unknown id gets 404 with no change. Otherwise only the first session with that id becomes `InEmergency`, and it is returned. |
| LocationController.MarkSafe | server/src/controllers/locationController.js:284-307 | An unknown id gets 404. Otherwise only that session's emergency flag is cleared. Marking an already safe session changes nothing (idempotent). |
| LocationController.StoppedSessionRejectsUpdates | server/src/controllers/locationController.js:82-89 | With unique session ids, once a session is stopped, the update lookup (`sessionId`, `isSharing: true`) finds nothing, so every later update gets 404. |
| LocationController.ReadSoonAfterStopIsOnlineButNotLive | server/src/controllers/locationController.js:122-170 | A read less than 30 s after a stop sets the cached online flag back to true, while the answer still says not live. |
| HelpRequestModel.ParseStatus | server/src/models/HelpRequest.js:34-38 | A string parses if and only if it is one of the six status names, and the parsed status has that name. |
| HelpRequestModel.StatusNameRoundTrip | server/src/models/HelpRequest.js:34-38 | Every status's name is in the list and parses back to that status. |
| HelpRequestModel.ReplaceKeepsValid | server/src/models/HelpRequest.js:3-51 | Replacing a request by one with the same id keeps request ids unique. |
| HelpRequestModel.HelpRequestCollection.IndexOf | server/src/controllers/adminHelpController.js:29 | `findById` finds a request with that id, or reports that there is none. |
| HelpRequestModel.HelpRequestCollection.IndexOfUnique | server/src/controllers/adminHelpController.js:29 | With unique ids, the position of a request is the one `findById` finds. |
| OrganizationModel.UpdateKeepsValid | server/src/models/ngoModel.js:6-15 | Replacing an organisation by one with the same id, user and registration number, and duplicate-free assignments, keeps the unique indexes intact. |
| OrganizationModel.AppendKeepsValid | server/src/models/ngoModel.js:6-15 | Appending an organisation whose id, user and registration number are all new keeps the unique indexes intact. |
| AdminHelp.UpdateHelpRequest | server/src/controllers/adminHelpController.js:9-134 | In check order: a malformed id gets 400; an unknown request 404; a bad status 400; a malformed organisation id 400; an unknown organisation 404; an unapproved one 400. Every failure writes nothing, and the answer is success exactly when none of these applies. On success only the supplied fields change. "resolved" stamps `resolvedAt = now`. Assigning without a status sets `assigned`. `null` clears a field. |
| AdminHelp.AssignHelpRequest | server/src/controllers/adminHelpController.js:140-220 | Failures in the source's check order: malformed request id (400), missing or malformed organisation id (400), unknown request (404), unknown organisation (404), unapproved (400), unavailable or offline (400, naming the status), each with its exact condition and writing nothing. The answer is success exactly when none applies. Then the request is `assigned` to that organisation, which records the request id exactly once however often it is assigned, and nothing else changes. |
| AdminHelp.RejectHelpRequest | server/src/controllers/adminHelpController.js:226-269 | A malformed id gets 400. A missing or all-white-space reason gets 400 before the lookup. An unknown request gets 404. Otherwise, and only then, the answer is success: the request is `rejected` with that reason, and nothing else changes. |
| AdminHelp.VerifyHelpRequest | server/src/controllers/adminHelpController.js:275-316 | Success iff the id is well formed, the request exists and it is `pending`; it then becomes `verified`. A found request with any other status gets exactly the 400 naming that status, with no change. A malformed id gets 400 and an unknown one 404. |
| AdminHelp.Credited | server/src/controllers/adminHelpController.js:353-355 | `$inc` on the assigned organisation adds exactly one completed task to it and leaves every other organisation unchanged; the partner lemmas turn this into a one-place update or no change. |
| AdminHelp.CreditedAt | server/src/controllers/adminHelpController.js:353-355 | With unique organisation ids, crediting the organisation at one position is a one-place update. |
| AdminHelp.CreditedNobody | server/src/controllers/adminHelpController.js:342-356 | Crediting an id that no organisation has (none assigned, or deleted) changes nothing. |
| AdminHelp.CreditAssignee | server/src/controllers/adminHelpController.js:342-356 | The organisation table becomes exactly `Credited` of the old one. |
| AdminHelp.ResolveHelpRequest | server/src/controllers/adminHelpController.js:322-370 | A malformed id gets 400 and an unknown one 404, each with no change. Every other request succeeds, whatever its status: it is `resolved` at `now`, and its notes are replaced only by truthy new notes. The organisations are exactly `Credited` by the request's assignee. |
| AdminHelp.CeilDiv | server/src/controllers/adminHelpController.js:411 | `Math.ceil(a / b)`: the result is 0 if and only if a is 0, and otherwise the least r with a <= r*b. |
| AdminHelp.SkipLimit | server/src/controllers/adminHelpController.js:393-399 | `skip(s).limit(l)` returns the items from position s on, in order: at most l of them, or all of them when l is 0 (MongoDB's "no limit"), and none when s is past the end. |
| AdminHelp.GetAdminHelpRequests | server/src/controllers/adminHelpController.js:376-421 | `page` defaults to 1 and `limit` to 20 when the query leaves them out. Every returned request is stored and matches every truthy filter. They are newest first, at most `limit` of them, and exactly the page of the sorted matches. `total` is the match count and `totalPages` is its ceiling division by `limit`. |
| AdminHelp.DefaultListingIsNewestTwenty | server/src/controllers/adminHelpController.js:378 | A listing with neither `page` nor `limit` in the query reports page 1 of size 20 and returns exactly the 20 newest matches, or all of them when there are fewer. |
| AdminHelp.ChunksFlatten | server/src/controllers/adminHelpController.js:393-399 | Cutting the sorted matches into pages of `limit` loses nothing, duplicates nothing and keeps order. |
| AdminHelp.ChunksCount | server/src/controllers/adminHelpController.js:411 | The number of pages is `Math.ceil(total / limit)`. |
| AdminHelp.SkipLimitIsChunk | server/src/controllers/adminHelpController.js:393-399 | For every page from 1 to `totalPages`, skipping `(page - 1) * limit` and taking `limit` yields exactly that page. |
| AdminHelp.ChunkIsSkipLimit | server/src/controllers/adminHelpController.js:393-399 | The i-th page, counting from 0, is exactly what skipping `i * limit` items and taking `limit` returns. |
| AdminHelp.GetAdminHelpRequestById | server/src/controllers/adminHelpController.js:427-461 | A malformed id gets 400 and an unknown one 404. Every valid id of a stored request succeeds, with the stored request that has that id. |
| AdminNgo.LoweredLookup | server/src/controllers/adminNgoController.js:26 | Looking up `userEmail.toLowerCase()` finds the same user as the schema's lower-casing lookup of the raw e-mail. |
| AdminNgo.RegisterNgo | server/src/controllers/adminNgoController.js:9-93 | Failures in check order: no user under the lower-cased e-mail (404); the user already has an organisation (400); a supplied registration number already used (400); a missing number when another organisation also lacks one (500, unique index). None writes anything, and success follows when none applies. On success the organisation is appended with the given fields, `available`, `approved`, approved by the admin at `now`, with no assignments and no completed tasks. The user's role becomes `NGO`, except that an `ADMIN` stays `ADMIN`. |
| HelpIntake.ComputeUrgency | server/src/controllers/helpController.js:21-29 | The result is `high` if and only if the weather is Rain or Thunderstorm, or the disaster is flood or tsunami. It is `medium` otherwise, and never `low`. |
| HelpIntake.VoicePayload | server/src/controllers/helpController.js:31-39 | A voice payload exists if and only if the upload carries data. It holds the decoded bytes, their count, and the MIME type or "audio/mpeg". |
| HelpIntake.Uploads | server/src/controllers/helpController.js:44 | Every kept upload carries data, an upload is kept if and only if it carries data, and there are no more kept uploads than uploads. |
| HelpIntake.UploadsAppend | server/src/controllers/helpController.js:44 | Filtering distributes over concatenation: the uploads kept from a batch followed by another are those kept from the first followed by those kept from the second, so order and number are kept. |
| HelpIntake.UploadsSingle | server/src/controllers/helpController.js:44 | A single upload is kept, unchanged, exactly when it carries data. |
| HelpIntake.ImagePayloads | server/src/controllers/helpController.js:41-53 | There is one payload per upload with data, in upload order. Each holds the decoded bytes, their count, and the MIME type or "image/jpeg". |
| HelpIntake.ImagePayloadsAppend | server/src/controllers/helpController.js:41-53 | The payloads of two batches of uploads are the payloads of the first followed by those of the second, so payloads come in upload order. |
| HelpIntake.NewRequest | server/src/controllers/helpController.js:57-68 | The stored request has the computed urgency, the weather, both payloads and the body's fields. It is `pending`, unassigned and unpublished, with no admin notes, rejection reason or resolution time, created at `now`. |
| HelpIntake.CreateHelpRequest | server/src/controllers/helpController.js:4-74 | Exactly one request, `NewRequest` with the fresh id, is appended. The weather is the condition found for `realLocation` when truthy, otherwise for `location` (`HelpIntake.WeatherPlace`). |
| Auth.RegisterUser | server/src/controllers/authController.js:13-59 | The handler with the account it evidently means to create (see Findings). A missing field gets 400, a taken e-mail 409, and a role outside the enum the schema's 500, each with no change and no cookie. Exactly when none applies, one unverified user is appended, named by first and last name, with the lower-cased e-mail and the hash of the password (never the password); a lookup of the e-mail then finds it, and a token cookie is set for it. |
| Auth.RegisterOutcomeAsWritten | server/src/controllers/authController.js:13-59 | As written: a missing field gets 400 and a taken e-mail 409, and every other request gets the `catch`'s 500. No request ever creates an account. |
| Auth.AsWrittenAlwaysRejected | server/src/models/user.js:5-8 | For every request that passes the handler's checks, the account as written has no `name`, so the schema refuses it. |
| Auth.Create | server/src/models/user.js:5-23 | `User.create` succeeds exactly when the account has a non-empty `name` and a role in the enum, and then stores that account; otherwise it is the 500 of the `catch`. |
| Auth.IntendedDocument | server/src/controllers/authController.js:31-37 | The intended account is named "first last", holds the lower-cased e-mail, the password hash and the role, and is unverified; the schema accepts it exactly when the role is in the enum. |
| Auth.LoginUser | server/src/controllers/authController.js:61-118 | In order: missing details 400; unknown e-mail 401; wrong password 401; unverified account 400 (only after the password is checked). The answer is 200 with the account and a token cookie if and only if every check passes; otherwise no cookie is set. |
| Auth.LogoutUser | server/src/controllers/authController.js:120-138 | Always 200, and always clears the `access_token` cookie. |
| UserModel.SetRoleKeepsValid | server/src/controllers/adminNgoController.js:74-77 | Changing one user's role keeps ids and e-mails unique. |
| UserModel.RemoveKeepsValid | server/src/models/user.js:9-14 | Deleting a user keeps ids and e-mails unique and lower-cased, and no remaining user has the deleted id. |
| UserModel.UserCollection.IndexOfEmail | server/src/models/user.js:9-14 | The e-mail lookup lower-cases its argument, like the schema's `lowercase` setter, and finds the user with that stored e-mail or reports that there is none. |
| UserModel.UserCollection.DeleteById | server/src/controllers/userManagementController/volunteerProfileController.js:165 | `findByIdAndDelete` removes and returns the user with that id. With none, nothing changes. Afterwards no user has that id. |
| Authorization.Authorize | server/src/middleware/authorizeMiddleware.js:6-26 | No user gives 401; a role not listed gives 403; a listed role calls `next`. Exactly one of the three happens. |
| Authorization.AnyListedRoleSuffices | server/src/middleware/authorizeMiddleware.js:15 | Any one of the listed roles lets the request through. |
| Authorization.MoreRolesAdmitMore | server/src/middleware/authorizeMiddleware.js:6-24 | Listing more roles never turns away a request that was let through. |
| ProfileStatus.ParseAvailability | server/src/models/userProfileModel/VolunteerProfile.js:16-20 | A string parses if and only if it is AVAILABLE, BUSY or OFFLINE, and the parsed value has that name. |
| ProfileStatus.AvailabilityRoundTrip | server/src/models/userProfileModel/NgoProfile.js:16-20 | Every availability's name is accepted and parses back to it. |
| ProfileStatus.AvailabilityOrOffline | server/src/controllers/userManagementController/ngoProfileController.js:29 | A falsy status becomes OFFLINE; any other status passes the enum check or is refused. |
| VolunteerProfiles.CreateVolunteerProfile | server/src/controllers/userManagementController/volunteerProfileController.js:4-43 | No phone gets 400, checked before the duplicate check. An existing profile gets 409. A status outside the enum gets 500. None writes anything. Exactly when none applies, one profile is stored for the caller, with the given phone, skills and districts defaulting to [], OFFLINE by default, unverified, and no tasks. |
| VolunteerProfiles.GetVolunteerProfile | server/src/controllers/userManagementController/volunteerProfileController.js:45-83 | The profile is looked up before the account: a missing profile gets 404, then a missing account 404. When both exist the answer is success: the profile merged with the account's name and e-mail. |
| VolunteerProfiles.PatchLaws | server/src/controllers/userManagementController/volunteerProfileController.js:87-91 | `$set` with an empty body changes nothing, and applying the same body twice is applying it once. |
| VolunteerProfiles.UpdateVolunteerProfile | server/src/controllers/userManagementController/volunteerProfileController.js:85-116 | A body the schema validators refuse gets 500, and a missing profile 404, each with no change. Exactly when neither applies, the supplied keys, and only those, are overwritten. |
| VolunteerProfiles.UpdateAvailabilityStatus | server/src/controllers/userManagementController/volunteerProfileController.js:118-160 | Only AVAILABLE, BUSY or OFFLINE are accepted (400 otherwise), and a missing profile gets 404. Exactly when neither applies, the answer is success and only that field changes. |
| VolunteerProfiles.DeleteVolunteerProfile | server/src/controllers/userManagementController/volunteerProfileController.js:162-206 | The account is deleted first. A missing account gets 404 with both tables untouched. A missing profile gets 404 with the account already gone. The answer is success, clearing the cookie, exactly when both existed; then both are deleted. |
| NgoProfiles.CreateNgoProfile | server/src/controllers/userManagementController/ngoProfileController.js:4-50 | An existing profile gets 409, even when fields are missing. A missing registration number or contact phone gets 400. A status outside the enum gets 500. None writes anything. Exactly when none applies, one profile is stored for the caller, OFFLINE by default, with services defaulting to [] and districts to [""] (`serviceDistricts || ""` cast to an array), unverified and with no tasks. |
| NgoProfiles.GetNgoProfile | server/src/controllers/userManagementController/ngoProfileController.js:52-81 | A missing account gets 404 before the profile is looked up, then a missing profile gets 404. When both exist the answer is success: the profile merged with the account's name and e-mail. |
| NgoProfiles.PatchLaws | server/src/controllers/userManagementController/ngoProfileController.js:86-90 | `$set` with an empty body changes nothing, and applying the same body twice is applying it once. |
| NgoProfiles.UpdateNgoProfile | server/src/controllers/userManagementController/ngoProfileController.js:83-107 | A body the schema validators refuse gets 500, and a missing profile 404, each with no change. Exactly when neither applies, the supplied keys, and only those, are overwritten. |
| NgoProfiles.UpdateAvailabilityStatus | server/src/controllers/userManagementController/ngoProfileController.js:109-151 | Only AVAILABLE, BUSY or OFFLINE are accepted (400 otherwise), and a missing profile gets 404. Exactly when neither applies, the answer is success and only that field changes. |
| NgoProfiles.DeleteNgoProfile | server/src/controllers/userManagementController/ngoProfileController.js:153-184 | The account is deleted first. A missing account gets 404 with both tables untouched. A missing profile gets 404 with the account already gone. The answer is success, clearing the cookie, exactly when both existed; then both are deleted. |
| CitizenProfiles.CreateCitizenProfile | server/src/controllers/userManagementController/citizenProfileController.js:4-63 | In order: a missing phone, address, emergency contact name or phone gets 400; an empty caller id 400; an existing profile 409; an address with an empty part 500. None writes anything. Exactly when none applies, the given fields are stored, with location "" when none is given and no saved shelters. |
| CitizenProfiles.GetCitizenProfile | server/src/controllers/userManagementController/citizenProfileController.js:65-99 | A missing account gets 404 before the profile is looked up, then a missing profile gets 404. When both exist the answer is success: the profile merged with the account's name and e-mail. |
| CitizenProfiles.PatchLaws | server/src/controllers/userManagementController/citizenProfileController.js:103-107 | `$set` with an empty body changes nothing, and applying the same body twice is applying it once. |
| CitizenProfiles.UpdateCitizenProfile | server/src/controllers/userManagementController/citizenProfileController.js:101-123 | A body the schema validators refuse gets 500, and a missing profile 404, each with no change. Exactly when neither applies, the supplied keys, and only those, are overwritten. |
| CitizenProfiles.DeleteCitizenProfile | server/src/controllers/userManagementController/citizenProfileController.js:126-167 | The account is deleted first. A missing account gets 404 with both tables untouched. A missing profile gets 404 with the account already gone. The answer is success, clearing the cookie, exactly when both existed; then both are deleted. |
| JsText.TrimEmptyIffBlank | server/src/controllers/adminHelpController.js:238 | `reason.trim() === ""` holds if and only if every character of the reason is ECMAScript white space or a line terminator. |

## Behaviour of the source worth knowing

Each of these is what the source does, and the model follows it. None is
claimed as a defect.

- `resolveHelpRequest` does not look at the current status. Resolving the same request twice credits its organisation twice (see `AdminHelp.ResolveHelpRequest`).
- A read within 30 seconds of a stop writes `isOnline: true` back onto the stopped session (see `LocationController.ReadSoonAfterStopIsOnlineButNotLive`).
- `getLocationHistory` with `limit=0` or a non-numeric limit returns the whole history, because `slice(-0)` and `slice(NaN)` start at 0. A negative limit drops points from the front.
- The profile updates `$set` the request body as it is, so a caller can set `verifiedByAdmin` on their own profile.
- `registerNgo` checks registration numbers only when one is supplied. A second organisation without one is refused by the unique index, with a 500 (`AdminNgo.RegisterNgo`, error `DuplicateKey`).
- In `registerUser`, `role || "CITIZEN"` never applies, because `role` is already required by the guard at line 16.
- The volunteer `getVolunteerProfile` looks up the profile before the account. The NGO and citizen versions look up the account first.

## Findings

| source | as written | input that shows it | evidently intended | confidence | as-written member | corrected member |
|---|---|---|---|---|---|---|
| server/src/controllers/authController.js:31-37 | `User.create` is given `firstName` and `lastName`, which the strict user schema drops, and no `name`, which the schema requires (server/src/models/user.js:5-8). Every registration that passes the checks at lines 16 and 23 fails validation and ends in the `catch` 500 at lines 53-58; no account is stored and no cookie is set. | `firstName` "A", `lastName` "B", e-mail "a@b.com", password "Pass123!", role "CITIZEN", with no account under that e-mail | the account is created with `name` "A B", the first and last name joined, as the controller's unit test expects (server/src/tests/unit/authTests/authController.test.js:129-175) | high, not executed | Auth.RegisterOutcomeAsWritten, Auth.AsWrittenAlwaysRejected | Auth.RegisterUser, Auth.IntendedDocument |

## Left out

- Real-time messaging: the socket server only logs connections, so there is nothing to model.
- Weather lookup: the HTTP call and its unit conversions are left out. The condition string is a parameter of `HelpIntake.CreateHelpRequest`.
- Hashing, password comparison, JWT signing and verification, and base64 decoding are uninterpreted function parameters. Cookie options are not modelled.
- Joi request validation (`validate.js`), `populate`, the `me` handler and the routes are not part of this model.
- Thrown store errors (the `catch` blocks answering 500) are left out. The only modelled 500 answers are those the stored data decides: the unique index on `registrationNumber`, and the schema validators of the profile writes (enum values, required strings).
- HelpIntake.CreateHelpRequest: does not model the help-request schema. Its required `name`, `location`, `contactNumber`, `realLocation`, `disasterType` and `message` (`server/src/models/HelpRequest.js:5-15`) and its `disasterType` enum (`flood`, `tsunami`, `landslide`, `cyclone`, `other`) are not checked. A body that breaks them succeeds in the model, where the source answers 500 from its catch block (`server/src/controllers/helpController.js:71-73`).
- AdminNgo.RegisterNgo: does not model the organisation schema. Its required `organizationName`, `contactPerson`, `officialEmail` and `phone` (`server/src/models/ngoModel.js:14`, `:23-25`) and its `type` enum (`server/src/models/ngoModel.js:17-21`) are not checked. A body that breaks them succeeds in the model, where the source answers 500 from its catch block (`server/src/controllers/adminNgoController.js:87-92`).
- Other schema validation is not modelled either: the location `emergencyType` enum and number casts. Requests that would fail it are modelled as succeeding. The user schema's required `name` and `role` enum are modelled at registration only (`Auth.Create`).
- TTL expiry and the geospatial index of the location collection are left out. So are the `userId`, `createdAt` and `updatedAt` fields of documents, except `createdAt` of help requests, which the listing sorts by.
- Sort ties: `Seqs.SortDesc` keeps collection order among equal keys. MongoDB does not promise any order among ties.
- `ObjectIds.IsValid` is a string-level check (12 characters, or 24 hexadecimal digits). Ids are compared as strings, so the case of hexadecimal digits matters in the model but not in MongoDB.
- `JsText.Lower` maps only ASCII letters. `toLowerCase` on other scripts is not modelled.
- AdminHelp.GetAdminHelpRequests: requires the `page` and `limit` in use (given or defaulted) to be at least 1. The source passes any `parseInt` result, including 0, negatives and NaN, to MongoDB, whose behaviour for them is not modelled.
- LocationController.ActivateEmergency: an `emergencyMessage` of `null` is treated like a missing one.
- The profile patches carry only the schema's own fields. Keys such as `userId` or `_id` in the body, and `null` values, are not modelled.
- VolunteerProfiles.UpdateVolunteerProfile, NgoProfiles.UpdateNgoProfile and CitizenProfiles.UpdateCitizenProfile: the update validators are taken to run before the document lookup, so a refused body gets 500 even when there is no profile.
- `parseInt` itself is not modelled. The history limit is given already parsed (`HistoryLimit`), and so are the listing's `page` and `limit` when the query gives them (`None` when it leaves them out, so the defaults apply).
