# evizy vaccine-core: identity resolution, registration and write-endpoint authorization

A Dafny model of the decision logic in the evizy vaccine-distribution backend.
The backend keeps admins, citizen accounts (users), health facilities, vaccines
and per-facility vaccine distributions. The model covers three parts:

- **Principal resolution.** `getInfoByPrincipal` and `loadUserByUsername` parse a
  role-tagged string. A string starting with `admin_` is looked up in the admin
  store. Any other string is looked up in the user store, keyed by the text after
  its first `user_`.
- **Registration.** `register` first rejects a nik that is already stored, then
  scans the citizen registry case-insensitively. It stores a new active account
  with the registry's gender and date of birth and the encoded password.
- **Write-endpoint authorization.** The facility and vaccine controllers gate
  create, update and delete on the super-admin flag. The distribution endpoint
  requires the facility's owning admin or a super-admin. Every failure becomes a
  (code, status, null) envelope.

The stores are immutable values:

- admins: a map keyed by username;
- users: a sequence of rows in listing order, with an auto-increment id;
- facilities, vaccines and distributions: `Tables.Table`, a map with an
  auto-increment key.

Each write handler is a pure function from (state, caller name, request) to an
envelope and the new state. Reads return only an envelope, so they cannot change
the state. `Api.Handle` dispatches every endpoint, and the cross-endpoint
properties are stated against an independent policy predicate, `Api.Authorized`.

Java's `split(sep, 2)` is modelled on its first occurrence (`JavaStrings.SplitOnce`).
Exceptions become `Errors.Failure` values:

- `BusinessFlowException`;
- `UsernameNotFoundException`;
- the validator's constraint violation;
- the index-out-of-bounds of `split(..)[1]`;
- a null dereference;
- a failed `(Admin)` cast.

The parts the core calls but does not define are passed in as parameters of `Backend.Services`:

- the error each service raises when a record is missing;
- the field validator.

The password encoder is the `encode` parameter of `Register`.

## Where the code is stricter than its policy

The model follows the code where its behaviour is stricter than, or differs
from, the authorization policy `Api.Authorized` states.

- A facility with no owning admin makes distribution fail with
  INTERNAL_SERVER_ERROR, a super-admin's included. The owner's id is read
  (HealthFacilitiesController.java:140) before the super-admin flag, so the
  null reference fails first and lands in the generic catch (lines 151-154).
  `Api.Authorized` allows a super-admin; `Api.NullOwnerBlocksSuperAdmin`
  proves the code refuses anyway.
- The registry scan has no `break` (AuthService.java:66-69), so when several
  entries match the nik ignoring case, the last one supplies the demographics
  (`AuthService.LastMatch`, `AuthService.Register`).
- A principal string with neither an `admin_` prefix nor any `user_` fails at
  `split(..)[1]` (AuthService.java:49) with an index-out-of-bounds, outside the
  typed "Info not found!" error path (`AuthService.GetInfoByPrincipal`).

## Model

| member | source | states |
|---|---|---|
| JavaStrings.SplitOnce | src/main/java/com/evizy/evizy/service/AuthService.java:46 | `split(sep, 2)` gives one part (the whole string) iff `sep` never occurs; otherwise two parts that rejoin around `sep` to the input, the first ending at the leftmost occurrence |
| AuthService.PrincipalTarget | src/main/java/com/evizy/evizy/service/AuthService.java:44-51 | an `admin_`-prefixed string targets only the admin store, keyed by the text after that prefix; any other string targets only the user store, keyed by the text after its first `user_`; it has no key exactly when it contains no `user_` |
| AuthService.TaggedAdminName | src/main/java/com/evizy/evizy/controller/HealthFacilitiesController.java:33 | `"admin_" + n` is looked up in the admin store under exactly `n` |
| AuthService.UserTagKey | src/main/java/com/evizy/evizy/service/AuthService.java:48-50 | a string not starting with `admin_` whose first `user_` is at index i is keyed by the text after it, even when i is not 0 |
| AuthService.GetInfoByPrincipal | src/main/java/com/evizy/evizy/service/AuthService.java:43-55 | succeeds exactly when the chosen store holds the key, returning that record; a miss is UNAUTHORIZED "Info not found!" with no record; a string with neither tag fails outside the typed error path |
| UserTable.FindByNik | src/main/java/com/evizy/evizy/service/AuthService.java:58 | the nik lookup returns the first stored row with exactly that nik, and nothing exactly when no row has it |
| AuthService.LastMatch | src/main/java/com/evizy/evizy/service/AuthService.java:65-69 | the registry entry kept is the last one whose nik equals the request nik ignoring case; none exactly when no entry matches |
| AuthService.ScanRegistry | src/main/java/com/evizy/evizy/service/AuthService.java:63-74 | the forward loop without `break` ends holding the last case-insensitive match, and null exactly when there is none |
| AuthService.Register | src/main/java/com/evizy/evizy/service/AuthService.java:57-85 | succeeds exactly when the nik is not stored and some registry entry matches it ignoring case; a stored nik fails ALREADY_EXIST; then an unknown nik fails INVALID_NIK; both leave the store unchanged; on success the new active record takes nik, name and phone from the request, gender and date of birth from the last matching registry entry, the encoded password, and is the only row added |
| AuthService.RegistrationExample | src/main/java/com/evizy/evizy/service/AuthService.java:57-85 | registering nik "3201ab" against a registry entry "3201AB" (Alice, F, 1990-01-01) into an empty store succeeds with that gender and date of birth, the request's nik, name and phone, active, the encoded password, as the store's only row |
| AuthService.DuplicateIgnoresRegistry | src/main/java/com/evizy/evizy/service/AuthService.java:58-63 | when the nik is already stored the outcome is the same whatever the registry holds: it is never consulted |
| AuthService.RequestDemographicsIgnored | src/main/java/com/evizy/evizy/service/AuthService.java:76-83 | the gender and date of birth in the request have no influence on registration |
| UserTable.FindByNikAppend | src/main/java/com/evizy/evizy/service/AuthService.java:84 | a saved row whose nik no earlier row has is what a later nik lookup finds |
| AuthService.RegisterTwiceRejected | src/main/java/com/evizy/evizy/service/AuthService.java:57-85 | after a successful registration, registering the same nik again fails ALREADY_EXIST and changes nothing |
| AuthService.RegisteredUserResolves | src/main/java/com/evizy/evizy/service/AuthService.java:43-85 | after a successful registration, `"user_" + nik` resolves to exactly the stored record |
| UsersService.LoadUserByUsername | src/main/java/com/evizy/evizy/service/UsersService.java:37-49 | succeeds only with the record stored under the key the shared dispatch chooses; a miss is UsernameNotFound "Credentials not found" |
| UsersService.LoadUserAgreesWithGetInfo | src/main/java/com/evizy/evizy/service/UsersService.java:39-47 | for every string both resolvers succeed together with the same record and fail for a missing `user_` together; an AuthService miss ("Info not found!") is exactly a UsersService miss ("Credentials not found") |
| UsersService.Find | src/main/java/com/evizy/evizy/service/UsersService.java:51-65 | fails BAD_REQUEST "User not found!" exactly when no row has the id; otherwise copies id, nik, name, phone, gender and date of birth of that row, with no password |
| UsersService.FindAll | src/main/java/com/evizy/evizy/service/UsersService.java:67-82 | the list has the store's length and order, element i being the projection of row i |
| HealthFacilitiesController.ResolveAdmin | src/main/java/com/evizy/evizy/controller/HealthFacilitiesController.java:33 | the caller resolves to the admin stored under the raw name, or fails UNAUTHORIZED "Info not found!"; the `(Admin)` cast never fails |
| HealthFacilitiesController.RequireSuperAdmin | src/main/java/com/evizy/evizy/controller/HealthFacilitiesController.java:33-35 | passes exactly for a stored super-admin; every other caller gets an UNAUTHORIZED business error |
| HealthFacilitiesController.Create | src/main/java/com/evizy/evizy/controller/HealthFacilitiesController.java:30-50 | a non-super-admin gets UNAUTHORIZED with a null payload even for invalid input; a super-admin with invalid input gets BAD_REQUEST/INVALID_INPUT; neither changes the state; otherwise 201 CREATED with the body under a fresh id, the only change |
| HealthFacilitiesController.Update | src/main/java/com/evizy/evizy/controller/HealthFacilitiesController.java:70-90 | the authorization check precedes validation, and validation precedes the facility lookup, whose miss surfaces the service's error; failures change nothing; success is 200 with the record, and only that facility changes |
| HealthFacilitiesController.Delete | src/main/java/com/evizy/evizy/controller/HealthFacilitiesController.java:52-68 | non-super-admins get UNAUTHORIZED; a missing id surfaces the service's error; both leave the state unchanged; success is 200 with a null payload and removes exactly that facility |
| HealthFacilitiesController.FindById | src/main/java/com/evizy/evizy/controller/HealthFacilitiesController.java:92-104 | takes no caller; returns 200 with the stored facility, or the service's not-found error |
| HealthFacilitiesController.FindAll | src/main/java/com/evizy/evizy/controller/HealthFacilitiesController.java:106-118 | lists exactly the facilities of the given city, or all of them when no city is given, with their stored values |
| HealthFacilitiesController.GetAllVaccines | src/main/java/com/evizy/evizy/controller/HealthFacilitiesController.java:120-132 | lists exactly the distributions recorded against the facility, with their stored values |
| HealthFacilitiesController.CreateVaccineDistribution | src/main/java/com/evizy/evizy/controller/HealthFacilitiesController.java:134-156 | an unknown caller gets UNAUTHORIZED; a missing facility surfaces the lookup's error whatever the caller's role; a null owner gives INTERNAL_SERVER_ERROR; a caller who is neither owner nor super-admin gets UNAUTHORIZED; none of these records anything; otherwise 200 OK and exactly one distribution recorded against the path id |
| HealthFacilitiesController.DistributionIgnoresBodyFacility | src/main/java/com/evizy/evizy/controller/HealthFacilitiesController.java:144-147 | the facility named in the body has no influence: the path id overrides it |
| HealthFacilitiesController.MissingFacilityPrecedesOwnership | src/main/java/com/evizy/evizy/controller/HealthFacilitiesController.java:137-142 | for a missing facility every stored caller, owner, super-admin or neither, receives the same reply |
| HealthFacilitiesController.CreatedFacilityReadsBack | src/main/java/com/evizy/evizy/controller/HealthFacilitiesController.java:39-40 | a facility created by a super-admin reads back unchanged under the id the creation returned |
| VaccineController.RequireSuperAdmin | src/main/java/com/evizy/evizy/controller/VaccineController.java:30-32 | the caller is looked up by the raw principal name; an unknown name fails with the admin service's own error, a stored non-super-admin with UNAUTHORIZED |
| VaccineController.Create | src/main/java/com/evizy/evizy/controller/VaccineController.java:28-43 | an unknown caller gets the admin lookup's error and a non-super-admin UNAUTHORIZED, both with no change; a super-admin gets 201 CREATED with the vaccine under a fresh id, the only change |
| VaccineController.Update | src/main/java/com/evizy/evizy/controller/VaccineController.java:63-79 | same gate; a missing vaccine surfaces the service's error; failures change nothing; success is 200 with the vaccine and changes only it |
| VaccineController.Delete | src/main/java/com/evizy/evizy/controller/VaccineController.java:45-61 | same gate; a missing vaccine surfaces the service's error; success is 200 with a null payload and removes only that vaccine |
| VaccineController.FindById | src/main/java/com/evizy/evizy/controller/VaccineController.java:81-93 | takes no caller; 200 with the stored vaccine, or the service's not-found error |
| VaccineController.CreatedVaccineReadsBack | src/main/java/com/evizy/evizy/controller/VaccineController.java:34-35 | creating a vaccine and then reading the returned id yields a record equal to the input |
| VaccineController.FindAll | src/main/java/com/evizy/evizy/controller/VaccineController.java:95-107 | takes no caller; always 200 SUCCESS listing exactly the stored vaccines |
| Backend.CatchBusiness | src/main/java/com/evizy/evizy/controller/VaccineController.java:36-42 | a business error becomes an envelope with its own code and status; any other failure becomes INTERNAL_SERVER_ERROR; no error envelope has a payload |
| Backend.CatchValidation | src/main/java/com/evizy/evizy/controller/HealthFacilitiesController.java:41-48 | a constraint violation becomes BAD_REQUEST/INVALID_INPUT before the business and generic catches apply; no error envelope has a payload |
| Api.OnlyAuthorizedWritesMutate | src/main/java/com/evizy/evizy/controller/HealthFacilitiesController.java:30-156 | over every endpoint, a request that changes the state is a write that the super-admin / owner-or-super-admin policy allows |
| Api.UnauthorizedWritesRejected | src/main/java/com/evizy/evizy/controller/VaccineController.java:28-79 | a write the policy refuses gets an error status, a null payload and no state change |
| Api.FailuresLeaveStateUnchanged | src/main/java/com/evizy/evizy/controller/HealthFacilitiesController.java:41-48 | every reply with an error status has a null payload and left the state as it was |
| Api.ReadsIgnoreIdentity | src/main/java/com/evizy/evizy/controller/VaccineController.java:81-107 | reads never change the state, and their reply does not depend on the admin or user stores |
| Api.NullOwnerBlocksSuperAdmin | src/main/java/com/evizy/evizy/controller/HealthFacilitiesController.java:140 | a super-admin, whom the policy allows, still gets INTERNAL_SERVER_ERROR for a facility with a null owner, and nothing changes |

## Left out

- Token issuance (`authenticatedAndGenerateToken`) is left out: it is JWT signing, Spring's authentication manager and the thread-local security context.
- The registry fetch (`getAllCitizen`) is network I/O. The registry snapshot is an input sequence of `Register`.
- The password hashing algorithm is not modelled. `encode` is an opaque parameter, and nothing is proved about its output.
- The internals of HealthFacilityService, VaccineService, HealthFacilitiesVaccinesService and AdminService are not part of this model. Their lookups, inserts, updates and deletes are map operations: on `Tables.Table` for facilities, vaccines and distributions, and on the admin `map` keyed by username for AdminService. A missing key fails with the not-found error passed in through `Backend.Services`.
- `Backend.Distribute` is a modelling choice. It records the allocation when the vaccine exists and otherwise fails with the vaccine service's not-found error.
- HealthFacilitiesController.FindAll, HealthFacilitiesController.GetAllVaccines and VaccineController.FindAll never fail: the listing services are modelled as filters of the stored rows. In particular, listing the distributions of a facility that does not exist gives an empty 200 listing; whether the real service raises an error there is not modelled.
- The facility, vaccine and distribution listings are maps from id to record, so the order of the Java `List` the services return is not modelled. The users listing of `UsersService.FindAll` keeps the store's order.
- `Validation.validate` is an opaque predicate, `Services.validFacility`.
- Facility update replaces the whole record. Which fields the service really overwrites is not modelled.
- Database behaviour is out: collation, the case sensitivity of `getDistinctTopByNik`, uniqueness constraints and cascading deletes. Store lookups are exact key matches.
- The check-then-insert race between two concurrent registrations is a concurrency concern and is not modelled.
- A null principal, a null nik, name or phone in a request, and a null nik in a registry entry are not modelled: those strings are always present. Three nullable fields are modelled as `Option`: the facility owner, the facility reference of a distribution request (overwritten by the path id before use), and the request password, which is handed to `encode` as it is, absent or not.
- AuthService.LastMatch: matches niks with an ASCII case fold rather than Java's full Unicode `equalsIgnoreCase`, because the niks are digit strings and a Unicode case table is out of scope.
- Error messages do not reach the envelope. `Response.build` receives only the code, the status and the payload, so only those are modelled. Logging and Spring routing are out.
