# Account and authorisation backend, modelled in Dafny

This project models the accounts core of a student and college platform's
backend. That core covers:

- registration, login and logout with access and refresh tokens;
- reading and partially updating the current user and its profile;
- changing the password;
- three role-based permission checks and one ownership check;
- the uniform response envelope `{success, data?, message?, error?, details?}`,
  and the exception handler that rewrites framework errors into it.

Modules follow the source files:

| module | file | what it holds |
|---|---|---|
| `Values` | — | `Option`, the JSON-like request and response values, Python truthiness |
| `PyStrings` | — | `str.strip()` and `str.lower()`, as the login handler applies them |
| `Envelope` | `backend/core/utils.py` | `success_response` and `error_response` |
| `ErrorHandling` | `backend/core/exceptions.py` | `custom_exception_handler`, over a mutable response object |
| `Accounts` | `backend/apps/accounts/models.py` | `College`, `User`, `UserProfile`, the role choices, and the store of rows with its unique and foreign-key constraints as invariants |
| `Permissions` | `backend/core/permissions.py` | `IsSuperAdmin`, `IsCollegeAdmin`, `IsSubscriber`, `IsOwnerOrAdmin` |
| `Serializers` | `backend/apps/accounts/api/serializers.py` | the renderings, the registration check and creation, the old-password check, and the partial update, whose `setattr` loops are methods |
| `Views` | `backend/apps/accounts/api/views.py` | the handlers. Login and the profile read are functions. Register, logout, the profile update and the password change are methods of `AccountsApi`, which holds the rows and the refresh-token blacklist |

Code the model cannot see is passed in as parameters:

- the password hasher: `Hasher`, with the one property used, `Sound`;
- the authentication backend: `authenticate`;
- the token pair issued for a user;
- the refresh-token decoder: `decode`;
- the clock and the new primary key;
- Python's `str` of an exception detail: `render`;
- the framework's per-field validation outcome: `FieldStage` for registration
  (every field validator except the unique ones), `Checked` for the profile
  update, `FieldResult` for the password change.

Registration runs the unique validators of the email and username columns
against the stored rows (`CheckRegistration`). Like every other field
validator, they run whatever else fails, and all errors are reported together,
so a second registration with the same email is refused. Three things come
from outside that check, and the preconditions state them:

- `AccountsApi.Register`: a primary key not yet in use, supplied by the database;
- `AccountsApi.Register`: a field whose value could not be read at all carries
  an error (`WellFormedStage`); no validator of such a field runs;
- `AccountsApi.MePatch`: an existing college for a college reference, from the
  related-field lookup.

The token library cannot be seen from this code. Its blacklist behaviour is an
assumption, written as `RefreshTokenFrom` and `AccountsApi.Blacklist`:

- a token that does not decode is refused;
- so is a token whose id is already blacklisted;
- every other token is accepted;
- blacklisting adds the id and never fails.

Behaviour of the code worth knowing:

- `IsOwnerOrAdmin` reads the role without checking authentication, so it is
  defined only for a stored account.
- Registration creates no profile row. Every view goes through `UserData`,
  which renders a missing profile as null.
- The profile update saves the user row before it touches the profile, so the
  update is not atomic, unless request-level transactions are enabled; no
  settings file is part of this model. A user with no profile who sends
  profile data gets an unhandled error after the user row was saved;
  `AccountsApi.MePatch` returns `None` for that case.
- Registration stores the email without lower-casing it, and its uniqueness
  check compares exactly, while login lower-cases the email before authenticating. With an
  exact-match lookup, an account registered with upper-case letters in its
  email cannot log in, and two addresses differing only in case can both be
  registered.
- The serializers' password fields trim surrounding whitespace, as the
  framework's text fields do by default, while login passes the password on as
  typed. So a password chosen with surrounding spaces is stored trimmed, and
  logging in with it exactly as typed plausibly fails. The model is consistent
  with this: `FieldStage` and `FieldResult` carry the trimmed values.
- The wrong-old-password message ends with a period: "Current password is
  incorrect."
- The exception handler's `details` branch reads the body it has just built,
  so field details never survive it.

## Model

| member | source | states |
|---|---|---|
| Envelope.SuccessResponse | backend/core/utils.py:5-9 | the reply has the given status (200 by default) and the success body for the given data and message |
| Envelope.SuccessPayloadShape | backend/core/utils.py:5-9 | a success body has success=true and always carries `data`, even when it is None. It never carries `error` or `details`, and it carries `message` exactly when the message is non-empty |
| Envelope.ErrorResponse | backend/core/utils.py:12-21 | the reply has the given status (400 by default) and the error body for the given error, message and details |
| Envelope.ErrorPayloadShape | backend/core/utils.py:12-21 | an error body has success=false, always carries `error` and `message`, never carries `data`, and carries `details` exactly when the details are truthy |
| Envelope.SuccessFlagDecides | backend/core/utils.py:6-18 | no success body equals an error body |
| Envelope.DefaultStatuses | backend/core/utils.py:5-21 | with no arguments, `success_response` gives 200 and `{success: true, data: None}`; `error_response` without a status gives 400 and no `details` |
| ErrorHandling.HandledData | backend/core/exceptions.py:8-13 | the installed body has exactly success=false, `error` and `message`. Both text entries are the base body's `detail` rendered as a string, or the exception's text when there is no `detail` |
| ErrorHandling.CustomExceptionHandler | backend/core/exceptions.py:5-17 | passes through an unhandled exception (null). When the base body is not a dict it raises and leaves the body alone. Otherwise it replaces the body in place with the handled body; the status code never changes |
| ErrorHandling.DetailsNeverSurvive | backend/core/exceptions.py:14-16 | whatever field details the base body held, the installed body has no `details` |
| ErrorHandling.OnlyDetailMatters | backend/core/exceptions.py:8 | two base bodies that agree on `detail` (the same one, or neither has one) get the same installed body |
| Permissions.IsSuperAdmin | backend/core/permissions.py:4-6 | computes `has_permission`: a present, authenticated requester whose role is super admin; its properties are in `RoleChecksAreThresholds`, `RoleChecksNest` and `UnauthenticatedOrFreeDenied` |
| Permissions.IsCollegeAdmin | backend/core/permissions.py:9-15 | computes `has_permission`: a present, authenticated requester whose role is college admin or super admin; properties as for `IsSuperAdmin` |
| Permissions.IsSubscriber | backend/core/permissions.py:18-24 | computes `has_permission`: a present, authenticated requester with any role but free; properties as for `IsSuperAdmin` |
| Permissions.IsOwnerOrAdmin | backend/core/permissions.py:27-31 | computes `has_object_permission`: true for an admin role, otherwise when the object is the requester or is owned by it; its properties are in `AdminsPassOwnership` and `OwnershipForOthers` |
| Permissions.RoleChecksAreThresholds | backend/core/permissions.py:4-24 | each role check holds exactly for an authenticated user at or above its rank in free < subscriber < college_admin < super_admin |
| Permissions.RoleChecksNest | backend/core/permissions.py:4-24 | IsSuperAdmin implies IsCollegeAdmin, which implies IsSubscriber |
| Permissions.UnauthenticatedOrFreeDenied | backend/core/permissions.py:4-24 | a missing, anonymous or free user fails all three role checks |
| Permissions.AdminsPassOwnership | backend/core/permissions.py:27-29 | college and super admins pass the ownership check for every object |
| Permissions.OwnershipForOthers | backend/core/permissions.py:27-31 | any other user passes exactly for its own user row or for a row whose `user` is itself; an ownerless object is refused |
| Accounts.RoleChoicesMatchRoles | backend/apps/accounts/models.py:20-29 | every role is stored as one of the four choices, no two roles share a choice, and every choice is some role's |
| Accounts.EmptyStoreValid | backend/apps/accounts/models.py:5-58 | the empty database meets every unique and foreign-key constraint |
| Accounts.EmailIdentifiesUser | backend/apps/accounts/models.py:27-47 | email is the unique login identifier: two stored users with the same email are the same row |
| Accounts.ProfileHasOneOwner | backend/apps/accounts/models.py:58 | each profile belongs to exactly one stored user |
| Accounts.NewProfile | backend/apps/accounts/models.py:57-64 | a new profile belongs to its user and starts with all three counters at 0 |
| Accounts.AddUser | backend/apps/accounts/models.py:19-47 | inserting a row with unused email, username and id, and an existing or null college, keeps every constraint and adds exactly that row and its id |
| Accounts.SaveUser | backend/apps/accounts/models.py:19-47 | writing back a row that keeps its id and a unique username keeps every constraint and the set of ids |
| Accounts.AddProfile | backend/apps/accounts/models.py:57-58 | creating the profile of a user who has none keeps every constraint |
| Accounts.SaveProfile | backend/apps/accounts/models.py:57-65 | writing back an existing profile keeps every constraint |
| Accounts.AddCollege | backend/apps/accounts/models.py:5-10 | inserting a college with a new code keeps every constraint |
| Accounts.DeleteCollege | backend/apps/accounts/models.py:37-43 | deleting a college keeps every user. Each reference to it becomes null and nothing else about any user changes (`SET_NULL`) |
| Accounts.DeleteUser | backend/apps/accounts/models.py:58 | deleting a user deletes its profile too (`CASCADE`) and keeps every constraint |
| Accounts.NoOrphanProfileAfterDelete | backend/apps/accounts/models.py:58 | after a cascade delete, the deleted user's profile is gone and every profile's user exists |
| Serializers.SetPassword | backend/apps/accounts/api/serializers.py:78-83 | only the password's encoding is stored, and no other column changes |
| Serializers.SetPasswordThenCheck | backend/apps/accounts/api/serializers.py:81-92 | after `set_password(raw)`, `check_password(raw)` holds |
| Serializers.CollegeData | backend/apps/accounts/api/serializers.py:6-10 | computes the college rendering: `id`, `name` and `code`; `UserData` nests it as `college_detail` |
| Serializers.ProfileData | backend/apps/accounts/api/serializers.py:13-19 | computes the profile rendering from the stored columns; its properties are in `ProfileDataShape` and `ProfileCountersReadOnly` |
| Serializers.UserData | backend/apps/accounts/api/serializers.py:22-48 | computes the user rendering, with the profile and college looked up in the store; its properties are in `UserDataShape` and `UserDataValues` |
| Serializers.UserDataShape | backend/apps/accounts/api/serializers.py:22-48 | a rendered user has exactly the 18 declared fields, so the password is never rendered |
| Serializers.UserDataValues | backend/apps/accounts/api/serializers.py:22-48 | email, role and the nested profile are rendered as stored |
| Serializers.ProfileDataShape | backend/apps/accounts/api/serializers.py:13-19 | a rendered profile has exactly the six declared fields, and its counters are the stored ones |
| Serializers.ProfileCountersReadOnly | backend/apps/accounts/api/serializers.py:13-19 | the three counters and the avatar are read-only, so only `bio` and `last_active` are writable in that representation; and after any profile update the rendered counters and `last_active` are the ones stored before |
| Serializers.Validate | backend/apps/accounts/api/serializers.py:73-76 | inputs are rejected exactly when the two passwords differ, with one message under `password`; otherwise the confirmation is dropped and the rest kept |
| Serializers.UniquenessMessages | backend/apps/accounts/models.py:27 | for a field whose value was read, there is an `email` message exactly when a stored user has that email, and a `username` message exactly when one has that username, each the unique validator's message; there are no other keys |
| Serializers.CheckRegistration | backend/apps/accounts/api/serializers.py:51-76 | a registration is accepted exactly when no field check fails, the email and username are unused and the passwords match; an accepted one is the validated registration. When a field check or a unique validator fails, the errors are all fields' messages joined field by field; otherwise the error is the password mismatch |
| Serializers.RegistrationErrorsReported | backend/apps/accounts/api/serializers.py:51-76 | every failing field is reported with its messages; a taken email or username is reported under its field, after that field's other messages, whatever else failed |
| Serializers.AcceptedIsInsertable | backend/apps/accounts/api/serializers.py:51-83 | an accepted, well-formed registration with a fresh primary key can be inserted without breaking a unique constraint |
| Serializers.ValidateRoundTrip | backend/apps/accounts/api/serializers.py:73-76 | validation accepts any confirmed registration and gives it back. Whatever it accepts is the confirmed form of what it returns |
| Serializers.BuildUser | backend/apps/accounts/api/serializers.py:78-80 | the new user has the registration's columns, plus these defaults: role free, active, no college, no cgpa and no usable password |
| Serializers.Create | backend/apps/accounts/api/serializers.py:78-83 | the stored row is the built user with the encoded password, inserted with every constraint kept. With a sound hasher, the registration's password checks against it |
| Serializers.ValidateOldPassword | backend/apps/accounts/api/serializers.py:90-94 | the old password is rejected, with "Current password is incorrect.", exactly when it does not check against the stored one |
| Serializers.ChangePasswordErrors | backend/apps/accounts/api/serializers.py:86-94 | there is an `old_password` error exactly when that field failed or does not check; a failed field keeps its own messages and a wrong old password gets "Current password is incorrect."; there is a `new_password` error exactly when that field failed, with its messages; there are no other keys |
| Serializers.UpdateAttrsAreUpdateFields | backend/apps/accounts/api/serializers.py:97-119 | the writable attributes are exactly the update fields, which leave out id, email, role, created_at, username and password |
| Serializers.Set | backend/apps/accounts/api/serializers.py:123-124 | `setattr` changes the named column only and keeps the identity columns |
| Serializers.PatchedPointwise | backend/apps/accounts/api/serializers.py:121-125 | after the update, every supplied column has its new value, every other column its old one, and the identity columns stay |
| Serializers.ApplyUserFields | backend/apps/accounts/api/serializers.py:123-124 | the `setattr` loop yields the patched user, whatever order it visits the columns in |
| Serializers.SetProfile | backend/apps/accounts/api/serializers.py:129-130 | `setattr` on a profile changes the named column only and keeps the counters |
| Serializers.PatchedProfilePointwise | backend/apps/accounts/api/serializers.py:127-131 | supplied profile columns take their values; the others and every counter keep theirs |
| Serializers.ApplyProfileFields | backend/apps/accounts/api/serializers.py:129-131 | the profile `setattr` loop yields the patched profile |
| Serializers.Update | backend/apps/accounts/api/serializers.py:121-133 | the user row is patched and every constraint kept. The profile is patched only when profile data was sent and the profile exists; the error is flagged exactly when data was sent and there is no profile |
| PyStrings.Normalize | backend/apps/accounts/api/views.py:46 | computes `.strip().lower()` of the submitted email; its properties are in `NormalizeEmptyIff`, `NormalizeShape` and `NormalizeIdempotent` |
| PyStrings.NormalizeEmptyIff | backend/apps/accounts/api/views.py:46-49 | the normalised email is empty exactly when the submitted one is all whitespace |
| PyStrings.NormalizeShape | backend/apps/accounts/api/views.py:46 | the normalised email has no upper-case letter and no surrounding whitespace |
| PyStrings.NormalizeIdempotent | backend/apps/accounts/api/views.py:46 | normalising twice is normalising once |
| Views.TokenData | backend/apps/accounts/api/views.py:29-34 | the data of a registration or login has exactly `user`, `access` and `refresh`, and `user` is the rendered account |
| Views.LoginReply | backend/apps/accounts/api/views.py:49-78 | computes the login reply from the normalised email and the password: the missing-field check, then one `authenticate` call, then the disabled check, then the tokens |
| Views.LoginView | backend/apps/accounts/api/views.py:43-78 | computes `LoginView.post`: reads both fields with "" as default, normalises the email and answers with `LoginReply`; its properties are in the `Login…` rows below |
| Views.LoginStatuses | backend/apps/accounts/api/views.py:43-78 | login answers 400 exactly when a field is missing, 401 exactly when the backend finds no account, 403 exactly for an inactive account, 200 otherwise |
| Views.LoginMissingFieldsSkipAuthenticate | backend/apps/accounts/api/views.py:49-56 | a missing field gets the 400 `ValidationError` reply whatever the backend would say, so the backend is not consulted |
| Views.LoginBlankEmailRejected | backend/apps/accounts/api/views.py:46-54 | an email of whitespace only is treated as missing |
| Views.LoginAsksOnce | backend/apps/accounts/api/views.py:56 | the reply depends on the backend only through its answer for the normalised email and the password |
| Views.LoginEmailNormalizedOnce | backend/apps/accounts/api/views.py:46 | submitting the normalised email gets the same reply as the raw one |
| Views.LoginFailuresIndistinguishable | backend/apps/accounts/api/views.py:57-62 | every failed authentication gets one and the same 401 reply, so an unknown email and a wrong password look alike |
| Views.LoginDisabledGetsNoTokens | backend/apps/accounts/api/views.py:63-68 | an inactive account that authenticates gets 403 `AccountDisabled` and no data |
| Views.LoginSuccessBody | backend/apps/accounts/api/views.py:70-78 | an active account gets 200 with the rendered account and the two tokens |
| Views.MeView | backend/apps/accounts/api/views.py:107-108 | the read answers 200 with the current user's rendering and no message |
| Views.RefreshTokenFrom | backend/apps/accounts/api/views.py:93 | a token is accepted exactly when it decodes and its id is not blacklisted, and then its id is the decoded one |
| Views.LogoutOutcome | backend/apps/accounts/api/views.py:84-101 | computes `LogoutView.post`'s reply and the new blacklist; its properties are in `LogoutCases` and `RevokedStaysRevoked` |
| Views.LogoutCases | backend/apps/accounts/api/views.py:84-101 | a missing token gets 400 `ValidationError` and a refused one 400 `TokenError`, both leaving the blacklist alone. Otherwise the reply is 200 with data None and the token's id added. The blacklist only grows |
| Views.RevokedStaysRevoked | backend/apps/accounts/api/views.py:92-100 | once a logout succeeds, every later logout with that token gets `TokenError` and changes nothing |
| Views.AccountsApi.Register | backend/apps/accounts/api/views.py:18-37 | a registration is refused, with 400 and the registration check's errors as details and no rows changed, exactly when the registration check refuses it. Otherwise exactly one new row is added: the built user (role free, active) with the encoded password, which checks under a sound hasher; the reply is 201 with the rendered account and the tokens |
| Views.AccountsApi.Blacklist | backend/apps/accounts/api/views.py:94 | blacklisting adds the token's id and changes nothing else |
| Views.AccountsApi.Logout | backend/apps/accounts/api/views.py:84-101 | the reply and the new blacklist are the logout outcome, and no account row changes |
| Views.AccountsApi.MePatch | backend/apps/accounts/api/views.py:110-128 | invalid data gets 400 with the field errors and no change. Valid data patches the user row and, when sent, the profile; the reply is 200 with the new rendering, or the unhandled error when the profile is missing |
| Views.AccountsApi.ChangePassword | backend/apps/accounts/api/views.py:134-145 | with any field error the reply is 400 with those errors and nothing changes. Otherwise only the user's password is replaced and the reply is 200 with no data; under a sound hasher the new password then checks |
| Views.LogoutTwice | backend/apps/accounts/api/views.py:84-101 | when the first logout with a token succeeds, the second gets 400 `TokenError` |
| Views.RegisteredEmailTaken | backend/apps/accounts/api/views.py:18-27 | once an accepted registration's row is stored, the same registration is refused with an error under `email` |
| Views.RegisterTaken | backend/apps/accounts/api/views.py:18-27 | a registration whose email is already stored gets 400 `ValidationError` whose details are the registration check's errors, among them one under `email`; no row and no blacklist entry changes |
| Views.RegisterTwice | backend/apps/accounts/api/views.py:18-27 | when a registration succeeds, sending it again gets 400 `ValidationError` whose details are the registration check's errors, with one under `email` |
| Views.WrongOldPasswordKeepsPassword | backend/apps/accounts/api/views.py:134-145 | a wrong old password gets 400 `ValidationError` and leaves the stored password as it was |

## Left out

- Requests, responses, routing, URL configuration, the admin site and the frontend are not modelled; handlers take already-parsed values.
- Password policy (`validate_password`), email format, field lengths and type coercion are part of the framework's per-field validation. That validation is a parameter (`FieldStage`, `Checked`, `FieldResult`), not modelled.
- Serializers.CheckRegistration: within one field's list, the unique validator's message is placed after that field's other messages; the framework's order follows the order in which it builds the field's validators, which is not part of this model.
- The new primary key and the related-field lookup of a college reference are preconditions of `AccountsApi.Register` and `AccountsApi.MePatch`, not modelled checks. The username column's uniqueness comes from the inherited user model, which is not part of this model; it is modelled on the same terms as the email's.
- Hashing, token signing and token expiry belong to foreign libraries and are parameters. The model keeps only the blacklist behaviour these views rely on.
- Token refresh and rotation happen in the token library's own view, which has no code in these files.
- The token library's record of issued tokens (written by `RefreshToken.for_user`) is not modelled; only the ids it blacklists are.
- Database transactions and concurrent requests are not modelled; every handler runs alone.
- `is_staff`, `is_superuser`, `last_login`, `date_joined` and the other inherited user columns do not appear; nothing in the core reads them.
- `updated_at` (`auto_now`) is not modelled, and `created_at` is a parameter: both come from the clock.
- Row ordering (`Meta.ordering`) and `__str__` are not modelled; no handler depends on them.
- Avatar uploads and URLs are opaque file names, rendered as null when empty.
- PyStrings.Normalize: `lower()` is modelled for ASCII letters only, `strip()` for the full set of whitespace characters.
- LoginView: a non-string `email` in the request body (where `.strip()` would raise) is not modelled; fields are absent or strings.
- Views.LoginStatuses: the 403 outcome needs an `authenticate` that returns inactive accounts. The framework's default backend refuses them, so with it an inactive account gets the 401 reply. `authenticate` is a parameter with no constraint.
- Views.MeView: unauthenticated requests are refused by the framework before the handler runs. Every handler that needs a user takes a stored account.
- Permissions.IsOwnerOrAdmin: an anonymous user, whose missing `role` attribute would raise, is excluded by its precondition.
- ErrorHandling.CustomExceptionHandler: the framework's own handler is not modelled; its result is the `base` parameter.
