# User accounts and sessions in TaskManagementAPI and its React front end

This project models the account and session core of a task-management web
application in Dafny. The back end is an ASP.NET Core API. Its core is the
`UserController` over the `Users` and `CustomerDetails` tables, the Argon2id
`PasswordHasher`, and the JWT-in-a-cookie authentication set up in
`Program.cs`. The front end is a React application. Its modelled parts are the
`AuthProvider` context, the `ProtectedRoute` guard, the login and sign-up
forms, and the shared axios client.

Modules, in dependency order:

- `Common`: `Option`, bytes, int32 bounds.
- `Text`: .NET and JavaScript string rules the core relies on:
  - white space and `string.IsNullOrWhiteSpace`;
  - UTF-16 and UTF-8 lengths;
  - ordinal case-insensitive comparison;
  - `int.ToString` and `int.TryParse` with their round trip.
- `Base64`: `Convert.ToBase64String` and `Convert.FromBase64String`, as in section 4 of RFC 4648, with the round trip.
- `PasswordHasher`: hashing and verification over an abstract Argon2id function.
- `Models`: the records and their validation attributes.
- `Startup`: token issue and validation, the cookie, the allowed origins.
- `Store`: the two tables, the rules every state keeps, and the seed data.
- `Patch`: JSON Patch applied to a `User`, and the self-patch filter.
- `Controller`: the controller as a class over the tables, the role gate, and the request dispatcher.
- Front end: `Routes`, `AuthContext`, `ProtectedRoute`, `LoginForm`, `SignUpForm`, `ApiClient`.

Modelling choices:

- Time is whole seconds.
- The random salt, the clock, Jwt configuration and the outcome of database saves are parameters.
- E-mail equality is the database collation: an abstract equivalence relation `EmailEq`.
- The `[EmailAddress]` check is an abstract predicate `EmailCheck`.

Behaviour of the code worth noting, which the model follows:

- `CheckAuth` answers 401 `{authenticated: false}` without a session, not a success status with `authenticated: false`.
- The token lifetime check accepts a token at its expiry second: the library only rejects once the expiry has passed, with zero clock skew.
- `checkAuthStatus` uses plain axios, not the shared client, so a 401 from `check-auth` never reaches the session-expiry interceptor.

- The authentication middleware reads Jwt:Key on every request and throws when it is missing or empty. Every request then fails with 500 before any action runs, so Login's own 500 answer for a missing key is never reached.
- `[ApiController]` checks `[Required]` on `LoginModel` before Login runs: a blank address or password gives 400, not 401.
- JSON Patch splits a path on '/', skips empty segments and decodes "~0" and "~1". The properties of `User` are matched by name without regard to case, so "role", "/role/" and "//Role" all reach Role.
- `[StringLength(50)]` on the `Role` enum casts the value to a string, which throws. CreateUser's automatic validation therefore always fails with 500.

## Model

| member | source | states |
|---|---|---|
| Text.Int32RoundTrip | Backend/TaskManagementAPI/WebApplication1/Controllers/UserController.cs:144 | the text `Id.ToString()` writes into the NameIdentifier claim parses back, by `int.TryParse`, to the same int32 |
| Text.ParseInt32 | Backend/TaskManagementAPI/WebApplication1/Controllers/UserController.cs:91 | `int.TryParse` succeeds only with a value in the int32 range |
| Text.ParseInt32Chars | Backend/TaskManagementAPI/WebApplication1/Controllers/UserController.cs:91 | text holding anything but digits, white space and signs does not parse |
| Text.TrimNumberWhiteKeeps | Backend/TaskManagementAPI/WebApplication1/Controllers/UserController.cs:91 | trimming drops only white space: every other character of the text survives |
| Text.ParseInt32Padded | Backend/TaskManagementAPI/WebApplication1/Controllers/UserController.cs:91 | white space before and after the number does not change the result |
| Text.ParseInt32Digits | Backend/TaskManagementAPI/WebApplication1/Controllers/UserController.cs:91 | digits alone, after '+' or after '-' parse to their value, or its negation, exactly when it fits in int32 |
| Text.ParseInt32LeadingZero | Backend/TaskManagementAPI/WebApplication1/Controllers/UserController.cs:91 | a leading zero does not change the result |
| Text.Utf16Length | Backend/TaskManagementAPI/WebApplication1/Models/User.cs:10 | string lengths the length attributes check count UTF-16 code units, between one and two per character, exactly one for characters of the basic plane |
| Text.EqualsIgnoreCaseSwap | Backend/TaskManagementAPI/WebApplication1/Controllers/UserController.cs:254-257 | the ordinal case-insensitive comparison is symmetric and reflexive, and strings equal under it compare alike against any third string |
| Base64.Encode | Backend/TaskManagementAPI/WebApplication1/Services/PasswordHasher.cs:38-41 | base 64 text is a whole number of four-character groups, at least one for a non-empty input |
| Base64.Strip | Backend/TaskManagementAPI/WebApplication1/Services/PasswordHasher.cs:49 | the characters decoding skips are all removed, and text without them is left as it is |
| Base64.Decode | Backend/TaskManagementAPI/WebApplication1/Services/PasswordHasher.cs:49 | text whose non-white-space characters are not a whole number of four-character groups is refused |
| Base64.DecodeIgnoresSkipped | Backend/TaskManagementAPI/WebApplication1/Services/PasswordHasher.cs:49 | inserting spaces, tabs or line breaks anywhere does not change what decoding gives |
| Base64.RoundTrip | Backend/TaskManagementAPI/WebApplication1/Services/PasswordHasher.cs:38-41 | decoding the base 64 text of any byte sequence gives the bytes back |
| Base64.EncodedLength | Backend/TaskManagementAPI/WebApplication1/Services/PasswordHasher.cs:38-41 | base 64 text is four characters per started group of three bytes |
| Base64.SaltAndHashLengths | Backend/TaskManagementAPI/WebApplication1/Services/PasswordHasher.cs:13-14 | a 16-byte salt is stored as 24 characters and a 32-byte hash as 44 |
| PasswordHasher.HashPassword | Backend/TaskManagementAPI/WebApplication1/Services/PasswordHasher.cs:16-42 | the stored salt decodes to the salt bytes and the stored hash to the Argon2id output of the password's UTF-8 bytes under the fixed cost; 24 and 44 characters long |
| PasswordHasher.VerifyPassword | Backend/TaskManagementAPI/WebApplication1/Services/PasswordHasher.cs:44-71 | a salt that is not base 64 gives false. True only when the salt's non-white-space text is whole groups and the stored hash decodes to the Argon2id output under the decoded salt; the stored hash text is then exactly the base 64 encoding of that output |
| PasswordHasher.PaddedHashRejected | Backend/TaskManagementAPI/WebApplication1/Services/PasswordHasher.cs:62-65 | the comparison is on text: a stored hash with a line break appended decodes to the same bytes, yet the right password is refused |
| PasswordHasher.VerifyHashed | Backend/TaskManagementAPI/WebApplication1/Services/PasswordHasher.cs:16-71 | the password a credential was hashed from verifies against it |
| PasswordHasher.VerifyIgnoresWhiteSpace | Backend/TaskManagementAPI/WebApplication1/Services/PasswordHasher.cs:49 | white space inserted anywhere in the stored salt does not change the verdict |
| PasswordHasher.VerifyToleratesTrailingWhiteSpace | Backend/TaskManagementAPI/WebApplication1/Services/PasswordHasher.cs:44-65 | a stored salt with white space appended still verifies the password it was hashed from |
| PasswordHasher.OtherPasswordRejected | Backend/TaskManagementAPI/WebApplication1/Services/PasswordHasher.cs:59-65 | a password whose derived bytes differ is rejected; the comparison is exact |
| Models.RoleName | Backend/TaskManagementAPI/WebApplication1/Models/User.cs:23-27 | `UserRole.ToString()` is "Customer" or "Admin" |
| Models.RoleNameInjective | Backend/TaskManagementAPI/WebApplication1/Models/User.cs:23-27 | different roles have different names, so the role claim determines the role |
| Models.RequiredAttr | Backend/TaskManagementAPI/WebApplication1/Models/User.cs:9-19 | `[Required]` never throws, and fails exactly on a string that is empty or white space |
| Models.StringLengthAttr | Backend/TaskManagementAPI/WebApplication1/Models/User.cs:29-31 | `[StringLength]` throws exactly on a value that is not a string, and passes exactly a string within the maximum in UTF-16 units |
| Models.Combine | Backend/TaskManagementAPI/WebApplication1/Models/User.cs:9-34 | validation throws when any attribute throws, and passes exactly when every attribute passes |
| Models.RoleLengthAlwaysThrows | Backend/TaskManagementAPI/WebApplication1/Models/User.cs:29-31 | as written, validating any User throws, because of the length attribute on the role |
| Models.ValidUserAttributes | Backend/TaskManagementAPI/WebApplication1/Models/User.cs:9-34 | a user is valid exactly when every attribute but the role's length passes; a valid user has a name of 1 to 100 characters and a password of at least 8 UTF-16 units, so at least 4 characters |
| Models.SignUpRulesMatchUser | Backend/TaskManagementAPI/WebApplication1/Models/UserSignUpDto.cs:5-17 | a sign-up body passes its attributes exactly when the Customer row built from it passes the User attributes |
| Models.NewCustomerDetailsValid | Backend/TaskManagementAPI/WebApplication1/Models/CustomerDetails.cs:12-27 | a details row built from the initialisers passes every validation attribute, is on the Free plan and belongs to the given user |
| Models.DefaultFieldsValid | Backend/TaskManagementAPI/WebApplication1/Models/CustomerDetails.cs:17-27 | the default address, country and phone number are non-blank and within their length limits |
| Startup.Accept | Backend/TaskManagementAPI/WebApplication1/Program.cs:40-55 | an accepted token is signed with the UTF-8 bytes of the configured key, carries exactly the configured non-blank issuer, carries a non-blank audience equal to the Admins or the Users audience, and has an expiry not yet passed |
| Startup.IssuerMismatchRejected | Backend/TaskManagementAPI/WebApplication1/Program.cs:42-47 | a token whose issuer differs from Jwt:Issuer is refused |
| Startup.AudienceMismatchRejected | Backend/TaskManagementAPI/WebApplication1/Program.cs:43-52 | a token whose audience is neither of the two configured audiences is refused |
| Startup.BlankUsersAudienceRejectsIssued | Backend/TaskManagementAPI/WebApplication1/Program.cs:49-52 | when Jwt:Audiences:Users is missing or blank, no token Login issues is ever accepted, since blank audiences are skipped on both sides |
| Startup.Issue | Backend/TaskManagementAPI/WebApplication1/Controllers/UserController.cs:131-157 | a token is minted exactly when Jwt:Key is non-empty. It carries the given claims, the configured issuer and Users audience, starts now, expires one hour later and is signed with the key's UTF-8 bytes |
| Startup.IssuedTokenAccepted | Backend/TaskManagementAPI/WebApplication1/Program.cs:40-55 | under a complete configuration (a key, a non-blank issuer and a non-blank Users audience) a token Login issues is accepted from its issue time through its expiry |
| Startup.IssuedTokenExpires | Backend/TaskManagementAPI/WebApplication1/Program.cs:44-45 | with zero clock skew it is refused after its expiry and before its issue time |
| Startup.ForeignKeyRejected | Backend/TaskManagementAPI/WebApplication1/Program.cs:46-54 | a token signed with other key bytes is refused whatever it claims |
| Startup.OtherCookiesIgnored | Backend/TaskManagementAPI/WebApplication1/Program.cs:60-65 | adding, changing or removing any cookie other than AuthToken does not change who the request authenticates as |
| Startup.LoginCookieAuthenticates | Backend/TaskManagementAPI/WebApplication1/Controllers/UserController.cs:157-167 | the cookie Login writes authenticates the issued claims for the token's hour |
| Startup.NonBlankOrigins | Backend/TaskManagementAPI/WebApplication1/Program.cs:10-12 | a text is an allowed origin exactly when it is a configured entry that is not blank; there are no more origins than entries |
| Startup.AllowedOrigins | Backend/TaskManagementAPI/WebApplication1/Program.cs:10-12 | an absent setting allows no origin |
| Store.AtMostOneMatch | Backend/TaskManagementAPI/WebApplication1/Controllers/UserController.cs:115 | with unique addresses under the collation, at most one user matches Login's address |
| Store.AddKeepsUnique | Backend/TaskManagementAPI/WebApplication1/Controllers/UserController.cs:67-80 | adding a user whose address is not taken keeps addresses unique |
| Store.ReplaceKeepsUnique | Backend/TaskManagementAPI/WebApplication1/Controllers/UserController.cs:213-223 | replacing a user by one whose address no other user has keeps addresses unique |
| Store.AddUserKeepsInvariant | Backend/TaskManagementAPI/WebApplication1/Controllers/UserController.cs:288-309 | a new user under the next identity value with an untaken address keeps every table rule, and has no details row yet |
| Store.AddDetailsKeepsInvariant | Backend/TaskManagementAPI/WebApplication1/Data/AppDbContext.cs:20-24 | a details row for a user without one keeps the one-to-one link |
| Store.ReplaceUserKeepsInvariant | Backend/TaskManagementAPI/WebApplication1/Controllers/UserController.cs:222-223 | saving a row with the same key and an address no other user has keeps every rule |
| Store.RemoveUserKeepsInvariant | Backend/TaskManagementAPI/WebApplication1/Controllers/UserController.cs:103-104 | removing a user together with its details rows keeps every rule |
| Store.SeedInvariant | Backend/TaskManagementAPI/WebApplication1/Data/AppDbContext.cs:32-67 | the seeded tables satisfy every rule, given a collation that tells the two seeded addresses apart |
| Store.SeedStoreInvariant | Backend/TaskManagementAPI/WebApplication1/Data/AppDbContext.cs:32-67 | the tables seeded with HashPassword credentials keep every rule under any collation that is an equivalence and tells the two seeded addresses apart |
| Store.SeedShape | Backend/TaskManagementAPI/WebApplication1/Data/AppDbContext.cs:32-67 | two users, 1 an admin and 2 a customer, with different addresses; one details row, for user 2, on the Free plan |
| Store.SeedCredentials | Backend/TaskManagementAPI/WebApplication1/Data/AppDbContext.cs:32-56 | "admin123" verifies for user 1 and "customer123" for user 2 |
| Patch.PropertyNamedFieldName | Backend/TaskManagementAPI/WebApplication1/Models/User.cs:7-34 | each property of `User` is found under its own JSON name |
| Patch.PropertyNamedIgnoresCase | Backend/TaskManagementAPI/WebApplication1/Controllers/UserController.cs:213 | property lookup does not depend on case: names equal without regard to case find the same property |
| Patch.Pieces | Backend/TaskManagementAPI/WebApplication1/Controllers/UserController.cs:213 | the segments of a parsed path are never empty |
| Patch.PiecesPlainPrefix | Backend/TaskManagementAPI/WebApplication1/Controllers/UserController.cs:213 | text without '/' or '~' extends the current segment unchanged |
| Patch.LocateSpellings | Backend/TaskManagementAPI/WebApplication1/Controllers/UserController.cs:253-261 | a plain name reaches the property of that name. Without the leading '/', with a trailing '/' or with a doubled '/', the path reaches the same property |
| Patch.Set | Backend/TaskManagementAPI/WebApplication1/Controllers/UserController.cs:213 | writing one field of the patched user leaves every other field as it was |
| Patch.SetGet | Backend/TaskManagementAPI/WebApplication1/Controllers/UserController.cs:213 | writing a field's own value back changes nothing; only a key outside int32 fails to convert back |
| Patch.ReplaceIdOutOfRangeInvalid | Backend/TaskManagementAPI/WebApplication1/Controllers/UserController.cs:213-216 | replacing the Id with a number outside int32 is a conversion error, so the patch is invalid |
| Patch.AsRoleNumberText | Backend/TaskManagementAPI/WebApplication1/Controllers/UserController.cs:213 | the texts "0" and "1" convert to the roles with those numbers |
| Text.Trim | Backend/TaskManagementAPI/WebApplication1/Controllers/UserController.cs:213 | the converter's trim: the result is no longer than the text, and neither starts nor ends with white space |
| Text.TrimPadded | Backend/TaskManagementAPI/WebApplication1/Controllers/UserController.cs:213 | trimming white space around a text gives what trimming the text alone gives |
| Patch.AsRolePaddedName | Backend/TaskManagementAPI/WebApplication1/Controllers/UserController.cs:213 | a role's name in any letter case, with white space around it, converts to that role |
| Patch.Clear | Backend/TaskManagementAPI/WebApplication1/Controllers/UserController.cs:213 | removing one field resets only that field, to zero, null or the minimum date |
| Patch.ApplyOp | Backend/TaskManagementAPI/WebApplication1/Controllers/UserController.cs:213 | a successful operation changes no field it does not write: its target, or for a move its source |
| Patch.ApplyTo | Backend/TaskManagementAPI/WebApplication1/Controllers/UserController.cs:261 | the document throws exactly when one of its operations reads a path with a malformed '~' escape. A successful document leaves every field no operation writes unchanged |
| Patch.Stored | Backend/TaskManagementAPI/WebApplication1/Controllers/UserController.cs:222-223 | a row can be saved exactly when the key is unchanged, Name, Email and PasswordHash are not null and the name fits its 100-unit column; the saved row is then exactly the patched object |
| Patch.ReplaceEmailApplies | Backend/TaskManagementAPI/WebApplication1/Controllers/UserController.cs:213 | a replace on "/email" sets exactly the address |
| Patch.SlashNameLocated | Backend/TaskManagementAPI/WebApplication1/Controllers/UserController.cs:253-261 | a path equal, without regard to case, to "/" and a property name reaches that property |
| Patch.SensitivePathLocated | Backend/TaskManagementAPI/WebApplication1/Controllers/UserController.cs:253-258 | each of the four filtered paths reaches PasswordHash, Salt, Role or DateCreated |
| Patch.RemoveSensitivePaths | Backend/TaskManagementAPI/WebApplication1/Controllers/UserController.cs:253-258 | the filter as written keeps exactly the operations whose target path is not one of the four texts |
| Patch.RemoveSensitivePathsAppend | Backend/TaskManagementAPI/WebApplication1/Controllers/UserController.cs:253-258 | the filter keeps the remaining operations in their order |
| Patch.WritesSensitiveFields | Backend/TaskManagementAPI/WebApplication1/Controllers/UserController.cs:252-258 | the corrected filter's test holds exactly when the operation writes PasswordHash, Salt, Role or DateCreated |
| Patch.RemoveSensitive | Backend/TaskManagementAPI/WebApplication1/Controllers/UserController.cs:252-258 | the corrected filter keeps exactly the operations that write no protected field |
| Patch.RemoveSensitiveAppend | Backend/TaskManagementAPI/WebApplication1/Controllers/UserController.cs:252-258 | the corrected filter keeps order too |
| Patch.RemoveSensitiveDropsMore | Backend/TaskManagementAPI/WebApplication1/Controllers/UserController.cs:252-258 | every operation the corrected filter keeps, the filter as written keeps too |
| Patch.GetProtected | Backend/TaskManagementAPI/WebApplication1/Controllers/UserController.cs:252 | equal protected fields, read one by one, mean the same hash, salt, role and date |
| Patch.SelfPatchKeepsProtected | Backend/TaskManagementAPI/WebApplication1/Controllers/UserController.cs:252-261 | a self-patch through the corrected filter, whatever the path spellings, cannot change PasswordHash, Salt, Role or DateCreated |
| Patch.MoveSaltToName | Backend/TaskManagementAPI/WebApplication1/Controllers/UserController.cs:261 | a move from "/salt" to "/name" puts the salt into the name and clears the salt |
| Patch.MoveFromSaltClearsSalt | Backend/TaskManagementAPI/WebApplication1/Controllers/UserController.cs:253-261 | as written, a move from "/salt" to "/name" passes the filter and the saved row has no salt |
| Patch.ReplaceRoleAdmin | Backend/TaskManagementAPI/WebApplication1/Controllers/UserController.cs:261 | a replace on "role" with "Admin" makes the user an administrator |
| Patch.RolePathEscalates | Backend/TaskManagementAPI/WebApplication1/Controllers/UserController.cs:253-261 | as written, a customer's replace on "role" with "Admin" passes the filter and the saved row is an administrator's; the corrected filter drops it |
| Controller.ClaimedUserId | Backend/TaskManagementAPI/WebApplication1/Controllers/UserController.cs:239-243 | a session has a user id only when its NameIdentifier claim is present and parses as an int32 |
| Controller.ClaimedIdOfIssued | Backend/TaskManagementAPI/WebApplication1/Controllers/UserController.cs:142-148 | the session of a token Login issued names that user's id |
| Controller.PatchedUser | Backend/TaskManagementAPI/WebApplication1/Controllers/UserController.cs:212-223 | a patched row that can be saved keeps the user's key and is what the document made of the user |
| Controller.UserController.constructor | Backend/TaskManagementAPI/WebApplication1/Controllers/UserController.cs:23-27 | the controller works on the injected context's tables, which keep every table rule, and on the configuration given |
| Controller.UserController.SignUp | Backend/TaskManagementAPI/WebApplication1/Controllers/UserController.cs:276-324 | an invalid body gives 400 and a taken address 409, both with no change. 201 exactly when valid, untaken and both saves succeed: a Customer with a verifying credential plus a Free details row. A failed second save is 500 and leaves the user; the rules hold throughout |
| Controller.UserController.CreateUser | Backend/TaskManagementAPI/WebApplication1/Controllers/UserController.cs:54-84 | corrected validation: 400 for an invalid body and 409 for a taken address, with no change. 201 exactly otherwise, with the stored row, whose hash and salt come from the submitted password and verify against it; any other answer is the 500 of a failed save |
| Controller.UserController.Login | Backend/TaskManagementAPI/WebApplication1/Controllers/UserController.cs:109-179 | 400 exactly for a blank address or password. 401 "Invalid email or password." exactly when no user with that address has credentials that verify. Otherwise 200 with id, address and role, plus a cookie whose token is the issued one and expires with it. Nothing changes |
| Controller.UserController.ApplyAndSave | Backend/TaskManagementAPI/WebApplication1/Controllers/UserController.cs:212-225 | a throwing document gives 500 and a failing one 400. An unsavable row is 500 and an address another user has is 409, each with no change. Otherwise 204 with the patched row saved |
| Controller.UserController.PatchUser | Backend/TaskManagementAPI/WebApplication1/Controllers/UserController.cs:196-226 | a null document gives 400 and an unknown id 404 with its message; otherwise as ApplyAndSave. Corrected: an address clash is 409 |
| Controller.UserController.UpdateCustomerProfile | Backend/TaskManagementAPI/WebApplication1/Controllers/UserController.cs:228-274 | a null document gives 400, an unusable id claim 401, an unknown user 404. 204 exactly when the filtered patch of the session's own row saves without an address clash (corrected: 409). No user's PasswordHash, Salt, Role or DateCreated changes |
| Controller.UserController.DeleteUser | Backend/TaskManagementAPI/WebApplication1/Controllers/UserController.cs:86-107 | a non-integer id gives 400 and an unknown one 404. 204 exactly when the user has no details row or the database cascades: that user and its details rows are removed, nothing else. A refused delete is 500 with no change |
| Controller.UserController.GetUserById | Backend/TaskManagementAPI/WebApplication1/Controllers/UserController.cs:37-52 | the stored row of that id, or 404 with the status and message in the body |
| Controller.UserController.GetUsers | Backend/TaskManagementAPI/WebApplication1/Controllers/UserController.cs:29-35 | the response lists exactly the stored rows |
| Controller.UserController.GetProfile | Backend/TaskManagementAPI/WebApplication1/Controllers/UserController.cs:326-354 | 401 for an unusable id claim and 404 for an unknown user. Otherwise 200 with that user's current profile; a login session gets its own user's profile |
| Controller.Logout | Backend/TaskManagementAPI/WebApplication1/Controllers/UserController.cs:181-194 | 200 with the message, and the response deletes the AuthToken cookie, so the browser's requests carry no session afterwards; the token itself stays valid until it expires |
| Controller.CheckAuth | Backend/TaskManagementAPI/WebApplication1/Controllers/UserController.cs:356-374 | 200 `{authenticated: true, role}` exactly with a session, the role being the session's role claim; else 401 `{authenticated: false}` with no role |
| Controller.LoginSessionLasts | Backend/TaskManagementAPI/WebApplication1/Controllers/UserController.cs:142-167 | after a login, the cookie authenticates the user's claims for the hour, and check-auth reports the stored role |
| Controller.PolicyOf | Backend/TaskManagementAPI/WebApplication1/Controllers/UserController.cs:29-358 | role policies name "Admin" or "Customer" only; exactly the self-patch needs "Customer", and exactly login and sign-up allow anonymous callers |
| Controller.Gate | Backend/TaskManagementAPI/WebApplication1/Program.cs:92-93 | anonymous and unattributed actions always run; without a session the others are challenged (401); only a role policy forbids (403) |
| Controller.GateTable | Backend/TaskManagementAPI/WebApplication1/Controllers/UserController.cs:29-358 | the admin actions run exactly for role "Admin", the self-patch exactly for "Customer", logout and profile for any session; login, sign-up and check-auth for everyone |
| Controller.GateForUser | Backend/TaskManagementAPI/WebApplication1/Controllers/UserController.cs:137-147 | a login session is never challenged; an admin reaches the admin actions and not the self-patch, a customer the reverse |
| Controller.RunReadOnly | Backend/TaskManagementAPI/WebApplication1/Controllers/UserController.cs:29-374 | the read-only actions change no table. Logout answers 200 and deletes the cookie; check-auth answers from the session; a known id is found; a successful login sets the cookie; nothing else touches the cookie |
| Controller.RunWriting | Backend/TaskManagementAPI/WebApplication1/Controllers/UserController.cs:54-324 | the writing actions keep every table rule. Only sign-up and delete change the details table; a self-patch keeps the set of users and every protected field |
| Controller.Handle | Backend/TaskManagementAPI/WebApplication1/Program.cs:92-95 | without Jwt:Key every request is 500 with no change. Challenged and forbidden requests change nothing and set no cookie. Read-only actions change no table. Only login and logout touch the cookie. The table rules hold after every request |
| Controller.PatchUserAsWritten | Backend/TaskManagementAPI/WebApplication1/Controllers/UserController.cs:212-223 | as written: only the patched row can change |
| Controller.PatchUserAsWrittenDuplicatesEmail | Backend/TaskManagementAPI/WebApplication1/Controllers/UserController.cs:196-226 | as written, replacing the customer's address with the admin's leaves two users with equal addresses |
| Controller.UpdateCustomerProfileAsWritten | Backend/TaskManagementAPI/WebApplication1/Controllers/UserController.cs:252-273 | as written: the filter compares raw paths and the patched row is saved without an address check; only the caller's row can change |
| Controller.SelfPatchAsWrittenDuplicatesEmail | Backend/TaskManagementAPI/WebApplication1/Controllers/UserController.cs:252-273 | as written, a customer replacing their own address with the admin's leaves two users with equal addresses |
| AuthContext.FetchAuthStatus | Frontend/src/Services/authService.ts:89-96 | any failed check-auth request reads as `{authenticated: false}` |
| AuthContext.SessionReply | Frontend/src/context/AuthContext.tsx:40-64 | a browser with a login cookie gets an accepted reply carrying the stored role; one without a session gets a rejected reply |
| AuthContext.AuthProvider.constructor | Frontend/src/context/AuthContext.tsx:35-37 | no role, not authenticated, loading |
| AuthContext.AuthProvider.Login | Frontend/src/context/AuthContext.tsx:67-70 | the role is held and the user is authenticated; loading is untouched |
| AuthContext.AuthProvider.Logout | Frontend/src/context/AuthContext.tsx:73-76 | no role, not authenticated; loading is untouched |
| AuthContext.AuthProvider.CheckAuth | Frontend/src/context/AuthContext.tsx:40-64 | loading ends whatever the outcome. Authenticated exactly when the reply says so with a truthy role, which is then held |
| ProtectedRoute.Guard | Frontend/src/components/ProtectedRoute.tsx:12-32 | loading shows the spinner and no session goes to /login. The outlet renders exactly for a truthy allowed role; every other session goes to /dashboard |
| ProtectedRoute.RoleRoutes | Frontend/src/App.tsx:26-33 | a customer is sent from /admin to /dashboard, which admits it; an admin enters both |
| LoginForm.RedirectFor | Frontend/src/components/Login.tsx:86-89 | "Admin" goes to /admin and every other role to /dashboard |
| LoginForm.RedirectOf | Frontend/src/components/Login.tsx:45-89 | an existing session redirects by its role, else a successful login by its role, else the form is shown |
| LoginForm.RedirectAdmits | Frontend/src/components/Login.tsx:86-89 | the route a backend role is redirected to lets that role in |
| LoginForm.Form.constructor | Frontend/src/components/Login.tsx:43 | the form starts idle |
| LoginForm.Form.HandleFormSubmit | Frontend/src/components/Login.tsx:77-84 | an invalid form shows "Invalid credentials" and sends nothing; a valid one moves to submitting and sends |
| LoginForm.Form.CompleteSubmit | Frontend/src/components/Login.tsx:51-74 | success exactly when the reply has a truthy role, which the context then holds; every other outcome is the one generic error and leaves the context alone |
| SignUpForm.MinIssue | Frontend/src/components/SignUp.tsx:12-18 | a minimum-length rule reports nothing exactly when the length is reached |
| SignUpForm.SchemaAccepts | Frontend/src/components/SignUp.tsx:11-22 | the schema reports no issue exactly when every field rule holds and the passwords match |
| SignUpForm.MismatchOnConfirm | Frontend/src/components/SignUp.tsx:19-22 | a password mismatch is reported on confirmPassword, after the field issues |
| SignUpForm.ShortPasswordPassesFormOnly | Backend/TaskManagementAPI/WebApplication1/Models/UserSignUpDto.cs:15-17 | a 6 or 7 unit password passes the form but fails the server's minimum of 8 |
| SignUpForm.Form.constructor | Frontend/src/components/SignUp.tsx:32 | no message at first |
| SignUpForm.Form.Submit | Frontend/src/components/SignUp.tsx:35-44 | with issues nothing is sent. Otherwise the form data is sent with plan "Free": success shows "Sign-up successful!" and schedules /login; failure shows the error's truthy message or "An error occurred" |
| ApiClient.HandleApiError | Frontend/src/api/apiClient.ts:40-59 | no response gives the network message and 400 the server's truthy message or "Invalid request."; other statuses give the fallback |
| ApiClient.FixedMessagesDistinct | Frontend/src/api/apiClient.ts:45-58 | 401, 403, 404 and 500 each have their own message, distinct from the network and fallback messages |
| ApiClient.Page.constructor | Frontend/src/api/apiClient.ts:21-22 | the page's storage and path as given |
| ApiClient.Page.OnRejected | Frontend/src/api/apiClient.ts:20-36 | a 401 away from /login and /signup drops "token" and "role" and goes to /login. Anything else changes nothing. The error is rejected again unchanged |

## Left out

- Argon2id itself and the random number generator: the hash function is a parameter, and only its output length for a 16-byte salt is assumed; the salt bytes are a parameter.
- HMAC-SHA256 signing and the compact JWT format: a token is a record whose signature is the key bytes it was signed with. The library's minimum key length for HMAC-SHA256 is not modelled: any non-empty key signs.
- The cookie's HttpOnly, Secure and SameSite flags, CORS enforcement, HTTPS redirection, OpenAPI, and the console logging of the JWT events.
- `ExceptionMiddleware`: an exception inside an action is the 500 response `Crashed`, with its status and message. Its `Details` field, set only in development, is not modelled.
- `ValidationMiddleware` is not part of this model: a validation failure is `BadRequest(ValidationErrors)`, without the body of the problem details.
- A missing or empty Jwt:Key makes the authentication middleware throw before any action. This is a 500 with no body in the model, `ServerError(Empty)`.
- Controller.UserController.Login: its own 500 answer for a missing key, at UserController.cs:131-135, cannot be reached and is not modelled, because the authentication middleware already failed that request.
- The `[EmailAddress]` attribute is an abstract predicate, and the database collation is an abstract equivalence relation on addresses.
- Text.EqualsIgnoreCase: folds ASCII letters only; the ordinal case-insensitive comparison also folds other scripts.
- Text.Utf16Length: a lone surrogate is not representable in Dafny strings, so it is not modelled.
- PasswordHasher.VerifyToleratesTrailingWhiteSpace: states only white space after the stored salt; VerifyIgnoresWhiteSpace covers white space anywhere in it.
- Patch.ApplyTo: a role number other than 0 and 1, which the JSON converter accepts and stores, and a comma-separated list of role names are refused in the model. JSON Patch `test` operations, array paths and nested paths are not modelled; a date value written to a string field, or a string to DateCreated, is treated as a patch error. A null path and an unknown `op` text are not modelled: every operation is one of add, remove, replace, move and copy.
- Controller.UserController.CreateUser: the body's Id is ignored and the identity value is used; a non-zero Id, which the database would refuse, is not modelled.
- Startup.Authenticate: when the AuthToken cookie is absent or empty, the bearer handler falls back to an `Authorization: Bearer` header; the model reads the cookie only, so a client that sends the header is not modelled.
- Controller.Logout: deleting the cookie does not revoke the token; a copy of it, sent as a cookie or a header, authenticates until it expires.
- Startup.Accept: the validator's leniency about a trailing '/' on the audience is not modelled; audiences compare as exact text.
- The AdminDetails table is declared but no action reads or writes it; only its record is modelled.
- Controller.UserController.DeleteUser: the `cascade` parameter generalises the database's delete rule. With this configuration it is true: `CustomerDetails.UserId` is a non-nullable key, so the one-to-one link is required and the database cascades. The refused-delete 500 is therefore not reached under this configuration.
- Controller.UserController.GetUsers: the list is a set, so the order the database returns rows in is not modelled.
- Controller.UserController.SignUp: the identity value used when the second save fails is not rolled back; the next sign-up takes the following value, as the database would.
- LoginForm.Form.HandleFormSubmit: the zod login schema is summarised as the form's `isValid` flag.
- SignUpForm.Form.Submit: the two-second delay before the navigation to /login is not modelled; the navigation is the `toLogin` result.
- The shared client's success handler at apiClient.ts:19 returns the response unchanged and has no member of its own.
- Navigation, the page components, the error boundary and the remaining API helpers are not part of this model.

## Findings

| source | as written | input that shows it | evidently intended | confidence | as-written member | corrected member |
|---|---|---|---|---|---|---|
| Backend/TaskManagementAPI/WebApplication1/Controllers/UserController.cs:212-223 | PatchUser saves the patched row without checking its address against other users; sign-up and create do check it | an admin patches user 2 with a replace of "/email" to "admin@example.com" | refuse with 409 when another user has an equal address | not executed | Controller.PatchUserAsWrittenDuplicatesEmail | Controller.UserController.PatchUser |
| Backend/TaskManagementAPI/WebApplication1/Controllers/UserController.cs:260-273 | the self-patch saves the patched row without checking its address against other users | a customer patches their own row with a replace of "/email" to "admin@example.com" | refuse with 409 when another user has an equal address | not executed | Controller.SelfPatchAsWrittenDuplicatesEmail | Controller.UserController.UpdateCustomerProfile |
| Backend/TaskManagementAPI/WebApplication1/Controllers/UserController.cs:253-258 | the self-patch filter examines only each operation's `path`, so a `move` whose `from` is "/salt" passes. The move clears the Salt, after which Login always answers 401 | a customer sends a move from "/salt" to "/name" | also drop moves out of a sensitive field, so a self-patch never changes PasswordHash, Salt, Role or DateCreated | not executed | Patch.MoveFromSaltClearsSalt | Patch.SelfPatchKeepsProtected |
| Backend/TaskManagementAPI/WebApplication1/Controllers/UserController.cs:253-258 | the filter compares the raw path text with four exact spellings, but JSON Patch resolves "role", "/role/" and "//Role" to the Role property too | a customer sends a replace of "role" with "Admin" and becomes an administrator | drop every operation whose path, however spelled, reaches a protected property | not executed | Patch.RolePathEscalates | Patch.SelfPatchKeepsProtected |
| Backend/TaskManagementAPI/WebApplication1/Models/User.cs:29-31 | `[StringLength(50)]` on the `Role` enum casts the value to a string and throws, so validating any User fails | an admin posts any user to CreateUser, which answers 500 | no length rule on the enum, so a valid body is created | not executed | Models.RoleLengthAlwaysThrows | Controller.UserController.CreateUser |
