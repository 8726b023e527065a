# Group chat backend: membership, one-time codes and client guards

A Dafny model of the logic in a group-chat web application. The route handlers
and client helpers are thin wrappers around a managed auth provider and a
document store. The model covers the parts of them that make decisions:

- **Group membership** (`GroupRoutes`, `Groups`, `Listing`). The members route
  lists, adds and removes members. The groups route creates a group and lists
  the caller's groups with each group's latest message. The store is a class
  whose `groups: map<GroupId, Group>` field the handlers update in place. The
  list computations (append, `filter`, `find`) are pure functions. They come
  with the invariant the routes keep: admins are members, there is at least
  one admin, and no uid is listed twice. Leaving hands the admin role to the
  first other member, or deletes the group when its last member leaves.
- **Bearer authentication** (`Identity`). This covers the `"Bearer "` prefix
  check, the token that `split('Bearer ')[1]` extracts, and the token oracle.
- **One-time codes** (`OneTimeCodes`). This covers issuing verification and
  reset codes with a one-hour lifetime, the mail text that carries a code,
  redeeming a verification code (expiry check, single use, setting both
  verified flags) and the 24-hour sweep of both collections.
- **Registration** (`Registration`). This covers the five field conditions of
  the sign-up schema, including the email pattern
  `^[^\s@]+@[^\s@]+\.[^\s@]+$`, which is proved equivalent to an explicit
  shape test. It also covers the outcome of `registerUser` and the
  auth-error message table.
- **Upload precheck** (`Upload`): the missing-parameter guard, the 5 MiB bound
  and the error text of a failed upload.
- **Profile cache** (`Profiles`): the memo map of `getProfile`.

External services become inputs. The auth provider is an `AuthProvider`
value: the tokens it accepts, the email of each uid, and the uid of each
email. Fresh document ids and codes are parameters. The current time is an
integer number of milliseconds passed in. The profile documents read for a
sender's name are a `ProfileDocs` value. A network answer is a parameter that
stands for what the service would return.

Where the intended behaviour described for the system differs from the code,
the model follows the code:

- A token the provider rejects makes `verifyIdToken` throw. The handler's
  catch turns that into 500, not 401. Only a missing header or one without
  the `"Bearer "` prefix gives 401.
- The sweep deletes codes with `createdAt < now - 24h` and ignores the stored
  one-hour duration. So a code issued 30 minutes ago is kept (`SweptKeeps`),
  and so are codes issued 2 hours and 24 hours ago, although both have expired
  (`SweepKeepsExpiredCodes`). Expired codes younger than a day stay until
  someone tries to redeem them.
- An unknown verification code gets 400 "Invalid/Expired Code", not a 404.
- Adding a member checks no role: any authenticated caller may add to any
  group. The email lookup happens before the group lookup, so an unknown email
  gets 404 "User not found" even when the group is missing too. Listing
  members checks no membership either.

## Model

| member | source | states |
|---|---|---|
| `Identity.UpToScheme` | nextjs-backend/app/api/chat/members/route.ts:15 | the extracted token is the prefix of the text before the first `"Bearer "`, and it is all of the text when there is none |
| `Identity.BearerToken` | nextjs-backend/app/api/chat/members/route.ts:11-15 | a token is produced exactly when the header is present and starts with `"Bearer "`; it is the second piece of the split on `"Bearer "`: the header's text after the prefix, up to the next `"Bearer "` or the end |
| `Identity.Authenticate` | nextjs-backend/app/api/chat/groups/route.ts:9-15 | 401 exactly when no bearer token is present; success exactly when the provider accepts the token, yielding its uid; otherwise 500 |
| `Identity.BearerTokenRoundTrip` | nextjs-backend/app/api/chat/members/route.ts:15 | a header `"Bearer " + t` yields t back when t does not itself contain `"Bearer "` |
| `Groups.NewGroup` | nextjs-backend/app/api/chat/groups/route.ts:100-107 | the new group has the requested name and `createdAt = now`, the creator as its only member and only admin, `createdBy` is the creator, and there is no picture; the group is well-formed |
| `Groups.Without` | nextjs-backend/app/api/chat/members/route.ts:127-128 | the result holds exactly the elements of the list other than the uid; a list without the uid is unchanged |
| `Groups.WithoutCounts` | nextjs-backend/app/api/chat/members/route.ts:127-128 | the filter drops every occurrence of the uid and keeps every other uid with its number of occurrences |
| `Groups.WithoutNoDup` | nextjs-backend/app/api/chat/members/route.ts:127-128 | filtering a duplicate-free list leaves it duplicate-free |
| `Groups.FirstOther` | nextjs-backend/app/api/chat/members/route.ts:115 | returns the first element different from the caller, and nothing exactly when every element is the caller |
| `Groups.AddMember` | nextjs-backend/app/api/chat/members/route.ts:69-75 | refused exactly when the uid is already a member; otherwise the uid is appended to the end of `members` and nothing else changes |
| `Groups.AddPreservesWellFormed` | nextjs-backend/app/api/chat/members/route.ts:73-75 | a successful add keeps a well-formed group well-formed |
| `Groups.Leave` | nextjs-backend/app/api/chat/members/route.ts:112-130 | the group is deleted exactly when the caller is the sole admin and at most one member is listed; a remaining group no longer lists the caller and keeps its name, creator and picture |
| `Groups.WithoutSplit` | nextjs-backend/app/api/chat/members/route.ts:127-128 | removing the one occurrence of x from `p + [x] + q` gives `p + q`, so the others keep their order |
| `Groups.LeavePreservesWellFormed` | nextjs-backend/app/api/chat/members/route.ts:112-130 | from a well-formed group, leave either deletes the group or leaves it well-formed, and it always finds a successor admin when one is needed |
| `Groups.LeaveHandsOff` | nextjs-backend/app/api/chat/members/route.ts:112-119 | when the sole admin leaves a group of two or more, the caller is filtered out of `members` and `admins` becomes exactly the first other member, who is still a member |
| `Groups.LeaveLastMember` | nextjs-backend/app/api/chat/members/route.ts:112-123 | in a well-formed group whose only member is the caller, leaving deletes the group |
| `Groups.LeaveOrdinary` | nextjs-backend/app/api/chat/members/route.ts:124-130 | when the caller is not the sole admin, the caller is filtered out of both `members` and `admins` |
| `Groups.LeaveNonMember` | nextjs-backend/app/api/chat/members/route.ts:124-130 | a caller who is not a member of a well-formed group leaves it unchanged |
| `Listing.Latest` | nextjs-backend/app/api/chat/groups/route.ts:27-34 | nothing exactly when the group has no message; otherwise one of the group's messages whose timestamp is at least that of every message of the group |
| `Listing.SenderName` | nextjs-backend/app/api/chat/groups/route.ts:47-50 | name preference: "first last" when the info document exists, else a non-empty username, else the raw uid; both documents are read under the store key of the uid |
| `Listing.Summary` | nextjs-backend/app/api/chat/groups/route.ts:52-59 | `isFile` holds exactly when the message has a non-empty `fileId`; sender, text, timestamp and file fields come from the message |
| `Listing.View` | nextjs-backend/app/api/chat/groups/route.ts:62-71 | the entry keeps the group's id, name, picture URL, creation time, creator, members and admins; its last message is absent exactly when the group has no message, and otherwise it summarises a newest message of the group |
| `GroupRoutes.GroupStore.Members` | nextjs-backend/app/api/chat/members/route.ts:7-42 | authentication errors pass through; a missing or empty id gives 400, an id that names no document 500, and an unknown group 404; the group is read under the store key of the id; the listing succeeds exactly when every member is known to the provider, and otherwise gives 500; on success the result is the stored member list in stored order, each with its email and `isAdmin` exactly when listed in `admins` |
| `GroupRoutes.GroupStore.AddMember` | nextjs-backend/app/api/chat/members/route.ts:50-88 | success exactly when the caller is authenticated, the email is known, the group exists and the uid is not yet a member, and then only that group's `members` gains the uid at the end; 404 for an unknown user or group, 500 for a group id the store rejects, 400 for a duplicate; the group is read and written under the store key of the id; every error leaves the store unchanged; the store invariant is kept |
| `GroupRoutes.GroupStore.LeaveGroup` | nextjs-backend/app/api/chat/members/route.ts:91-140 | success exactly when the caller is authenticated and the group exists, and then the group is replaced or deleted as `Groups.Leave` decides; 404 for a missing group, 500 for a group id the store rejects, and no change on any error; the group is read and written under the store key of the id; the store invariant is kept |
| `GroupRoutes.GroupStore.CreateGroup` | nextjs-backend/app/api/chat/groups/route.ts:88-118 | an authenticated caller gets the new id, under which the creator-only group is stored; existing groups are untouched; authentication errors change nothing |
| `GroupRoutes.GroupStore.ListGroups` | nextjs-backend/app/api/chat/groups/route.ts:7-85 | 500 when some group of the caller has a latest message whose sender id the store cannot address; otherwise success for every authenticated caller, and the result holds each group whose members contain the caller exactly once, and nothing else, each entry built by `Listing.View` |
| `GroupRoutes.GroupLifetime` | nextjs-backend/app/api/chat/members/route.ts:73-130 | A creates a group and adds B by email, so the group lists A then B with A the only admin; A leaves, so B becomes the only member and admin; B leaves and the group no longer exists |
| `OneTimeCodes.CollectStale` | nextjs-backend/script/cleanUpScript.ts:7-15 | the delete batch holds exactly the codes created before `now - 24h` |
| `OneTimeCodes.SweptKeeps` | nextjs-backend/script/cleanUpScript.ts:8 | a code survives the sweep exactly when it was created at or after `now - 24h`, and it survives unchanged |
| `OneTimeCodes.SweptIdempotent` | nextjs-backend/script/cleanUpScript.ts:6-16 | sweeping twice at the same time gives the same collection as sweeping once |
| `OneTimeCodes.SweepSparesLiveCodes` | nextjs-backend/script/cleanUpScript.ts:8 | a code that the verify route would still accept, with a duration of at most a day, is never swept |
| `OneTimeCodes.SweepKeepsExpiredCodes` | nextjs-backend/script/cleanUpScript.ts:8 | codes 2 hours and exactly 24 hours old are both expired and both kept |
| `OneTimeCodes.VerificationMail` | nextjs-backend/lib/actions.ts:31-36 | the mail goes to the given address with the verify subject, and its text is the prompt followed by `appUrl + "/verify?oobCode=" + code` |
| `OneTimeCodes.ResetMail` | nextjs-backend/lib/actions.ts:64-69 | the mail goes to the given address with the reset subject, and its text is the prompt followed by `appUrl + "/reset?resetCode=" + code` |
| `OneTimeCodes.MailTextDeterminesCode` | nextjs-backend/lib/actions.ts:35 | for one application URL, two mails with the same text carry the same code |
| `OneTimeCodes.CodeStore.constructor` | nextjs-backend/app/api/auth/register/route.ts:14-19 | registered users start with both verified flags false and no codes |
| `OneTimeCodes.CodeStore.GenerateOOBCode` | nextjs-backend/lib/actions.ts:7-20 | returns the new key, under which the verification collection holds uid, email, `createdAt = now` and a duration of 3 600 000 ms; nothing else changes |
| `OneTimeCodes.CodeStore.GenerateResetCode` | nextjs-backend/lib/actions.ts:41-53 | returns the new key, under which the reset collection holds the email, `createdAt = now`, the one-hour duration and no uid; nothing else changes |
| `OneTimeCodes.CodeStore.Redeem` | nextjs-backend/app/api/auth/verify/route.ts:7-48 | a missing code gives 400 and an unknown one 400 "Invalid/Expired Code", both with no change; a code that names no document makes the store throw, giving 500 "Error verifying email" with no change; the code is read and deleted under its store key; a code past `createdAt + duration` gives 400 and is deleted with no flag set; otherwise both verified flags are set and only that code is deleted; a failing user update gives 500 and keeps the code |
| `OneTimeCodes.CodeStore.CleanupExpiredCodes` | nextjs-backend/script/cleanUpScript.ts:5-18 | the verification collection becomes its sweep; the reset collection and the users are untouched |
| `OneTimeCodes.CodeStore.CleanupExpiredPasswordResetCodes` | nextjs-backend/script/cleanUpScript.ts:20-33 | the reset collection becomes its sweep; the verification collection and the users are untouched |
| `OneTimeCodes.RedeemTwice` | nextjs-backend/app/api/auth/verify/route.ts:15-18 | after a successful redemption, redeeming the same code again gives 400 "Invalid/Expired Code" |
| `OneTimeCodes.IssueThenRedeem` | nextjs-backend/app/api/auth/verify/route.ts:27-43 | a UUID-shaped code redeemed no later than `createdAt + 3 600 000` verifies the user in both places and is then gone |
| `OneTimeCodes.UuidAddressable` | nextjs-backend/lib/actions.ts:8-12 | every code in the text form of `uuidv4()` names a document under its own text, so the store never throws on the codes the server issues |
| `Common.DocKey` | nextjs-backend/app/api/chat/members/route.ts:21 | the document id addressed is the given id with at most one leading and one trailing `/` removed, and an id without `/` addresses itself |
| `Common.PlainAddressable` | nextjs-backend/app/api/chat/members/route.ts:21 | a non-empty id without `/` names a document, and that document is its own id |
| `Common.OuterSlashDropped` | nextjs-backend/app/api/auth/verify/route.ts:15 | `"/" + c` and `c + "/"` name the same document as a plain id `c` |
| `Registration.EmailShapeMatchesPattern` | lib/action.ts:20-22 | the shape test accepts exactly what `^[^\s@]+@[^\s@]+\.[^\s@]+$` matches: one `@` with a non-empty part before it, no white space, and a `.` after the `@` with text on both sides |
| `Registration.Utf16Length` | lib/action.ts:10-12 | the length in UTF-16 code units lies between the number of characters and twice that, and equals it when every character is in the Basic Multilingual Plane |
| `Registration.EmailErrors` | lib/action.ts:6-9 | the required message appears exactly for an empty email and the invalid-address message exactly when the address does not have the pattern's shape; none appears exactly for a non-empty well-shaped address |
| `Registration.PasswordErrors` | lib/action.ts:10-13 | the minimum-length message appears exactly when the password has fewer than 8 UTF-16 units |
| `Registration.ConfirmErrors` | lib/action.ts:14-19 | the re-enter message appears exactly for an empty confirmation and the mismatch message exactly when the two passwords differ; the mismatch is reported on `confirmPassword` |
| `Registration.Validate` | lib/action.ts:5-23 | no field reports an error exactly when the email is non-empty and well-shaped, the password has at least 8 units, and the confirmation is non-empty and equal to it |
| `Registration.ValidateAcceptsExactly` | lib/action.ts:5-23 | the schema reports no error exactly when all five conditions hold |
| `Registration.ErrorMessage` | lib/action.ts:91-93 | a code in the table gets its own message; the unknown-error message is returned exactly for a code outside the table or no code |
| `Registration.ErrorTable` | lib/action.ts:26-31 | the table knows exactly the four auth codes, each with its fixed message, and any other code falls back to the unknown-error message |
| `Registration.RegisterUser` | lib/action.ts:48-99 | invalid fields give the failure message with the field errors; otherwise the sign-up outcome decides between success and the looked-up error message |
| `Registration.InvalidNeverSignsUp` | lib/action.ts:55-61 | when a condition fails, the outcome does not depend on the sign-up attempt, so the provider is never used |
| `Upload.Precheck` | src/lib/fileUpload.ts:4-11 | "Missing required parameters" exactly when a parameter is falsy; the size error exactly when the parameters are present and the size exceeds 5 242 880; 5 242 880 itself passes |
| `Upload.UploadFile` | src/lib/fileUpload.ts:3-31 | a failed precheck throws its message; a non-ok response throws the body's non-empty `error` or "Upload failed"; success exactly when the precheck passes and the response is ok |
| `Upload.PrecheckSendsNothing` | src/lib/fileUpload.ts:4-17 | when the precheck fails, the server's answer has no effect on the outcome |
| `Profiles.MakeProfile` | src/contexts/ProfileContext.jsx:20-23 | the username is `firstName + " " + lastName`; the picture is the URL when it is non-empty and the default URL otherwise |
| `Profiles.ProfileCache.constructor` | src/contexts/ProfileContext.jsx:11 | the cache starts empty |
| `Profiles.ProfileCache.GetProfile` | src/contexts/ProfileContext.jsx:13-28 | a hit returns the cached profile without a lookup and changes nothing; a successful lookup adds exactly that user's entry; a failed one returns nothing and changes nothing |
| `Profiles.LookupThenHit` | src/contexts/ProfileContext.jsx:14-24 | after a successful lookup, the next request for the same user is a hit that returns the same profile |

## Left out

- Concurrency is left out. Two concurrent leaves of one group race, and one write is lost. `Promise.all` fan-out is modelled as a sequential loop. Firestore's per-document atomicity and batch commit are assumed.
- `GroupRoutes.GroupStore.ListGroups` does not fix the order of the result. The store returns groups ordered by document id, and the model promises only that each matching group appears exactly once.
- `Listing.Latest`: the store breaks equal timestamps by document id. The model instead picks the message stored last among those with the greatest timestamp. The contract promises only a newest message.
- `GroupRoutes.GroupStore.AddMember` reports any email unknown to the provider as 404 "User not found". Other provider errors on the lookup, such as a malformed email, which the route reports as 500, are not modelled.
- `Common.Addressable`, `GroupRoutes.DocIdOk`, `OneTimeCodes.CodeStore.Redeem` and `GroupRoutes.GroupStore.ListGroups` follow only the store's path rule. An id is refused when it is missing or empty, contains `//`, or leaves an odd number of segments. One leading and one trailing `/` are dropped (`Common.DocKey`). Firestore's other id rules, such as `.`, `..` and `__…__`, are not modelled. A message whose `userId` field is missing cannot be expressed, because `Listing.Message.userId` is a string.
- `GroupRoutes.GroupStore.CreateGroup`, `GroupRoutes.GroupStore.AddMember` and `OneTimeCodes.CodeStore.Redeem` take the request body as already parsed. In the source, a body that is not JSON makes `req.json()` throw before the bearer check. The members and groups POST handlers answer 500 even without an `authorization` header, and the verify route reads the body outside its `try`. The model instead promises 401 for a missing header. A body without `name` makes the group write throw (500) in the source. `CreateGroup` takes `name` as a string and cannot express its absence.
- The `!data` branch of the verify route (lines 21-23) is left out. An existing document always has data, so the branch cannot be taken.
- Mail transport (nodemailer, credentials, `sendMail`) is I/O and left out. Only the mail's address, subject and text are modelled. The application URL is a parameter; an unset variable would print as "undefined".
- UUID generation, `new Date()` and `Timestamp.now()` become parameters. Timestamps are integer milliseconds, and the conversion to and from `Timestamp` is the identity.
- Console logging, the HTTP server, process start-up, the cron schedule and the cleanup route that runs both sweeps are left out.
- `Registration.Validate` assumes that zod's object refinements run even after a field minimum has failed. zod marks such failures non-fatal. Only the messages are modelled, not the rest of zod's error objects.
- `Registration.ErrorMessage` ignores inherited object keys. A code such as `"constructor"` would find a prototype member in the JavaScript table. Auth codes never look like that.
- `Registration.RegisterUser` does not model the steps after validation one by one: sign-up, the register request and the verification mail. They are one attempt whose outcome is a parameter.
- `Upload.UploadFile` leaves out building the form data and request headers. It also leaves out the case where an error body is not JSON, so that `response.json()` throws a different error.
- `Profiles.ProfileCache.GetProfile` reads and writes the cache at once. React's `setProfiles` is asynchronous, so a stale closure may miss a just-added entry; that is not modelled. The `idToken` passed to the lookup is dropped.
- The login flow, the email-verification send, the todo and chat fetch wrappers, the file listing and the UI components are outside the modelled core.
