# Profile completion, modelled in Dafny

This project models the profile-completion write path of a dating application, in three parts.

- **Form validation** (`form_schema.dfy`, module `FormSchema`). These are the zod rules of the completion form:
  - the `Preference` enum;
  - the profile picture schema, which accepts a file of at most 5 MiB with one of four MIME types, or a `data:image/...;base64,` string;
  - the biography length (10 to 500);
  - non-empty city and country;
  - at least four pictures;
  - five to ten interests;
  - optional coordinates;
  - the three step schemas that `pick` takes out of the full schema.

  An object schema is the set of fields it declares. Form data is a map from field to value. Parsing keeps only the declared fields.
- **The wizard** (`profile_wizard.dfy`, module `ProfileWizard`). The three-step `CompleteProfileForm` component is modelled twice:
  - as transition functions on a `FormState` value, which covers `getCurrentSchema`, `onSubmit`, `prev`, the pending guard on the submit button and the IP lookup;
  - as a class with the same fields, whose methods are proved to make exactly those transitions.

  The lemmas cover what one transition does, and what any sequence of events keeps:
  - the step stays in range;
  - the stored values belong to the first two steps;
  - at most one request is sent per settlement.
- **The server controller** (`user_controller.dfy`, module `UserController`). This part models `completeProfile`, `updateEmail` and `updatePassword` as methods over:
  - a database connection (`database.dfy`, module `Database`): an abstract store with users, picture rows in insertion order, the interest-tag vocabulary, and a set of interest associations. `BEGIN` takes a snapshot and `ROLLBACK` restores it. A fault oracle decides which statements throw, and every issued statement is logged.
  - an image-host client (`media.dfy`, module `Media`), whose upload oracle may fail.

  `completeProfile` runs its guards in order:
  1. authentication;
  2. field presence;
  3. the preference;
  4. all the invalid interests at once.

  Then it uploads the profile picture and, in order, each gallery picture. Only after the last upload does it issue `BEGIN`, the user update, the picture rows, the interest associations and `COMMIT`. The method's contract states:
  - the reply and the final store for every guard failure, every upload failure and every failing statement;
  - that more than one statement is issued only when every upload has succeeded, and that `BEGIN` is then the first;
  - that a failure after `BEGIN` leaves the store exactly as it was.

  The credential updates are guard sequences. They are proved to write the row only when every guard passes and no statement throws. An allowed email change is proved to keep emails unique.

The program's own behaviour is kept where it is surprising:
- The server reads the longitude under the key `longtitude`, while the client sends `longitude`.
- Presence uses JavaScript truthiness, so a latitude or longitude of `0` counts as missing, and an empty array counts as present.
- The catch block issues `ROLLBACK` even when the failure was an upload before `BEGIN`. Outside a transaction that statement changes nothing.
- The server checks no picture count and no interest count. Only the client's schema does (lemma `UserController.EmptyArraysPassGuards`).
- With a NULL stored password, `bcrypt.compare` throws, and the handlers reply 500.
- `updateEmail` does not exclude the caller's own row from the "already in use" check (lemma `UserController.CurrentEmailRefused`).

The foreign calls are parameters:
- the image host is `service: (nat, string) -> Option<string>`, the outcome of the n-th upload call;
- statement failures are `throws: Stmt -> bool`;
- `bcrypt.compare` and `bcrypt.hash` are `compare` and `hash`;
- `isValidPreference` and `isValidInterest` are membership in the two sets of `Rules`.

## Model

| member | source | states |
|---|---|---|
| FormSchema.ParsePreference | client/schemas/CompleteFormSchema.ts:4-12 | a string is accepted exactly when it is the value of one of `MALE`, `FEMALE`, `BOTH`, and then it yields that member |
| FormSchema.PreferenceRoundTrip | client/schemas/CompleteFormSchema.ts:4-12 | every member's value parses back to the member |
| FormSchema.ProfilePictureFileBoundary | client/schemas/CompleteFormSchema.ts:14-30 | a PNG file of exactly 5·1024·1024 bytes is accepted, one byte more is refused, and an SVG is refused |
| FormSchema.ValidImageFile | client/schemas/CompleteFormSchema.ts:14-30 | defines the file branch of the picture union: size at most 5·1024·1024 and a MIME type among the four accepted |
| FormSchema.ValidImageString | client/schemas/CompleteFormSchema.ts:31-36 | defines the string branch: at least one character and starting with one of the four data-URL headers |
| FormSchema.DataUrlAccepted | client/schemas/CompleteFormSchema.ts:31-36 | any string starting with `data:image/` + jpeg, png, gif or webp + `;base64,` is an accepted picture string |
| FormSchema.AcceptedDataUrlShape | client/schemas/CompleteFormSchema.ts:31-36 | conversely, every accepted picture string is one of those four headers followed by some payload |
| FormSchema.OtherImageStringsRejected | client/schemas/CompleteFormSchema.ts:31-36 | the empty string, a plain https URL and an SVG data URL are refused |
| FormSchema.FieldAccepts | client/schemas/CompleteFormSchema.ts:39-67 | defines the rule attached to each key of the full schema, applied to a present value |
| FormSchema.Accepts | client/schemas/CompleteFormSchema.ts:39-67 | defines passing an object schema: every declared field present and accepted, or absent and `.optional()` (only the coordinates) |
| FormSchema.Parse | client/schemas/CompleteFormSchema.ts:39-67 | parsing succeeds exactly when the data passes the schema, and then yields the declared fields that are present, with their values unchanged |
| FormSchema.PersonalInfoAccepts | client/schemas/CompleteFormSchema.ts:39-49 | the first step passes exactly when it has an accepted picture, a biography of 10 to 500 characters and one of the three preferences |
| FormSchema.AddressInfoAccepts | client/schemas/CompleteFormSchema.ts:51-57 | the second step passes exactly when city and country are non-empty, there are at least 4 pictures, and each coordinate is absent or a number |
| FormSchema.InterestsAccepts | client/schemas/CompleteFormSchema.ts:59-66 | the last step passes exactly when there are 5 to 10 interests |
| FormSchema.StepSchemasPartition | client/schemas/CompleteFormSchema.ts:71-87 | the three picks are pairwise disjoint and their union is every field of the full schema |
| FormSchema.AcceptsUnion | client/schemas/CompleteFormSchema.ts:71-87 | data passes a union of picks exactly when it passes each pick |
| FormSchema.ParseUnion | client/schemas/CompleteFormSchema.ts:71-87 | the parse by a union of picks is the union of the parses |
| FormSchema.StepsComposeFullSchema | client/schemas/CompleteFormSchema.ts:39-87 | data passes the full schema exactly when it passes all three steps, and the full parse is the union of the three step parses |
| FormSchema.SampleFormAccepted | client/schemas/CompleteFormSchema.ts:39-67 | a form with valid other fields passes exactly when its biography length, picture count and interest count are in range |
| FormSchema.FullSchemaBoundaries | client/schemas/CompleteFormSchema.ts:41-66 | biographies of 10 and 500, 4 pictures, and 5 or 10 interests pass; biographies of 9 or 501, 3 pictures, and 4 or 11 interests fail |
| ProfileWizard.StepIndex | client/components/organisms/complete-profile/CompleteProfileForm.tsx:25-35 | each step sits at its own position of `steps` |
| ProfileWizard.CurrentSchema | client/components/organisms/complete-profile/CompleteProfileForm.tsx:76-87 | an index in range selects the step at that position; any other index selects the personal step |
| ProfileWizard.CurrentSchemaInvertsStepIndex | client/components/organisms/complete-profile/CompleteProfileForm.tsx:76-87 | the schema selection undoes the step's position, and distinct indexes in range select distinct steps |
| ProfileWizard.InterestValues | client/components/organisms/complete-profile/CompleteProfileForm.tsx:112-115 | the flattened interests have the same length as the interests, and each is the `.value` of the interest at the same position |
| ProfileWizard.InterestValuesAppend | client/components/organisms/complete-profile/CompleteProfileForm.tsx:112-115 | flattening distributes over concatenation, so order is kept |
| ProfileWizard.FillIfUndefined | client/components/organisms/complete-profile/CompleteProfileForm.tsx:104-109 | defines the coordinate fill: the lookup's value is assigned only when the field is undefined and the lookup gave one |
| ProfileWizard.FinalPayload | client/components/organisms/complete-profile/CompleteProfileForm.tsx:103-115 | defines the payload handed to `mutate`: stored values overlaid by the step data, coordinates filled, interests flattened; absent when `data.interests` is not a list and `.map` throws |
| ProfileWizard.FinalPayloadFields | client/components/organisms/complete-profile/CompleteProfileForm.tsx:100-116 | in the payload the step data wins over the stored values; a coordinate comes from the IP lookup only when neither defines it; the interests are the step's interest values in order |
| ProfileWizard.AfterOnSubmit | client/components/organisms/complete-profile/CompleteProfileForm.tsx:100-129 | defines `onSubmit`: at the last step the payload is sent and the request is pending; before it the data is merged, the old step recorded and the step incremented |
| ProfileWizard.AfterSubmit | client/components/organisms/complete-profile/CompleteProfileForm.tsx:89-98 | defines a submit press: nothing while pending; otherwise the current step's schema parses the form and `onSubmit` receives the result only when it passes |
| ProfileWizard.AfterPrev | client/components/organisms/complete-profile/CompleteProfileForm.tsx:131-136 | defines `prev`: record the step and move back one, only when above the first |
| ProfileWizard.AfterSettle | client/components/organisms/complete-profile/CompleteProfileForm.tsx:57-73 | defines the mutation settling in success or error: the pending flag clears |
| ProfileWizard.AfterLocate | client/components/organisms/complete-profile/CompleteProfileForm.tsx:151-156 | defines the IP lookup resolving: both coordinates replaced by the lookup's, possibly absent |
| ProfileWizard.AdvanceIffStepValid | client/components/organisms/complete-profile/CompleteProfileForm.tsx:120-124 | from a non-final step, submit advances by exactly one exactly when the step's schema accepts the data; it then merges the parsed data into the values and records the old step; no request is sent |
| ProfileWizard.AdvanceKeepsOtherSteps | client/components/organisms/complete-profile/CompleteProfileForm.tsx:120-124 | advancing stores only fields of the step being left and keeps every other stored value |
| ProfileWizard.FinalSubmitEmitsPayload | client/components/organisms/complete-profile/CompleteProfileForm.tsx:102-118 | at the last step an accepted submit keeps the step and the values, marks the request pending, and emits exactly one payload |
| ProfileWizard.FinalSubmitSendsIffAccepted | client/components/organisms/complete-profile/CompleteProfileForm.tsx:89-118 | at the last step a payload goes out exactly when no request is pending and the interests schema accepts the form; a refused submit changes nothing |
| ProfileWizard.PendingBlocksSubmit | client/components/organisms/complete-profile/CompleteProfileForm.tsx:224-226 | while the request is pending, submit changes nothing |
| ProfileWizard.PrevOnlyRetreats | client/components/organisms/complete-profile/CompleteProfileForm.tsx:131-136 | `prev` steps back by one exactly when above the first step, is otherwise a no-op, and never touches the values or requests |
| ProfileWizard.InitialWellFormed | client/components/organisms/complete-profile/CompleteProfileForm.tsx:37-46 | the initial state is at step 0 with nothing stored |
| ProfileWizard.EventPreservesWellFormed | client/components/organisms/complete-profile/CompleteProfileForm.tsx:100-136 | every event keeps the step within `steps` and keeps the stored values to fields of the first two steps |
| ProfileWizard.RunPreservesWellFormed | client/components/organisms/complete-profile/CompleteProfileForm.tsx:100-136 | any sequence of events from a well-formed state stays well formed, with the step in [0, 2] |
| ProfileWizard.EventBudget | client/components/organisms/complete-profile/CompleteProfileForm.tsx:50-74 | no event removes a sent request, and only a settlement can make room for another one |
| ProfileWizard.RequestsBoundedBySettlements | client/components/organisms/complete-profile/CompleteProfileForm.tsx:224-226 | over any events, the requests sent grow by at most the number of settlements, plus one when none was pending |
| ProfileWizard.AtMostOneRequestInFlight | client/components/organisms/complete-profile/CompleteProfileForm.tsx:224-226 | without a settlement, at most one request is sent, and none while one is pending |
| ProfileWizard.SentOnlyGrows | client/components/organisms/complete-profile/CompleteProfileForm.tsx:116 | the requests already sent stay, in order, as a prefix |
| ProfileWizard.CompleteProfileForm.constructor | client/components/organisms/complete-profile/CompleteProfileForm.tsx:37-46 | the component starts in the initial well-formed state |
| ProfileWizard.CompleteProfileForm.Submit | client/components/organisms/complete-profile/CompleteProfileForm.tsx:89-98 | the fields move exactly as the submit transition says, and the invariant is kept |
| ProfileWizard.CompleteProfileForm.OnSubmit | client/components/organisms/complete-profile/CompleteProfileForm.tsx:100-129 | the in-place assignments of `finalData` and the step updates give exactly the `onSubmit` transition |
| ProfileWizard.CompleteProfileForm.Mutate | client/components/organisms/complete-profile/CompleteProfileForm.tsx:50-56 | the payload is appended to the requests, the mutation becomes pending, and nothing else changes |
| ProfileWizard.CompleteProfileForm.Prev | client/components/organisms/complete-profile/CompleteProfileForm.tsx:131-136 | the fields move exactly as `prev` says, and the invariant is kept |
| ProfileWizard.CompleteProfileForm.Settle | client/components/organisms/complete-profile/CompleteProfileForm.tsx:57-73 | settling clears the pending flag only |
| ProfileWizard.CompleteProfileForm.Locate | client/components/organisms/complete-profile/CompleteProfileForm.tsx:151-156 | the lookup's coordinates, possibly absent, replace the stored ones |
| Database.PictureRows | server/src/controllers/userController.ts:101-105 | one row per URL, owned by the user, in array order |
| Database.TaggedWith | server/src/controllers/userController.ts:107-114 | defines the rows `SELECT $1, id FROM interest_tags WHERE tag = ANY($2)` produces: one association per submitted tag present in the vocabulary |
| Database.Write | server/src/controllers/userController.ts:78-114 | defines each data statement's effect: the profile `UPDATE` (a missing id changes nothing), the picture insert appending rows, the interest insert as set union (`ON CONFLICT DO NOTHING`), and the email and password `UPDATE`s of lines 191-196 and 252-257 |
| Database.UsersWithEmail | server/src/controllers/userController.ts:153-158 | defines the ids `SELECT id FROM users WHERE email = $1` returns |
| Database.PasswordRows | server/src/controllers/userController.ts:167-178 | at most one row; exactly one when the id is defined and exists, and then it is that user's stored password |
| Database.CredentialWritesTouchOneColumn | server/src/controllers/userController.ts:191-257 | an email `UPDATE` (lines 191-196) or password `UPDATE` (lines 252-257) changes that one column of that one row, and nothing else in the store |
| Database.Exec | server/src/controllers/userController.ts:76-125 | defines a succeeding statement on a session: `BEGIN` takes a snapshot unless one is open, `COMMIT` drops it, `ROLLBACK` restores an open one and is otherwise a no-op, data statements write |
| Database.RollbackUndoesWrites | server/src/controllers/userController.ts:76-125 | from outside a transaction, `BEGIN`, any writes and `ROLLBACK` leave the session as it was |
| Database.CommitKeepsWrites | server/src/controllers/userController.ts:76-116 | `BEGIN`, writes and `COMMIT` leave the writes' effect and close the transaction |
| Database.Connection.Execute | server/src/controllers/userController.ts:76-116 | the statement is logged; it succeeds exactly when the oracle does not fail it, and only then does it take effect |
| Database.Connection.SelectIdsByEmail | server/src/controllers/userController.ts:153-158 | the query is logged and, when it succeeds, returns exactly the users with that email |
| Database.Connection.SelectPasswordOf | server/src/controllers/userController.ts:167-171 | the query is logged and, when it succeeds, returns the password rows of the id |
| Media.UploadPrefix | server/src/controllers/userController.ts:64-74 | a sequential upload collects at most one URL per image |
| Media.UploadPrefixCollected | server/src/controllers/userController.ts:64-74 | the i-th collected URL is what the i-th call returned, and when the upload stopped short, the next call failed |
| Media.UploadPrefixUnique | server/src/controllers/userController.ts:64-74 | the collected URLs are the only sequence with those properties |
| Media.UploadCalls | server/src/controllers/userController.ts:64-74 | the calls made number at most the images, and all of them when every image was uploaded |
| Media.AllUploadedIff | server/src/controllers/userController.ts:64-74 | every image was uploaded exactly when every call succeeded |
| Media.Uploader.Upload | server/src/controllers/userController.ts:64-67 | the call is recorded and returns the oracle's outcome for the call's position |
| UserController.InvalidInterests | server/src/controllers/userController.ts:53-55 | an interest is reported exactly when it was submitted and is not in the vocabulary, and no more are reported than were submitted |
| UserController.InvalidInterestsAppend | server/src/controllers/userController.ts:53-55 | the filter keeps input order and every repetition |
| UserController.FieldsPresent | server/src/controllers/userController.ts:29-44 | defines the presence check by JavaScript truthiness: non-empty strings, non-zero coordinates read from `latitude` and `longtitude`, and both arrays defined even if empty |
| UserController.Rejection | server/src/controllers/userController.ts:22-62 | defines the reply of the first failing guard of `completeProfile`, or none when every guard passes |
| UserController.GuardOrder | server/src/controllers/userController.ts:22-62 | the guards fire in order (401, then the one aggregate 400, then the preference, then all invalid interests), and the request goes on exactly when all pass |
| UserController.CoordinatesAsWritten | server/src/controllers/userController.ts:29-44 | a zero coordinate, or a body without `longtitude`, is answered "All fields are required" |
| UserController.EmptyArraysPassGuards | server/src/controllers/userController.ts:29-62 | empty picture and interest arrays pass every server guard |
| UserController.InvalidInterestsExample | server/src/controllers/userController.ts:53-62 | two unknown interests are both reported, in submission order |
| UserController.FirstThrowing | server/src/controllers/userController.ts:76-125 | the position of the first statement the oracle fails: every earlier one succeeds |
| UserController.Completed | server/src/controllers/userController.ts:78-116 | defines the store a committed completion leaves: the user update, then the picture rows, then the interest associations |
| UserController.CompletedRows | server/src/controllers/userController.ts:78-116 | a commit sets the user's row to the submitted fields, the profile URL and `profile_completed`; changes no other row; appends one picture row per URL; and adds associations exactly for submitted tags in the vocabulary, keeping existing ones |
| UserController.ResubmissionAsymmetry | server/src/controllers/userController.ts:101-114 | committing the same completion twice adds no interest association, but appends the picture rows again |
| UserController.TransactionAllOrNothing | server/src/controllers/userController.ts:76-125 | rolling back after any proper prefix of the transaction restores the store; running it all yields the completed store |
| UserController.Abort | server/src/controllers/userController.ts:122-131 | the catch block logs `ROLLBACK`, restores the snapshot if a transaction is open, and replies 500 |
| UserController.UploadGallery | server/src/controllers/userController.ts:69-74 | the loop collects exactly the URLs of the sequential upload, and makes the calls up to and including the first failure |
| UserController.UploadImages | server/src/controllers/userController.ts:64-74 | the profile picture and then the gallery make one sequential upload of all images |
| UserController.FirstUploadFails | server/src/controllers/userController.ts:64-74 | a failed profile-picture upload collects nothing and makes one call |
| UserController.FirstUploadSucceeds | server/src/controllers/userController.ts:64-74 | after a successful profile-picture upload, the gallery's upload continues the same sequence |
| UserController.RunTransaction | server/src/controllers/userController.ts:76-116 | the statements run in order until the first failure; on success the store is the completed one and no transaction is open |
| UserController.CommitProfile | server/src/controllers/userController.ts:76-131 | success commits the completed store with reply 200; a failure at statement k logs the statements up to k and `ROLLBACK`, leaves the store unchanged and replies 500 |
| UserController.CompleteProfile | server/src/controllers/userController.ts:12-132 | guards reply before any upload or statement; failed uploads give only `ROLLBACK` and 500; otherwise the transaction's outcome; no statement but `ROLLBACK` runs unless every upload succeeded |
| UserController.EmailChangeAllowed | server/src/controllers/userController.ts:146-189 | defines every guard of `updateEmail` passing: both fields truthy, no row with the email, the user's row found with a non-NULL password that `compare` accepts |
| UserController.PasswordChangeAllowed | server/src/controllers/userController.ts:219-248 | defines every guard of `updatePassword` passing: both fields truthy, the user's row found with a non-NULL password that `compare` accepts for the old one |
| UserController.UpdateEmail | server/src/controllers/userController.ts:138-209 | each reply comes from its guard in order; the row's email changes, with reply 200, exactly when every guard passes and no statement throws |
| UserController.UpdatePassword | server/src/controllers/userController.ts:211-269 | the same for the password: the new hash is stored, with reply 200, exactly when every guard passes and no statement throws |
| UserController.EmailChangeKeepsEmailsUnique | server/src/controllers/userController.ts:153-196 | an allowed email change keeps emails unique and makes the user the one row with the new email |
| UserController.CurrentEmailRefused | server/src/controllers/userController.ts:153-165 | re-submitting one's current email is refused as already in use |
| UserController.PasswordChangeStoresHash | server/src/controllers/userController.ts:241-257 | an allowed password change stores the new hash in that row only, and when `compare` accepts each password against its own hash, the new password then checks out |

## Left out

- The image host is an oracle of call position and image. Images uploaded before a failure stay on the host, which is not modelled beyond the call log.
- SQL text and Postgres semantics are replaced by their effect on an abstract store:
  - `ON CONFLICT DO NOTHING` becomes set union;
  - `unnest` becomes one row per URL;
  - `ANY` becomes vocabulary membership.
- The tag ids in `interest_tags` are assumed unique per tag.
- `bcrypt.compare` and `bcrypt.hash` are parameters. Their cryptography, salting and cost are not modelled.
- `isValidPreference` and `isValidInterest` are membership in two given sets. `server/src/dtos/requests/completeProfileRequest.ts` is not part of this model.
- The request body is typed: each field is a string, real, or string array, or absent. Non-string values and JavaScript's other falsy values (`NaN`, `null`) are not modelled.
- `server/src/config/db.ts` is not part of this model. Statements are taken to run in order on one connection.
- UserController.CompleteProfile: it requires that `ROLLBACK` itself never throws and that no transaction is open when the request begins. The catch block's own failure is left out.
- UserController.CompleteProfile: the upload calls and the issued statements are kept in two separate logs (`Media.Uploader.calls` and `Database.Connection.log`), not in one trace. Their order is stated by the ensures that a second statement is logged only when every upload succeeded, and that it then follows `BEGIN`.
- Races between concurrent completions are left out, because no locking exists to model.
- React rendering, the step markup, the toast, the router, and the `reset` on success (`CompleteProfileForm.tsx:57-74`, 138-252) are left out as presentation.
- react-hook-form and the zod resolver's internals are left out: the model feeds the current step's schema the whole form, and `onSubmit` receives its parse. `onChange` revalidation, the default values and the asynchronous timing of `setState` are not modelled.
- The completion form context's initial values are not part of this model. The wizard starts at step 0 with nothing stored.
- The request service between `mutate` and the controller is not part of this model. The wizard records the payloads it sends, and the controller takes a typed body.
- String lengths count characters of `seq<char>`, not UTF-16 code units. No regular-expression engine is modelled: the data-URL pattern is written out as a prefix test against its four headers.
- `server/src/controllers/profile.controller.ts`, the routes and the type declarations are left out, because they hold no logic of this path.
