# DevRealEstate authentication core, in Dafny

This project models the account and session logic of the DevRealEstate web
application and proves properties of that model. The parts it covers:

- **API server:**
  - the handlers for sign-up, sign-in, Google sign-in or sign-up, and logout;
  - the profile handlers: change the picture, update the account, delete it, and list its listings;
  - the account schema and the invariant it keeps on the account collection;
  - the request guard that finds and checks the bearer token;
  - the error-response helper.
- **Browser client:**
  - the session slice with its two cookies;
  - the sign-up form validation;
  - the key filters of the listing form.

## Layout

| file | module | models |
|---|---|---|
| values.dfy | `Values` | `Option`, `Result`, the JavaScript values used, truthiness |
| strings.dfy | `Strings` | `split`, `join`, `startsWith`, `toLowerCase` on strings, with round-trip lemmas |
| user_model.dfy | `UserModel` | the account record, `required`/`unique`/`default`, the collection invariant `Stored` |
| store.dfy | `Store` | the collection as a class: `findOne`, `save`, `findByIdAndDelete`, `findByIdAndUpdate` |
| crypto.dfy | `Crypto` | bcrypt and jsonwebtoken as given functions, and the token every handler issues |
| http.dfy | `Http` | responses: status, JSON body, cookie operations |
| guard.dfy | `Guard` | `verifyToken` |
| auth_controller.dfy | `AuthController` | `signup`, `signin`, `googleSignIn`, `logout` |
| user_controller.dfy | `UserController` | `updateProfilePic`, `updateUser`, `deleteUser`, `getUserListings` |
| error_handling.dfy | `ErrorHandling` | `errorHandler` |
| session.dfy | `Session` | the initial state and the ten reducers of the user slice |
| signup_form.dfy | `SignUpForm` | `validateInputs` and the early return of `handleSubmit` |
| listing_form.dfy | `ListingForm` | `preventInvalidInput` and `preventInvalidName` |

## Modelling choices

- **Accounts.** The account collection is a sequence kept in insertion order, because `findOne` returns the first match. Ids are natural numbers drawn from a counter.
- **Save failures.** A save can fail in two ways:
  - the schema's `required` check rejects a missing or empty string;
  - a `unique` index rejects a duplicate.

  `SaveError` decides which, and in what order. Other persistence failures are not modelled.
- **Crypto.** The hasher, the password comparison, the signer and the verifier are function values. `Crypto.Sound` states what the libraries promise:
  - a hash is never empty;
  - a password matches its own hash;
  - a token verifies to what it was signed over.
- **Request bodies.** A request-body field is `Option<string>`. `Given` is the truthiness test the handlers apply to it.
- **Absent email.** A filter on an absent email matches every account, because mongoose drops `undefined` properties from a query. So `signin` without an email looks at the first account.
- **Absent password.** `signin` without a password reaches `bcrypt.compare(undefined, …)`, which throws, so the answer is 500.
- **`next(error)` and thrown errors.** A handler that calls `next(error)`, or throws outside its `try`, ends in the framework's default error handler. The middleware in `api/index.js` takes two parameters, so it is not an error handler. The body of such an answer is `Unhandled` and its status is 500.
- **Session cookies.** The slice's cookies map names to text. `JSON.stringify` and `JSON.parse` are function values, tied by `Session.RoundTrips`: text parses back to the object without its `undefined` properties.

## Behaviour the model brings out

1. **Partial sessions after a reload.** A reload can restore a token without its user: a `token` cookie alone gives a session with a token and no user (`Session.PartialSessionOnLoad`).
2. **Token drift after an update.** After `updateUserSuccess` with a payload that carries a new token, the in-memory token keeps the old value, while a reload takes the new one (`Session.UpdatedTokenOnlyInCookie`).
3. **`updateProfilePic` has no guard.** The route is mounted without `verifyToken` (api/routes/user.route.js:7).
   - The handler reads `req.user.id` outside its `try`, so every request ends in the default handler (`UserController.UpdateProfilePic`).
   - When a caller is present, the reply carries the whole stored record, password hash included.
4. **Cookie names differ by path.** A new Google user gets the token in a cookie named `token`; every other sign-in uses `access_token`. `logout` clears only `access_token`.
5. **A duplicate name is 500, not 400.** Only the email is checked before saving. A sign-up with a taken name fails in the unique index and gets 500 (`AuthController.SignupFailsOnlyOnTakenName`).
6. **Raw errors leak.** `signup`'s 500 carries the raw error object (`ServerError(_, Some(e))`).
7. **No ownership check on update.** `updateUser` never compares the caller with `:id`. `UserController.UpdateUser` takes the caller and its contract does not depend on it.
8. **The error helper can itself throw.** `errorHandler` passes any non-zero `err.status` on to `res.status`. A status outside 100–999 makes the send throw instead of answering (`ErrorHandling.ErrorHandler`).

## Model

| member | source | states |
|---|---|---|
| ErrorHandling.ErrorHandler | api/utils/error.js:1-9 | the status is `err.status` when it is present and non-zero, else 500; the message is `err.message` when it is non-empty, else `'Internal server error'`; a status outside 100–999 makes the send throw, and exactly then; a sent reply has `success` false and a body `status` equal to the HTTP status |
| ErrorHandling.ErrorHandlerIdempotent | api/utils/error.js:2-3 | feeding a sent reply's status and message back in sends the same reply |
| SignUpForm.EmailMatchesIffLanguage | client/src/pages/SignUp.jsx:16 | the backtracking-free email test accepts exactly the language of `^[^\s@]+@[^\s@]+\.[^\s@]+$` (three atoms around `@` and `.`) |
| SignUpForm.ValidateInputs | client/src/pages/SignUp.jsx:14-23 | the result is `''` exactly when name, email and password all match; otherwise it is the message of the first failing check, in the order name, email, password |
| SignUpForm.HandleSubmit | client/src/pages/SignUp.jsx:25-28 | the form is posted unchanged exactly when all three checks pass; otherwise the non-empty validation message is shown and nothing is posted |
| ListingForm.ContainsDigit | client/src/pages/CreateListing.jsx:15 | true exactly when some character of the key is a decimal digit |
| ListingForm.PreventInvalidInput | client/src/pages/CreateListing.jsx:4-8 | blocks exactly the keys `-`, `+`, `e`, `E`, `.` |
| ListingForm.PreventInvalidName | client/src/pages/CreateListing.jsx:10-18 | blocks exactly the five number-like keys, plus any key containing a digit while the field is empty |
| ListingForm.NameFilterAfterFirstChar | client/src/pages/CreateListing.jsx:12-15 | once the field has text, the name filter blocks the same keys as the number filter |
| ListingForm.DigitKeysOnEmptyName | client/src/pages/CreateListing.jsx:12-15 | `5` and `F5` are blocked on an empty field and pass once it has text; the number filter lets `5` through |
| UserModel.NewAccount | api/models/user.model.js:18-21 | a new document keeps the given fields and takes the placeholder picture when none is supplied |
| UserModel.SaveError | api/models/user.model.js:3-17 | a save succeeds exactly when name, email and password are non-empty and no other account has the same name or email |
| UserModel.StoredAppend | api/models/user.model.js:3-13 | adding an account that saves cleanly, with a fresh id, keeps names, emails and ids unique and every required field filled |
| UserModel.StoredRemove | api/models/user.model.js:3-13 | removing an account keeps the collection invariant |
| UserModel.StoredReplace | api/models/user.model.js:3-13 | replacing an account by a same-id version that saves cleanly beside the others keeps the collection invariant |
| Store.IndexOf | api/controllers/auth.controller.js:15 | `findOne` gives the first matching account, or nothing exactly when none matches |
| Store.IndexOfIdentifies | api/models/user.model.js:4-13 | under the invariant, a lookup by id or by a given email finds the one account that has it |
| Store.OwnedBy | api/controllers/user.controller.js:87 | the result holds only listings whose owner is the id, and every stored listing of that owner |
| Store.OwnedByAppend | api/controllers/user.controller.js:87 | the filter keeps stored order: filtering a concatenation concatenates the filtered parts |
| Store.OwnedBySingle | api/controllers/user.controller.js:87 | a single listing is kept exactly when its owner is the id; with the append law, each owned listing appears as often as it is stored, in stored order |
| Store.Database.Insert | api/controllers/auth.controller.js:22-28 | a refused save leaves the collection unchanged; otherwise exactly the new account is appended with a fresh id; the invariant holds afterwards |
| Store.Database.Save | api/controllers/user.controller.js:45 | the record at the position is replaced when it saves cleanly beside the others, and nothing changes otherwise |
| Store.Database.FindByIdAndDelete | api/controllers/user.controller.js:69 | the account with the id is removed and returned, and the others keep their order; nothing changes when the id is unknown |
| Store.Database.FindByIdAndUpdatePic | api/controllers/user.controller.js:11 | only the picture of the account with the id changes, and an absent picture changes nothing; the updated record is returned |
| Crypto.Issue | api/controllers/auth.controller.js:30-34 | every token is signed over exactly the account's id and email for thirty days, and with sound libraries it verifies to that payload |
| Strings.Split | api/utils/verifyUser.js:8 | the pieces contain no separator and the first piece is the text up to the first separator |
| Strings.JoinSplit | api/utils/verifyUser.js:8 | joining the pieces of a split with the separator gives back the string |
| Strings.JoinSplitEmpty | api/controllers/auth.controller.js:146 | joining the pieces with `''` removes every separator |
| Strings.LowerAscii | api/controllers/auth.controller.js:146 | keeps the length and lowers each ASCII capital |
| Guard.BearerSplit | api/utils/verifyUser.js:8 | for a header starting with `Bearer `, element 1 of the split on spaces exists and is the text after the prefix up to the next space |
| Guard.HeaderPiece | api/utils/verifyUser.js:6-9 | the header supplies a piece exactly when it starts with `Bearer ` (case-sensitive), and the piece is element 1 of the split |
| Guard.ExtractToken | api/utils/verifyUser.js:3-14 | a non-empty header piece wins; otherwise a non-empty `access_token` cookie is used; otherwise there is no token |
| Guard.Exchange.VerifyToken | api/utils/verifyUser.js:2-25 | no token answers 401 and a token that fails verification answers 403, both leaving `req.user` as it was and not calling `next`; a verified token sets `req.user` to the payload, calls `next` once and sends nothing |
| Guard.LowerCaseBearerIgnored | api/utils/verifyUser.js:7 | a `bearer …` header is ignored in favour of the cookie |
| Guard.EmptyPieceFallsBack | api/utils/verifyUser.js:7-14 | `Bearer ` and `Bearer  abc` supply nothing, so the cookie decides |
| Guard.TokenStopsAtSpace | api/utils/verifyUser.js:8 | from `Bearer abc def` the token is `abc` |
| AuthController.GoogleUserName | api/controllers/auth.controller.js:146 | the synthesised name is the display name without spaces, lowered, followed by the suffix |
| AuthController.Signup | api/controllers/auth.controller.js:5-55 | a missing or empty field answers 400 `All fields are required`, then an existing email answers 400 `User already exists`, both with the store unchanged; otherwise exactly one account is added, holding `hash(password)`, and the reply is 201 with `{id, name, email}`, the token and the `access_token` cookie; a refused save answers 500 with the store unchanged |
| AuthController.Signin | api/controllers/auth.controller.js:57-100 | an unknown email and a wrong password both answer the same 400 `Invalid email or password` without a token; a missing password answers 500; success answers 200 with `{id, name, email, profilePic}` of the stored account, the token and the `access_token` cookie |
| AuthController.GoogleSignIn | api/controllers/auth.controller.js:103-177 | a missing field answers 400; an existing email answers 200 with the stored account's fields, unchanged; a new email adds exactly one account with the synthesised name, the given picture and the hash of the generated password, and answers 201 with the token in the always-secure `token` cookie; a refused save ends in the default handler |
| AuthController.Logout | api/controllers/auth.controller.js:179-187 | always 200, and the only cookie it clears is `access_token` |
| AuthController.SignupFailsOnlyOnTakenName | api/controllers/auth.controller.js:20-28 | with all fields given, a new email and a non-empty hash, the save fails only for a taken name, and exactly then |
| AuthController.SignupThenSignin | api/controllers/auth.controller.js:5-100 | after a successful sign-up, signing in with the same email and password succeeds for that account and returns a token that verifies to its id and email |
| AuthController.SignupTwice | api/controllers/auth.controller.js:15-18 | after a successful sign-up, a second one with the same email answers 400 `User already exists` and adds nothing |
| UserController.UpdateProfilePic | api/controllers/user.controller.js:6-19 | without `req.user` the handler throws before any lookup, leaving the store unchanged; with one, an unknown account answers 404, otherwise only its picture changes and the reply carries the whole updated record |
| UserController.Overwrite | api/controllers/user.controller.js:36-42 | a truthy name, email or picture replaces the stored one, and a truthy password is stored as its hash; the id and every omitted or empty field keep their values |
| UserController.UpdateFailsOnlyOnDuplicate | api/controllers/user.controller.js:36-45 | starting from a complete record with a non-empty hash, the save after the assignments can fail only on a unique index |
| UserController.UpdateUser | api/controllers/user.controller.js:22-60 | an unknown id answers 404 and a refused save answers 500, both with the store unchanged; otherwise exactly that record is replaced by its overwritten version and the reply shows it without the password; the caller is not consulted |
| UserController.DeleteUser | api/controllers/user.controller.js:62-78 | a caller other than `:id` gets 403 before any lookup; an unknown id gets 404; otherwise exactly that record is removed and the reply is 200; the store changes only in the last case |
| UserController.DeleteRemovesExactlyOne | api/controllers/user.controller.js:69-74 | after the removal no account has the id, every other account is still present, and the count drops by one |
| UserController.GetUserListings | api/controllers/user.controller.js:80-96 | a non-owner gets 403; the owner gets 200 with the stored listings filtered by owner (`Store.OwnedBy`: every and only the owner's listings, in stored order), possibly none; nothing is changed |
| Session.CookieGet | client/src/redux/user/userSlice.js:4 | the cookie's text, or nothing exactly when the cookie is absent |
| Session.JsonView | client/src/redux/user/userSlice.js:32 | serialising keeps every property read and drops only the `undefined` ones |
| Session.RestoredToken | client/src/redux/user/userSlice.js:8 | the saved user's token when truthy, else a non-empty `token` cookie, else `null` |
| Session.InitialState | client/src/redux/user/userSlice.js:4-11 | loading fails exactly when the `currentUser` cookie is non-empty and does not parse; otherwise the user is the parsed cookie or `null`, the token is restored as above, `isLoading` is false and `error` is `null` |
| Session.WithToken | client/src/redux/user/userSlice.js:22-25 | the user's properties with `token` set to the payload's token |
| Session.Merged | client/src/redux/user/userSlice.js:50-56 | payload properties win, the current user's other properties are kept, and the token is the payload's when truthy, else the current user's |
| Session.SignInCookies | client/src/redux/user/userSlice.js:32-33 | both cookies are written for thirty days and every other cookie is kept |
| Session.SignOutCookies | client/src/redux/user/userSlice.js:43-44 | both cookies are removed and every other cookie is kept |
| Session.UserSlice.constructor | client/src/redux/user/userSlice.js:4-15 | the slice starts in the initial state read from the cookies |
| Session.UserSlice.SignInStart | client/src/redux/user/userSlice.js:17-20 | `isLoading` true and `error` null; user, token and cookies unchanged |
| Session.UserSlice.SignInSuccess | client/src/redux/user/userSlice.js:21-34 | the user is the payload user with the payload token, `token` is that token, so the two agree; not loading, no error; both cookies written for thirty days |
| Session.UserSlice.SignInFailure | client/src/redux/user/userSlice.js:35-38 | `isLoading` false and `error` is the payload; user, token and cookies unchanged |
| Session.UserSlice.SignOut | client/src/redux/user/userSlice.js:39-45 | user and token null and both cookies removed; `isLoading` and `error` unchanged |
| Session.UserSlice.UpdateUserStart | client/src/redux/user/userSlice.js:46-48 | only `isLoading` changes, to true |
| Session.UserSlice.UpdateUserSuccess | client/src/redux/user/userSlice.js:49-63 | the user is the merged user; not loading, no error; `token` unchanged and only the `currentUser` cookie rewritten |
| Session.UserSlice.UpdateUserFailure | client/src/redux/user/userSlice.js:64-67 | `isLoading` false and `error` is the payload; user, token and cookies unchanged |
| Session.UserSlice.DeleteUserStart | client/src/redux/user/userSlice.js:68-70 | only `isLoading` changes, to true |
| Session.UserSlice.DeleteUserSuccess | client/src/redux/user/userSlice.js:71-79 | all four fields reset and both cookies removed |
| Session.UserSlice.DeleteUserFailure | client/src/redux/user/userSlice.js:80-83 | `isLoading` false and `error` is the payload; user, token and cookies unchanged |
| Session.ReloadAfterSignIn | client/src/redux/user/userSlice.js:21-34 | reloading after a sign-in restores the user as serialised and the token; an empty token comes back as `null` |
| Session.ReloadAfterSignOut | client/src/redux/user/userSlice.js:39-45 | reloading after a sign-out or a deletion gives the signed-out state |
| Session.ReloadAfterUpdate | client/src/redux/user/userSlice.js:49-63 | reloading after an update restores the merged user, with the token taken from it when truthy, else from the `token` cookie |
| Session.UpdatedTokenOnlyInCookie | client/src/redux/user/userSlice.js:49-63 | after a sign-in with token `a` and an update carrying token `b`, a reload holds `b` although the slice kept `a` |
| Session.PartialSessionOnLoad | client/src/redux/user/userSlice.js:8 | a `token` cookie without a `currentUser` cookie gives a session with a token and no user |

## Left out

- **Infrastructure outside the model.** Database connections, network failures and every other persistence error besides the schema's `required` and `unique` checks are not modelled. Without them, the 500 answers of the `catch` blocks happen only on a refused save.
- **Request ids.** ObjectId strings are modelled as natural numbers. So a malformed `:id`, which mongoose rejects with a cast error, is not modelled.
- **Body value types.** Request-body fields are strings or absent. Numbers, objects and the other JSON values a client could send are not modelled.
- **Library internals.** bcrypt's salt and work factor, and the JWT encoding, secret and clock, are not modelled. Token expiry shows only as `verify` yielding nothing.
- **Cookie attributes.** `httpOnly` and `sameSite` are not recorded. `secure` is recorded but not given a meaning, and no cookie ever expires in the model.
- **Response and handler details.** Neither `console.log` output nor `populate('userRef', …)` of the listings is modelled.
- **Unreachable handler branches.**
  - The 404 `No listings found` branch of `getUserListings` is unreachable, because `find` always yields an array.
  - The 500 branch of `updateProfilePic` needs a persistence failure.
- **The unused flag.** The `updated` flag of `updateUser` is never read, so there is nothing to model.
- **Concurrency.** Requests are taken one at a time. Two sign-ups racing past the email check are not modelled.
- **The unhandled-failure status.** How the framework answers a rejected handler promise depends on its version. The model takes the default handler's 500.
- Crypto.Issue: the issue time (`iat`) that `jwt.sign` embeds is not modelled, so two tokens issued for one account are equal in the model, where the source's generally differ.
- **Random values.** `Math.random` strings enter `googleSignIn` as parameters. Their format is not modelled.
- **Package versions.** `UserController.UpdateProfilePic` and `Store.Database.FindByIdAndUpdatePic` drop an absent picture from the update, as current mongoose does. Older versions that write `null` are not modelled.
- Session.InitialState: a `currentUser` cookie whose text is valid JSON but not an object is treated like text that does not parse.
- Session.UserSlice.SignInSuccess: the payload token is a string, as the server always sends one. How `js-cookie` writes other values is not modelled.
- SignUpForm.ValidateInputs: the password length counts Unicode scalar values, while the regular expression counts UTF-16 code units. A password of three characters outside the Basic Multilingual Plane passes in the browser but not in the model.
- Strings.LowerAscii: only ASCII capitals are lowered. `toLowerCase` also maps other scripts.
- **Other code.** The client pages, the Firebase and OAuth glue, the header and route guard components, the listing controller and the server wiring are not part of this model. The only part of them the model records is the missing guard on the picture route.
