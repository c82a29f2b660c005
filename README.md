# Registration and login gate, modelled in Dafny

The application is a client-side React site with no backend. Its only logic is
the registration page's submit handler and the profile page's login gate:

- the registration page lets the user pick a profile picture, shows the picked
  file's name (cut to 25 characters), and on submit uploads the picture to an
  image host, checks the password against
  `/^(?=.*[A-Z])(?=.*[\W_]).{6,}$/`, stores the new user and a login flag in
  `localStorage`, and goes to the profile route `/`;
- the profile page reads `login-status` from `localStorage` and shows either a
  login prompt or the current user's name and email.

The model:

- `EcmaRegex` (`ecma_regex.dfy`) gives the meaning of the regular-expression
  constructs the password pattern uses, following section 22.2 of ECMA-262:
  `.` refuses the four line terminators; `\W` is the complement of
  `[A-Za-z0-9_]` (no `u` or `i` flag); `^` and `$` anchor to the whole input
  (no `m` flag); `RegExp.prototype.test` tries every start index. A match is
  described by the set of positions where it can end, which decides `test`
  exactly for a pattern without captures.
- `PasswordPolicy` (`password_policy.dfy`) writes the pattern as a value of
  that syntax and proves it equal to a character-level rule: at least six
  characters, no line terminator, an ASCII capital, and a character outside
  `[A-Za-z0-9]`.
- `WebStorage` (`web_storage.dfy`) is the origin's storage as a map from keys
  to values, with `getItem` and `setItem` (section 12 of the WHATWG HTML
  Standard). The user record's JSON text is kept abstract.
- `Registration` (`registration.dfy`) holds the page. `SignUpEffects` lists,
  in order, the actions one submit takes, given the selected picture, the
  upload's outcome (`Failure`, `EmptyBody`, or `Url` with the display URL when the body has one) and the form's values.
  `Run` gives the state those actions leave. The class `RegistrationPage`
  has the React state (`selectedImage`, `selectedImageName`,
  `passwordErrorMessage`), the storage, the navigation target and the log of
  actions. `HandleSignUp` and `HandleImageInput` update them in place.
  `HandleSignUp` is proved to take exactly the actions `SignUpEffects` lists,
  and the lemmas about `SignUpEffects` state what a submit does.
- `UserDetails` (`user_details.dfy`) is the profile page as a function of
  the storage and of the record the current-user hook returns.

## Model

| member | source | states |
|---|---|---|
| `PasswordPolicy.PatternMatchesPolicy` | src/Pages/Registration/Registration.jsx:62-66 | the regular expression accepts a password iff it has at least 6 characters, no line terminator, an ASCII capital and a character outside `[A-Za-z0-9]` |
| `PasswordPolicy.IsValidPassword` | src/Pages/Registration/Registration.jsx:62-66 | the character-level rule; in a password it accepts, the capital and the character outside `[A-Za-z0-9]` are two different characters |
| `PasswordPolicy.SpecialIsNonAlphanumeric` | src/Pages/Registration/Registration.jsx:62 | `[\W_]` without the `u` flag is exactly the set of characters outside `[A-Za-z0-9]` |
| `PasswordPolicy.AcceptedExample` | src/Pages/Registration/Registration.jsx:62-66 | "Abc!23" passes the pattern |
| `PasswordPolicy.RejectedExamples` | src/Pages/Registration/Registration.jsx:62-66 | "abc123" (no capital, no special character), "Abcde" and "Ab!cd" (five characters) fail the pattern |
| `EcmaRegex.Ends` | src/Pages/Registration/Registration.jsx:62 | a match that starts at a position ends between that position and the end of the input; a lookahead or an anchor consumes nothing |
| `EcmaRegex.Test` | src/Pages/Registration/Registration.jsx:66 | `test` without the `g` or `y` flag succeeds iff a match starts at some index from 0 to the input's length, that length included: `$` alone matches every input, the empty one too |
| `EcmaRegex.AnchoredTest` | src/Pages/Registration/Registration.jsx:66 | `test` on a pattern that starts with `^` succeeds iff the rest matches from index 0 |
| `WebStorage.GetItem` | src/Pages/UserDetails/UserDetails.jsx:7 | `getItem` gives nothing exactly when the key is absent, and otherwise the value stored under it |
| `WebStorage.SetItem` | src/Pages/Registration/Registration.jsx:75-79 | after `setItem`, the key holds the new value and every other key holds what it held before |
| `WebStorage.BooleanToString` | src/Pages/Registration/Registration.jsx:78-79 | the boolean `true` handed to `setItem` is stored as the string "true", a non-empty string |
| `WebStorage.SetItemIdempotent` | src/Pages/Registration/Registration.jsx:75 | writing the same value twice leaves storage as one write does |
| `WebStorage.SetItemOverwrites` | src/Pages/Registration/Registration.jsx:75 | a second write to a key hides the first entirely |
| `Registration.FileLabel` | src/Pages/Registration/Registration.jsx:148 | the label is never empty and has at most 29 characters; a name of 1 to 25 characters is shown whole; a longer one is shown as its first 25 characters then "...."; an empty name shows "Choose your profile picture" |
| `Registration.LongNamesShareLabel` | src/Pages/Registration/Registration.jsx:148 | names longer than 25 characters that share their first 25 characters get the same label |
| `Registration.NewUser` | src/Pages/Registration/Registration.jsx:72 | the record takes the form's name, email, phone and password unchanged, with the display URL as `photo` (absent when the body has none); nothing of the form is dropped |
| `Registration.SignUpEffects` | src/Pages/Registration/Registration.jsx:46-88 | a submit takes no action iff no picture is selected; when it acts, its first action is posting the selected picture |
| `Registration.ResponseEffects` | src/Pages/Registration/Registration.jsx:52-88 | the callbacks take no action iff the body is empty; a failed upload shows the error toast and nothing else; a response with `data.data` first clears the password message |
| `Registration.ResponseWrites` | src/Pages/Registration/Registration.jsx:53-83 | after the upload settles, storage is written only when the response carries `data.data` and the pattern accepts the password; navigation to "/" happens exactly then |
| `Registration.ResponseMessages` | src/Pages/Registration/Registration.jsx:63-88 | the error toast is shown iff the upload failed; the fixed error message is set iff the response carries `data.data` and the pattern refuses the password |
| `Registration.RunKeepsSelection` | src/Pages/Registration/Registration.jsx:42-90 | no action of the submit handler changes the selected picture or its name |
| `Registration.RunKeepsUnwrittenKey` | src/Pages/Registration/Registration.jsx:75-79 | a storage key that no action writes keeps its entry |
| `Registration.SignUpWithoutImage` | src/Pages/Registration/Registration.jsx:46 | with no picture selected, a submit takes no action: no upload, no message change, no storage write, no navigation |
| `Registration.SignUpUploadNotOk` | src/Pages/Registration/Registration.jsx:52-88 | when the upload fails or returns no body, the picture is posted first and then nothing else changes, whatever the password; the error toast is shown iff the upload failed |
| `Registration.SignUpRejected` | src/Pages/Registration/Registration.jsx:63-69 | a password the rule refuses sets the fixed error message and changes nothing else: no storage write, no navigation |
| `Registration.SignUpAccepted` | src/Pages/Registration/Registration.jsx:63-83 | a password the rule accepts clears the message, stores {name, email, photo, phone, password} with the display URL as photo (no photo when the response lacks `display_url`) under `user-data` and "true" under `login-status`, whatever they held, navigates to "/" and shows the success toast |
| `Registration.SignUpWritesOnlySessionKeys` | src/Pages/Registration/Registration.jsx:75-79 | a submit changes no storage key other than `user-data` and `login-status` |
| `Registration.SignUpInSourceOrder` | src/Pages/Registration/Registration.jsx:46-88 | the upload is the first action of any submit that acts at all; then come the message, the record, the login flag, the toast and the navigation, in that order |
| `Registration.SecondSignUpOverwrites` | src/Pages/Registration/Registration.jsx:72-79 | after two successful registrations only the second user is stored, and the flag is still "true" |
| `Registration.RegistrationPage.constructor` | src/Pages/Registration/Registration.jsx:20-23 | a new page has no picture, an empty name, no message, no navigation, and the storage it was given |
| `Registration.RegistrationPage.HandleImageInput` | src/Pages/Registration/Registration.jsx:27-39 | a non-empty file list selects the first file and shows its name; an empty list clears only the name and keeps the picture; nothing else changes |
| `Registration.RegistrationPage.HandleSignUp` | src/Pages/Registration/Registration.jsx:42-90 | the handler takes exactly the actions `SignUpEffects` lists, in that order, and leaves the state they produce |
| `Registration.RegistrationPage.HandleResponse` | src/Pages/Registration/Registration.jsx:52-88 | the `.then` and `.catch` callbacks take exactly the actions `ResponseEffects` lists and leave the state they produce |
| `Registration.RegistrationPage.HandleUploaded` | src/Pages/Registration/Registration.jsx:53-83 | the branch for a response with a body takes exactly the actions `ResponseEffects` lists for it and leaves the state they produce |
| `Registration.RegistrationPage.StoreUser` | src/Pages/Registration/Registration.jsx:72-83 | the accepted-password branch writes the record and then "true", shows the success toast and navigates to "/", changing nothing else |
| `Registration.RegistrationPage.PostImage` | src/Pages/Registration/Registration.jsx:47-51 | posting the picture changes no page state and is logged |
| `Registration.RegistrationPage.SetPasswordErrorMessage` | src/Pages/Registration/Registration.jsx:63-67 | the setter replaces only the password message, and is logged |
| `Registration.RegistrationPage.ShowToast` | src/Pages/Registration/Registration.jsx:82-88 | a toast changes no page state and is logged with its kind |
| `Registration.RegistrationPage.SetItem` | src/Pages/Registration/Registration.jsx:75 | `localStorage.setItem` changes only the storage, and is logged |
| `Registration.RegistrationPage.Navigate` | src/Pages/Registration/Registration.jsx:83 | `navigate` changes only the navigation target, and is logged |
| `Registration.HappyPathScenario` | src/Pages/Registration/Registration.jsx:42-90 | picture selected, upload returns "https://img/1.png", password "Abc!23": the record for Ann is stored, the flag is "true", no message, navigation to "/" |
| `Registration.MissingDisplayUrlScenario` | src/Pages/Registration/Registration.jsx:54-83 | the same with a response body whose `data.data` has no `display_url`: the record is stored without a photo, the flag is "true", navigation to "/" |
| `Registration.RejectedPasswordScenario` | src/Pages/Registration/Registration.jsx:66-69 | the same with password "abc123": storage unchanged, the fixed message shown, no navigation |
| `Registration.UploadFailureScenario` | src/Pages/Registration/Registration.jsx:88 | a failed upload with any password: storage unchanged, no message, no navigation, an error toast |
| `Registration.CancelledPickerScenario` | src/Pages/Registration/Registration.jsx:30-38 | choosing a file and then an empty file list shows the prompt label, yet the next submit still uploads the first file |
| `UserDetails.Render` | src/Pages/UserDetails/UserDetails.jsx:7-33 | the login prompt is shown iff `login-status` is absent or the empty string; otherwise the profile shows the hook's name and email, blank when the record is missing |
| `UserDetails.Shown` | src/Pages/UserDetails/UserDetails.jsx:29-30 | optional chaining: a missing record or property renders as ""; any non-empty text shown is the record's value for that property |
| `UserDetails.IsTruthy` | src/Pages/UserDetails/UserDetails.jsx:21 | a stored item is truthy iff it is present and not the empty string |
| `UserDetails.AbsentStatusShowsPrompt` | src/Pages/UserDetails/UserDetails.jsx:7-25 | with nothing stored under `login-status`, the login prompt is shown |
| `UserDetails.GateIsTruthiness` | src/Pages/UserDetails/UserDetails.jsx:21 | a stored "false" opens the profile as "true" does; an empty string shows the prompt |
| `UserDetails.ProfileShowsOnlyNameAndEmail` | src/Pages/UserDetails/UserDetails.jsx:29-30 | two user records that agree on name and email render alike: phone, photo and password never reach the page |
| `UserDetails.RegistrationOpensGate` | src/Pages/UserDetails/UserDetails.jsx:21 | after a successful registration the profile page shows the profile branch, whatever storage held before |

## Left out

- The POST to the image host, the API key and the endpoint URL: network I/O. Only the outcome is modelled, as an input of the submit handler.
- A response without `data.data` throws a TypeError at Registration.jsx:54, which the `.catch` handles; it is folded into `Failure`. Other exceptions inside the `.then` callback (a full storage, for one) would reach the same `.catch`; they are not modelled.
- Promises and asynchrony: the upload's outcome is applied within the same call. Duplicate submissions in flight at once (the button is never disabled) are not modelled.
- React's batching of state updates: every setter is applied at once, in order.
- The form's field values are read when the upload resolves; they are an input of the handler.
- `JSON.stringify`: the stored record is kept abstract as `Serialized(record)`. Distinct records are distinct values, and the text is taken to be non-empty. A record with no photo stands for JSON that omits the `photo` property, as `JSON.stringify` drops `undefined`.
- `StoredValue` tells `Text` from `Serialized`, yet `localStorage` holds only strings: a `Text` spelling out a record's JSON is a different value here from that record's `Serialized`, though the browser would store the same string.
- Files are identified by name only: their contents, size and type never reach the handler's logic, only the upload request.
- Characters: a Dafny `char` is one Unicode scalar value, which is one element of the JavaScript string for characters in the Basic Multilingual Plane. A character outside it is two UTF-16 code units in JavaScript but one `char` here, and a lone surrogate cannot be written as a `char` at all, so lengths, `.{6,}` and `slice(0, 25)` differ for names and passwords holding either.
- The regular-expression model covers only the constructs the password pattern uses: character classes, `{n,}` and `*` on a single class, concatenation, positive lookahead, and the `^` and `$` anchors without flags.
- Toasts are recorded as a success or error tag; their text, `Toaster`, `Link`, icons, markup and the show-password toggle are UI.
- The browser's constraint validation of the `required` and `type="email"` inputs: the handler accepts any field values.
- `useCurrentUserDetails` is not part of this model: its record is an input of the profile page, as an optional map from property name to string.
- `console.log` in the profile page; the route table in src/Routes/router.jsx.
- `e.preventDefault()` in both handlers: it only stops the browser's default action.

The profile gate tests string truthiness, so a stored "false" opens it. An
upload that resolves with an empty body stops silently, with no error toast. A
response whose `data.data` has no `display_url` still registers the user, with
no photo in the stored record.
