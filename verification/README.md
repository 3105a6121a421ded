# Lost-and-Found client: registration checks, location selects and home listing

This project models, in Dafny, the sequential logic of the Lost-and-Found web client.
The rest of the client is page markup. Three pieces are modelled:

- **Registration** (`Registration.jsx`):
  - the ordered client-side checks of `handleSignUp`: passwords match, all eleven fields present, email shape, password strength;
  - the image-size gate of `handleImageUpload`;
  - the create-account → update-display-name → save-profile chain that follows a passing form, with its error messages.
- **Cascading location selects** (`Registration.jsx`): the division → zilla → upzilla selects, as a state record (`Location.Selector`) with two transitions over an immutable location table.
- **Home listing** (`Home.jsx`):
  - the default listing: the lost and found feeds merged and stably sorted newest first;
  - routing of a search to the lost or found endpoint, and the query it sends;
  - how each response updates the page state (`Home.HomeState`);
  - which list is displayed.

Modules:

| file | module | models |
|---|---|---|
| common.dfy | `Common` | `Option`, and a fetch outcome `Response` (`Ok(data)` / `Failed`) |
| lookup.dfy | `Lookup` | `Array.prototype.find` as "index of the first match" |
| credentials.dfy | `Credentials` | the email and password regular expressions |
| validation.dfy | `Validation` | the form record and the ordered chain of checks |
| signup.dfy | `SignUp` | image gate; submission as an ordered trace of effects |
| location.dfy | `Location` | the cascading selects |
| posts.dfy | `Posts` | item reports; stable newest-first insertion sort |
| home.dfy | `Home` | default listing, search request and response, displayed list |

Each regular expression is modelled twice:

- a ghost predicate that follows its structure. For the email, this is three `[^\s@]+` runs around `@` and `.`. For the password, it is four `(?=.*X)` lookaheads, whose `.` stops at line terminators, followed by `{8,}` permitted characters.
- a compilable characterisation that the validator uses.

An iff lemma proves that the two agree on every string. `\s` is the ECMAScript set: tab, LF, VT, FF, CR, the Unicode space separators, U+2028, U+2029 and U+FEFF. `\d` is `[0-9]` in ECMAScript.

Network and identity-provider outcomes are inputs:

- `CreateResult`: `Created(uid)` or `CreateRejected(code, message)`;
- `UpdateResult`;
- `SaveResult`: `SaveReplied(success, message)` or `SaveError`;
- `Response`.

A submission is a function from the form and these outcomes to the ordered list of effects it produces:

- the submitting flag being set;
- notices shown;
- calls to the identity provider or the backend;
- sign-out;
- navigation.

Points of the code's behaviour that are easy to misread:

- An empty search result does not empty the display. Home.jsx:174 shows the search results only when they are non-empty and otherwise falls back to the recent posts (`Home.DisplayAfterSearch`).
- Equal creation times are allowed in the merged listing, and such items keep their input order. `Posts.Descending` is non-strict, and stability is proved by `Posts.SortByRecencyStable`.
- Password equality is checked before field presence (Registration.jsx:103-107), so a form with differing passwords reports the mismatch even when fields are empty (`Validation.ValidationOrder`).
- A failed display-name update shows the user nothing (Registration.jsx:213-216). It only lowers the flag, and it leaves a created account with no saved profile (`SignUp.SilentProfileFailure`).
- The size error's text says "smaller than 5MB", but the bound in the code is 10 MiB (`> 10 * 1024 * 1024`). The model keeps the code's bound and the text as written.

## Model

| member | source | states |
|---|---|---|
| Lookup.FirstWhere | Lost-and-found-client/src/Component/Pages/Registration/Registration.jsx:35-37 | the index found is the first element satisfying the test; none is found exactly when no element satisfies it |
| Location.ZillasOf | Lost-and-found-client/src/Component/Pages/Registration/Registration.jsx:35-38 | the result is the zilla list of the first table entry with that division name, or empty when no entry has it |
| Location.UpzillasOf | Lost-and-found-client/src/Component/Pages/Registration/Registration.jsx:46-47 | the result is the upzilla list of the first offered zilla with that name, or empty when none has it |
| Location.ChangeDivision | Lost-and-found-client/src/Component/Pages/Registration/Registration.jsx:28-39 | the division becomes the selection; the chosen zilla becomes "" and the upzilla options are emptied; the zilla options are those of the first matching table entry, or empty |
| Location.ChangeZilla | Lost-and-found-client/src/Component/Pages/Registration/Registration.jsx:41-48 | the zilla becomes the selection; the upzilla options are those of the first offered zilla with that name, or empty; the division and zilla options are unchanged |
| Location.InitialConsistent | Lost-and-found-client/src/Component/Pages/Registration/Registration.jsx:16-19 | the empty start state agrees with the table when no division is unnamed |
| Location.ChangeDivisionConsistent | Lost-and-found-client/src/Component/Pages/Registration/Registration.jsx:28-39 | after a division change, the options offered agree with the selections, from any prior state |
| Location.ChangeZillaConsistent | Lost-and-found-client/src/Component/Pages/Registration/Registration.jsx:41-48 | a zilla change keeps the options in agreement with the selections |
| Location.ChangeDivisionForgetsZilla | Lost-and-found-client/src/Component/Pages/Registration/Registration.jsx:28-39 | re-choosing the same division erases any zilla choice made in between |
| Credentials.EmailAcceptedIffPattern | Lost-and-found-client/src/Component/Pages/Registration/Registration.jsx:127-132 | the email regex matches iff the address has no whitespace, exactly one `@` with a non-empty part before it, and a dot after it that is neither first nor last in the domain |
| Credentials.EmailAcceptedMatchesPattern | Lost-and-found-client/src/Component/Pages/Registration/Registration.jsx:127 | every address meeting the characterisation matches the three-run pattern |
| Credentials.EmailPatternAccepted | Lost-and-found-client/src/Component/Pages/Registration/Registration.jsx:127 | every address matching the three-run pattern meets the characterisation |
| Credentials.PasswordAcceptedIffPattern | Lost-and-found-client/src/Component/Pages/Registration/Registration.jsx:134-136 | the password regex matches iff the length is at least 8, every character is in `[A-Za-z0-9@$!%*?&]`, and there is a lower-case letter, an upper-case letter, a digit and a special character |
| Credentials.LookaheadFindsIffContains | Lost-and-found-client/src/Component/Pages/Registration/Registration.jsx:135 | for a string of permitted characters, a `(?=.*X)` lookahead succeeds iff some character is in X |
| Credentials.DigitlessPasswordRejected | Lost-and-found-client/src/Component/Pages/Registration/Registration.jsx:134-142 | a password without a digit is never accepted |
| Validation.Validate | Lost-and-found-client/src/Component/Pages/Registration/Registration.jsx:103-142 | a form passes exactly when the passwords are equal, all eleven fields are truthy, the email is accepted and the password is accepted |
| Validation.ValidationOrder | Lost-and-found-client/src/Component/Pages/Registration/Registration.jsx:103-142 | the verdict is Mismatch iff the passwords differ; otherwise Missing iff a field is empty; otherwise BadEmail iff the email regex fails; otherwise WeakPassword iff the password regex fails; Pass iff all four checks hold |
| Validation.MissingBeforeFormat | Lost-and-found-client/src/Component/Pages/Registration/Registration.jsx:109-125 | with matching passwords, a null image, empty email or empty village gives Missing before any format check |
| Validation.DigitlessPasswordFails | Lost-and-found-client/src/Component/Pages/Registration/Registration.jsx:134-142 | a form whose password has no digit never passes validation |
| SignUp.UploadImage | Lost-and-found-client/src/Component/Pages/Registration/Registration.jsx:50-72 | no file changes nothing; a file shows the size-error dialog iff its size exceeds 10485760 bytes, and then the submitting flag is cleared and the old preview kept; any other file becomes the preview |
| SignUp.TenMiBBoundary | Lost-and-found-client/src/Component/Pages/Registration/Registration.jsx:55 | a file of exactly 10 MiB is accepted and one of 10 MiB + 1 byte is rejected |
| SignUp.Render | Lost-and-found-client/src/Component/Pages/Registration/Registration.jsx:104-226 | definitional: the exact texts of the alerts and dialogs (lines 104, 122, 129, 137-139, 182-183, 196-197, 206-207, 221-222, 226); its contract states that the client-side checks and the generic creation error are browser alerts and all others titled dialogs, that a backend refusal shows the backend's message, and that the generic creation alert ends with the error's message |
| SignUp.Payload | Lost-and-found-client/src/Component/Pages/Registration/Registration.jsx:155-168 | the posted record carries the new account's uid as `firebase_uid` and all eleven form fields: the form can be read back from it unchanged |
| SignUp.Respond | Lost-and-found-client/src/Component/Pages/Registration/Registration.jsx:75-229 | for a form whose checks gave a verdict, the flag is raised first and is down once everything has settled |
| SignUp.AfterCreate | Lost-and-found-client/src/Component/Pages/Registration/Registration.jsx:146-229 | after account creation the flag ends down; a rejection makes no further call and shows the notice chosen from the error code; a created account is renamed before anything else is called |
| SignUp.Submit | Lost-and-found-client/src/Component/Pages/Registration/Registration.jsx:75-229 | a submission first sets the submitting flag; on every path, validation failure or any chain outcome, the flag is false once it settles |
| SignUp.SubmitFollowsChain | Lost-and-found-client/src/Component/Pages/Registration/Registration.jsx:103-229 | the external calls form a prefix of create → update profile → save → sign-out: empty for an invalid form, and each further call only after the previous one succeeded |
| SignUp.AfterCreateFollowsChain | Lost-and-found-client/src/Component/Pages/Registration/Registration.jsx:147-217 | after account creation, the calls continue along the chain exactly as far as the outcomes allow |
| SignUp.AfterSave | Lost-and-found-client/src/Component/Pages/Registration/Registration.jsx:178-211 | after the save settles, the flag is lowered on every outcome, and sign-out is the only call, made iff the backend replied with success |
| SignUp.AfterSaveOutcome | Lost-and-found-client/src/Component/Pages/Registration/Registration.jsx:178-211 | after the save, exactly one dialog is shown, and it comes first: "registered" on a success reply, the backend's own message on a refusal, the generic error when the request or its reply fails; the confirmation page is shown iff the reply is a success, as the last step |
| SignUp.NavigatesIffRegistered | Lost-and-found-client/src/Component/Pages/Registration/Registration.jsx:103-193 | the confirmation page is reached iff every check passed, the account was created and renamed, and the backend replied with success |
| SignUp.SaveOutcomeNotice | Lost-and-found-client/src/Component/Pages/Registration/Registration.jsx:178-210 | once the account exists and is renamed, the success dialog is shown iff the backend reports success; a refusal shows the backend's message, a failed request or reply the generic error |
| SignUp.AfterUpdate | Lost-and-found-client/src/Component/Pages/Registration/Registration.jsx:150-216 | a failed display-name update makes no further call, shows nothing and lowers the flag; a successful one saves the payload and signs out only after a successful save |
| SignUp.InvalidFormMakesNoCall | Lost-and-found-client/src/Component/Pages/Registration/Registration.jsx:103-142 | a form failing any check makes no call to the identity provider or the backend, and the alert for that check is the only notice shown |
| SignUp.CreateIffValid | Lost-and-found-client/src/Component/Pages/Registration/Registration.jsx:103-146 | `createUser` is called iff all four checks pass |
| SignUp.SubmitNotices | Lost-and-found-client/src/Component/Pages/Registration/Registration.jsx:103-229 | for every form and every outcome, the notices shown are, in order, exactly: the failed check's alert; or the creation error chosen by its code; or nothing after a failed display-name update; or the one dialog for the save's outcome |
| SignUp.RegisteredIffSaved | Lost-and-found-client/src/Component/Pages/Registration/Registration.jsx:103-193 | "User Registered Successfully" is shown iff every check passed, the account was created and renamed, and the backend replied with success |
| SignUp.SilentProfileFailure | Lost-and-found-client/src/Component/Pages/Registration/Registration.jsx:150-216 | when the display-name update fails after the account was created, nothing is shown and no profile is saved |
| SignUp.SaveOnlyAfterBothSteps | Lost-and-found-client/src/Component/Pages/Registration/Registration.jsx:146-177 | a profile is posted only when the form passed, the account was created and the profile was updated; its payload carries `firebase_uid` equal to the new uid |
| SignUp.SaveReachedWhenBothSucceed | Lost-and-found-client/src/Component/Pages/Registration/Registration.jsx:146-177 | a passing form whose account creation and profile update succeed does post its profile |
| SignUp.CreateFailureNotice | Lost-and-found-client/src/Component/Pages/Registration/Registration.jsx:218-227 | the "already registered" notice is chosen iff the error code is `auth/email-already-in-use` |
| SignUp.CreateErrorMapping | Lost-and-found-client/src/Component/Pages/Registration/Registration.jsx:218-229 | after a rejected account creation the "already registered" dialog is shown iff the code is `auth/email-already-in-use`, and otherwise the generic alert with the error message is shown |
| Posts.Insert | Lost-and-found-client/src/Component/Pages/Home/Home.jsx:30-32 | insertion adds exactly the one item, as a multiset |
| Posts.SortByRecency | Lost-and-found-client/src/Component/Pages/Home/Home.jsx:30-32 | the result is a permutation of the input, and its creation times never increase |
| Posts.InsertDescending | Lost-and-found-client/src/Component/Pages/Home/Home.jsx:30-32 | inserting into a newest-first list keeps it newest first |
| Posts.InsertCreatedAt | Lost-and-found-client/src/Component/Pages/Home/Home.jsx:30-32 | an inserted item goes in front of the items of its own time that were already placed |
| Posts.SortByRecencyStable | Lost-and-found-client/src/Component/Pages/Home/Home.jsx:30-32 | the sort is stable: for every timestamp, the items with that timestamp keep their input order |
| Posts.MergeRecent | Lost-and-found-client/src/Component/Pages/Home/Home.jsx:28-32 | the merged listing is a permutation of lost ++ found, newest first |
| Posts.MergeRecentTies | Lost-and-found-client/src/Component/Pages/Home/Home.jsx:28-32 | among items with equal creation time, the lost items come before the found ones, each feed in its own order |
| Home.LoadRecent | Lost-and-found-client/src/Component/Pages/Home/Home.jsx:19-41 | when both feeds answer, recentPosts becomes a newest-first permutation of both feeds; otherwise the state is unchanged; searchResults is never changed |
| Home.LoadRecentStable | Lost-and-found-client/src/Component/Pages/Home/Home.jsx:24-34 | in the loaded listing, ties keep the lost items first, each feed in its own order |
| Home.Route | Lost-and-found-client/src/Component/Pages/Home/Home.jsx:52-58 | the lost endpoint is chosen iff the type value is empty or "lost"; every other value chooses the found endpoint |
| Home.SearchRequest | Lost-and-found-client/src/Component/Pages/Home/Home.jsx:46-58 | the request goes to the endpoint chosen by the type value |
| Home.SearchQueryShape | Lost-and-found-client/src/Component/Pages/Home/Home.jsx:46-53 | the query keys are exactly category, possibleLocation, possibleDate, in that order, and each carries its form field |
| Home.SearchTargetsOneCollection | Lost-and-found-client/src/Component/Pages/Home/Home.jsx:55-58 | a search has a single target path, `/posts/found/search` unless the type is empty or "lost"; the two paths differ |
| Home.ApplySearch | Lost-and-found-client/src/Component/Pages/Home/Home.jsx:60-83 | a successful search sets searchResults to the returned items, with "No results found" iff they are empty; a failed search leaves the state unchanged and says nothing; recentPosts is never changed |
| Home.Displayed | Lost-and-found-client/src/Component/Pages/Home/Home.jsx:174 | the displayed list is the search results or the recent posts: the search results when non-empty, and empty only when both are |
| Home.DisplayAfterSearch | Lost-and-found-client/src/Component/Pages/Home/Home.jsx:63-77 | after an empty successful search, the recent posts are displayed; after a non-empty one, exactly the returned items are |

## Left out

- `Details.jsx`: a fixed sample page with no logic.
- The browser's form validation and the disabled submit button. The model is the submit handler `handleSignUp` run on the form's values. In the page, the `required` attributes (Registration.jsx:266, 283, 300, 317, 332, 353, 372, 413, 437), the `type="email"` input (297) and `disabled={isSubmitting}` (479) decide whether the handler runs at all, so there "All fields are required" can only come from the village or the image.
- Rendering, styling and some UI-only state. This covers the password-visibility toggles, the date input's text/date type swap, and the `itemType` state of the search select. The search handler reads the select's value from the form (`SearchForm.itemType`).
- `fetch`, the identity-provider SDK (`createUser`, `updateUserProfile`, `signOut`), SweetAlert, `alert` and `navigate`. These are external. Their outcomes are inputs, and calling or showing them is recorded as an effect.
- The backend base URL, which comes from the environment configuration. Requests carry only the endpoint path.
- Percent-encoding of the search query by `URLSearchParams`, which is application/x-www-form-urlencoded serialisation (section 5.2 of the WHATWG URL Standard). The query is kept as ordered key/value pairs.
- The browser's `FileReader`. Its data URL is an input (`ImageFile.dataUrl`), and the asynchronous `onloadend` is taken to have completed successfully (after a failed read it would set the preview to null).
- Parsing of `createdAt` strings with `new Date`, and the comparator's behaviour on invalid dates. `createdAt` is an integer timestamp.
- The contents of `bdLocation.json`. The location table is a parameter.
- Event-loop interleaving and the lack of cancellation on unmount. The default listing issues its two requests one after the other, and a thrown first request skips the second. Both cases reduce to the outcome `Failed`.
- `console.log`/`console.error` output, and the `person` comma expression, which is only logged.
- SignUp.Render: the success dialog's body is HTML (a styled paragraph); only its text is kept. Icons, styling classes and the `draggable` option of the dialogs are not modelled.
