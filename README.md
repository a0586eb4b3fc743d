# Camp check-in dashboard: participant management, modelled in Dafny

The administrator's dashboard of the camp check-in application lists the registered
participants, narrows the list with filters, marks people as checked out, and adds or edits
participants through a validated form. Checking in happens on the QR scanner page, which is not
part of this model. This project models that logic and proves what it
guarantees.

- **People** (`people.dfy`): the participant record (`User`). It also carries the optional
  `manager_id` and `document_url` columns, which the dashboard reads.
- **JsText** (`js_text.dfy`): the JavaScript string operations the page relies on:
  - `String.prototype.trim` with the ECMAScript whitespace set;
  - `includes`;
  - `String(n)` for integers;
  - `Number(s)` for decimal integer text.
- **FormValidation** (`form_validation.dfy`): `validateForm`. The ten-field form, the email
  and phone regular expressions written as string predicates, the per-field rules, and the
  field-to-message error map. It is filled by methods in the source's order and is proved
  empty exactly when the form is acceptable.
- **ParticipantQuery** (`query.dfy`): `getActiveFilters` and the body of `fetchUsers`.
  - The filters sent to `get_all_people`.
  - The client-side age-group filter.
  - The stable newest-first sort.
  - The distinct non-empty manager ids.
  - The id-to-name table built from the managers' rows.
  - What the roster and the name table become after a fetch that succeeds, returns a
    non-array, or throws.
- **Roster** (`roster.dfy`): the `update_person` arguments for check-in and check-out, the
  check-out guard, and the local rewrite of the roster after a successful update. It also
  proves that the guard is what keeps "checked out implies checked in" true.
- **Submission** (`submission.dfy`): the form filled from a clicked row, and the arguments
  of `update_person` (edit) and `add_person` (add).
- **Dashboard** (`dashboard.dfy`): the page's state variables as the fields of the class
  `DashboardPage`. Each handler is a method that updates exactly the fields it sets.
  - Remote calls are not made. Their outcomes are parameters, and the arguments a handler
    would send are among its results.
  - `handleSubmit` is split at its `await` into `SubmitStart` (up to the call) and
    `SubmitFailed` / `SubmitSucceeded` (after it).

## Model

| member | source | states |
|---|---|---|
| JsText.TrimShape | src/app/dashboard/page.tsx:301-345 | trimming never lengthens a string; the result is empty exactly when the input is all whitespace; a non-empty result neither starts nor ends with whitespace |
| JsText.Trim | src/app/dashboard/page.tsx:301-345 | `String.prototype.trim`; no contract of its own, see `TrimShape` and `TrimSpec` |
| JsText.TrimSpec | src/app/dashboard/page.tsx:301-345 | `Trim(s)` is the one slice of `s` surrounded only by whitespace and without whitespace at either end |
| JsText.TrimIdempotent | src/app/dashboard/page.tsx:321-343 | trimming twice is trimming once |
| JsText.TrimOfSolidEnds | src/app/dashboard/page.tsx:386-395 | a string without whitespace at either end is its own trim |
| JsText.Contains | src/app/dashboard/page.tsx:339 | `includes`: some position of the text holds the whole substring; no contract of its own, used by `TextAccepted` and `NoErrorsIff` |
| JsText.FormatInt | src/app/dashboard/page.tsx:968 | `String(age)` is non-empty, has no whitespace, and starts with `-` exactly for negative numbers |
| JsText.ParseNumber | src/app/dashboard/page.tsx:313-317 | `Number` of blank text is 0 |
| JsText.ParseFormatRoundTrip | src/app/dashboard/page.tsx:383 | `Number(String(n))` is `n` for every integer |
| FormValidation.FormData.With | src/app/dashboard/page.tsx:285 | the named field takes the new value and every other field keeps its value |
| FormValidation.KeyInjective | src/app/dashboard/page.tsx:21-32 | distinct form fields have distinct input names |
| FormValidation.EmailRegex | src/app/dashboard/page.tsx:298 | the email expression as a string predicate; see `EmailRegexIff` |
| FormValidation.PhoneRegex | src/app/dashboard/page.tsx:299 | the phone expression as a string predicate; see `PhoneRegexShape` and `PhoneAccepted` |
| FormValidation.EmailRegexIff | src/app/dashboard/page.tsx:298 | the email expression accepts exactly the strings with no whitespace, exactly one `@` with text before it, and a `.` after the `@` that is neither the first nor the last character after it |
| FormValidation.PhoneRegexShape | src/app/dashboard/page.tsx:299 | an accepted phone number has 7 to 16 characters, contains no whitespace and is its own trim |
| FormValidation.RequiredText | src/app/dashboard/page.tsx:301-311 | a required text field's rule; no contract of its own, see `TextAccepted` |
| FormValidation.AgeError | src/app/dashboard/page.tsx:313-317 | the age rule; no contract of its own, see `AgeMessage` |
| FormValidation.EmailError | src/app/dashboard/page.tsx:319-323 | the email rule; no contract of its own, see `EmailAccepted` |
| FormValidation.PhoneError | src/app/dashboard/page.tsx:325-329 | the phone rule; no contract of its own, see `PhoneAccepted` |
| FormValidation.GenderError | src/app/dashboard/page.tsx:331-333 | the gender rule; no contract of its own, see `TextAccepted` |
| FormValidation.EmergencyContactError | src/app/dashboard/page.tsx:339-341 | the emergency contact rule; no contract of its own, see `TextAccepted` |
| FormValidation.EmergencyPhoneError | src/app/dashboard/page.tsx:343-345 | the emergency phone rule; no contract of its own, see `PhoneAccepted` |
| FormValidation.FormErrors | src/app/dashboard/page.tsx:295-349 | the error map `validateForm` returns; no contract of its own, see `FormErrorsAt`, `NoErrorsIff` and `CollectErrors` |
| FormValidation.ErrorMapAt | src/app/dashboard/page.tsx:296-345 | each field is written at most once, so its entry is exactly its own message and no check overwrites another |
| FormValidation.FormErrorsAt | src/app/dashboard/page.tsx:296-348 | a field is in the returned error map exactly when its rule fires, mapped to that rule's message |
| FormValidation.NoErrorsByField | src/app/dashboard/page.tsx:296-348 | the error map is empty exactly when no field's rule fires |
| FormValidation.CheckRequired | src/app/dashboard/page.tsx:301-311 | a required text field adds its message exactly when it is blank after trimming; the other entries are kept |
| FormValidation.CheckAge | src/app/dashboard/page.tsx:313-317 | the age adds "Age is required" when empty or not a number, "Age must be a positive number" when the number is at most 0, and nothing otherwise |
| FormValidation.CheckEmail | src/app/dashboard/page.tsx:319-323 | the email adds "required" when blank and "invalid" when its trimmed text fails the expression |
| FormValidation.CheckPhone | src/app/dashboard/page.tsx:325-329 | the phone adds "required" when blank and "invalid" when its trimmed text fails the expression |
| FormValidation.CheckGender | src/app/dashboard/page.tsx:331-333 | only an empty gender adds a message |
| FormValidation.CheckEmergencyContact | src/app/dashboard/page.tsx:339-341 | a non-blank emergency contact without " - " adds the format message |
| FormValidation.CheckEmergencyPhone | src/app/dashboard/page.tsx:343-345 | a non-blank emergency phone whose trimmed text fails the phone expression adds "invalid" |
| FormValidation.CollectErrors | src/app/dashboard/page.tsx:295-349 | the record filled field by field, in source order, is the error map of the form |
| FormValidation.NoErrorsIff | src/app/dashboard/page.tsx:301-348 | no error exactly when names, both last names and national id are non-blank, gender is non-empty, age is a positive number, email and phone are well formed, the emergency contact is blank or contains " - ", and the emergency phone is blank or valid |
| FormValidation.FieldsAccepted | src/app/dashboard/page.tsx:301-345 | none of the ten rules fires exactly when the form is acceptable |
| FormValidation.TextAccepted | src/app/dashboard/page.tsx:301-317 | names, last names and national id pass exactly when non-blank; gender exactly when non-empty; age exactly when positive; the emergency contact exactly when blank or containing " - " |
| FormValidation.AgeMessage | src/app/dashboard/page.tsx:313-317 | the age gets a message exactly when it is not acceptable, and only one: "required" exactly when empty or not a number, "positive" exactly when a number |
| FormValidation.PhoneAccepted | src/app/dashboard/page.tsx:325-345 | the main phone passes exactly when its trimmed text matches; the emergency phone exactly when blank or matching |
| FormValidation.EmailAccepted | src/app/dashboard/page.tsx:319-323 | the email passes exactly when its trimmed text is well formed |
| ParticipantQuery.ActiveFilters | src/app/dashboard/page.tsx:126-130 | exactly the entries with a non-empty value are kept, with their values unchanged |
| ParticipantQuery.ActiveFiltersIdempotent | src/app/dashboard/page.tsx:126-130 | dropping empty filters twice is dropping them once; a map without empty values is kept whole |
| ParticipantQuery.NoInitialFilter | src/app/dashboard/page.tsx:12-19 | none of the initial filters is active |
| ParticipantQuery.RpcFilters | src/app/dashboard/page.tsx:68-69 | every filter except the age group reaches the server, with its value |
| ParticipantQuery.AgeGroup | src/app/dashboard/page.tsx:68 | the age group is the given one, or empty when none was given |
| ParticipantQuery.InAgeGroup | src/app/dashboard/page.tsx:70-75 | the filter callback; no contract of its own, see `AgeGroupExact` |
| ParticipantQuery.FilterByAge | src/app/dashboard/page.tsx:70-75 | the filter never lengthens the list; see `FilterByAgeCounts`, `FilterByAgeMembers`, `FilterByAgeCreatedAt` and `AgeGroupExact` |
| ParticipantQuery.FilterByAgeCounts | src/app/dashboard/page.tsx:70-75 | the filter keeps every copy of a user in the group and no copy of one outside it |
| ParticipantQuery.FilterByAgeMembers | src/app/dashboard/page.tsx:70-75 | the kept users are exactly the users in the group |
| ParticipantQuery.AgeGroupExact | src/app/dashboard/page.tsx:70-75 | "minors" keeps exactly the users under 18, "adults" exactly those 18 or over, and any other group the whole list |
| ParticipantQuery.FilterByAgeCreatedAt | src/app/dashboard/page.tsx:70-75 | the filter keeps the server's order: the entries created at any one instant are, after filtering, the in-group entries at that instant in input order |
| ParticipantQuery.Insert | src/app/dashboard/page.tsx:77-81 | inserting adds exactly the one user |
| ParticipantQuery.InsertNewestFirst | src/app/dashboard/page.tsx:77-81 | inserting into a newest-first list keeps it newest first |
| ParticipantQuery.SortNewestFirst | src/app/dashboard/page.tsx:77-81 | the newest-first sort; no contract of its own, see `SortNewestFirstSpec`, `SortStable` and `SortSorted` |
| ParticipantQuery.SortNewestFirstSpec | src/app/dashboard/page.tsx:77-81 | the sort returns the same users, newest first |
| ParticipantQuery.SortNewestFirstSorted | src/app/dashboard/page.tsx:77-81 | the sorted list is newest first |
| ParticipantQuery.SortNewestFirstPermutes | src/app/dashboard/page.tsx:77-81 | the sorted list holds the same users, each as often |
| ParticipantQuery.InsertStable | src/app/dashboard/page.tsx:77-81 | an inserted user goes before the users created at the same instant |
| ParticipantQuery.SortStable | src/app/dashboard/page.tsx:77-81 | users created at the same instant keep their relative order |
| ParticipantQuery.SortSorted | src/app/dashboard/page.tsx:77-81 | a list already newest first comes back unchanged |
| ParticipantQuery.ManagerIdList | src/app/dashboard/page.tsx:84-87 | the non-empty manager ids, repeats kept; no contract of its own, see `ManagerIdListMembers` |
| ParticipantQuery.Distinct | src/app/dashboard/page.tsx:85 | `[...new Set(ids)]`; no contract of its own, see `DistinctSpec` and `DistinctOfDistinct` |
| ParticipantQuery.ManagerIds | src/app/dashboard/page.tsx:84-88 | the ids to look up; no contract of its own, see `ManagerIdsSpec` |
| ParticipantQuery.ManagerIdListMembers | src/app/dashboard/page.tsx:84-87 | the collected ids are exactly the non-empty manager ids of the listed users |
| ParticipantQuery.DistinctSpec | src/app/dashboard/page.tsx:85 | `new Set` keeps every id and repeats none |
| ParticipantQuery.DistinctOfDistinct | src/app/dashboard/page.tsx:85 | a list without repeats passes through the set unchanged, order included |
| ParticipantQuery.ManagerIdsSpec | src/app/dashboard/page.tsx:84-88 | the ids looked up are distinct and are exactly the non-empty manager ids of the listed users |
| ParticipantQuery.FullName | src/app/dashboard/page.tsx:99 | a manager's shown name has no whitespace at either end |
| ParticipantQuery.FullNameOfClean | src/app/dashboard/page.tsx:99 | names that are present and clean at the ends are shown as written, joined by single spaces |
| ParticipantQuery.NameMapping | src/app/dashboard/page.tsx:97-100 | the id-to-name table; no contract of its own, see `NameMappingKeys` and `NameMappingLast` |
| ParticipantQuery.NameMappingKeys | src/app/dashboard/page.tsx:97-100 | the name table has an entry for exactly the ids of the returned rows |
| ParticipantQuery.NameMappingLast | src/app/dashboard/page.tsx:98-100 | each id maps to the name built from the last row carrying it |
| ParticipantQuery.Listed | src/app/dashboard/page.tsx:70-75 | the age-filtered rows, or nothing for a non-array answer; no contract of its own, see `FetchedRoster` |
| ParticipantQuery.ListAfterFetch | src/app/dashboard/page.tsx:68-82 | the roster after a fetch; no contract of its own, see `FetchFailures` and `FetchedRoster` |
| ParticipantQuery.LookedUp | src/app/dashboard/page.tsx:84-90 | the manager ids looked up after a fetch; no contract of its own, see `FetchedManagers` |
| ParticipantQuery.NamesAfterFetch | src/app/dashboard/page.tsx:90-110 | the name table after a fetch; no contract of its own, see `FetchFailures` and `FetchedManagers` |
| ParticipantQuery.FetchFailures | src/app/dashboard/page.tsx:70-110 | a thrown fetch changes neither the roster nor the names and looks nothing up; a non-array answer empties both |
| ParticipantQuery.FetchedRoster | src/app/dashboard/page.tsx:68-82 | after a successful fetch the roster holds exactly the rows in the age group, each as often as sent, newest first; the entries created at any one instant are the in-group rows of that instant in the order the server sent them |
| ParticipantQuery.FetchedManagers | src/app/dashboard/page.tsx:84-108 | the ids looked up are distinct and are exactly the non-empty manager ids of rows in the group; the table then has exactly the ids of the returned rows, or is empty when nothing was looked up |
| Roster.StoredPayload | src/app/dashboard/page.tsx:202-216 | every argument is the record's own value: id, age, the three flags and the eight text fields |
| Roster.CheckInPayload | src/app/dashboard/page.tsx:202-216 | check-in sends the stored record with only the check-in flag replaced |
| Roster.CheckOutPayload | src/app/dashboard/page.tsx:247-261 | check-out sends the stored record with only the check-out flag replaced |
| Roster.CheckOutRefused | src/app/dashboard/page.tsx:241 | the check-out guard; no contract of its own, see `GuardedCheckOutConsistent` and `UnguardedCheckOutBreaks` |
| Roster.CheckOutRefusal | src/app/dashboard/page.tsx:242 | the refusal message; no contract of its own, used by `CheckOutUpdate` |
| Roster.SetCheckedIn | src/app/dashboard/page.tsx:225-227 | every record with the id gets the new check-in flag; all others are unchanged; length and order are kept |
| Roster.SetCheckedOut | src/app/dashboard/page.tsx:270-272 | every record with the id gets the new check-out flag; all others are unchanged; length and order are kept |
| Roster.SetCheckedOutFrame | src/app/dashboard/page.tsx:270-272 | in each record only the check-out flag can change, and only where the id matches |
| Roster.GuardedCheckOutConsistent | src/app/dashboard/page.tsx:240-244 | a check-out the guard lets through keeps "checked out implies checked in" |
| Roster.UnguardedCheckOutBreaks | src/app/dashboard/page.tsx:240-244 | without the guard, checking out someone not checked in breaks that invariant |
| Roster.CheckInClearBreaks | src/app/dashboard/page.tsx:200-227 | the check-in handler, which nothing on the page calls, has no guard: clearing check-in for someone checked out would break the invariant |
| Submission.EditFormOf | src/app/dashboard/page.tsx:964-978 | the nine text fields of the form are the record's own, and the age printed into it reads back as the record's age |
| Submission.EditPayload | src/app/dashboard/page.tsx:382-396 | an edit sends the edited record's id, checked-in, checked-out and signed flags, the form's positive age, and each of the eight text fields of the form trimmed |
| Submission.AddPayloadOf | src/app/dashboard/page.tsx:416-427 | an addition sends the form's positive age, the gender untrimmed, and each of the other eight text fields trimmed |
| Submission.EditPayloadTrimmed | src/app/dashboard/page.tsx:386-395 | every text argument of an edit is free of whitespace at both ends |
| Submission.UntouchedEditRoundTrip | src/app/dashboard/page.tsx:382-396 | opening a clean record with a positive age and submitting the form untouched sends back exactly the stored values |
| Dashboard.DashboardPage.constructor | src/app/dashboard/page.tsx:9-46 | the initial state: empty roster loading, no error, filters and form empty, every flag off |
| Dashboard.DashboardPage.FetchUsers | src/app/dashboard/page.tsx:56-119 | sends every filter but the age group; the roster, names and error follow the fetch outcome; the spinner it turned on is off at the end |
| Dashboard.DashboardPage.ShowRows | src/app/dashboard/page.tsx:76-108 | shows the rows newest first and looks up their manager ids; the names come from the lookup only when some id was looked up and the lookup succeeded |
| Dashboard.DashboardPage.HandleFilterChange | src/app/dashboard/page.tsx:132-138 | stores the new value and refetches quietly with the active filters |
| Dashboard.DashboardPage.CheckInUpdate | src/app/dashboard/page.tsx:200-234 | the check-in handler as written (nothing on the page calls it): sends the record with the new check-in flag; on success only that flag changes, otherwise a quiet refetch |
| Dashboard.DashboardPage.CheckOutUpdate | src/app/dashboard/page.tsx:236-279 | clears the old error; refuses with the message and no call for someone not checked in; otherwise sends the new flag and on success changes only it, on failure refetches with the spinner |
| Dashboard.DashboardPage.HandleInputChange | src/app/dashboard/page.tsx:281-293 | sets one field, drops that field's error if it is non-empty, keeps everything else |
| Dashboard.DashboardPage.ValidateForm | src/app/dashboard/page.tsx:295-349 | stores and returns the form's error map |
| Dashboard.DashboardPage.ResetForm | src/app/dashboard/page.tsx:351-355 | empties the form, its errors and the submit error |
| Dashboard.DashboardPage.CloseModal | src/app/dashboard/page.tsx:357-366 | closes the modal, resets the form and leaves editing and deleting |
| Dashboard.DashboardPage.OpenEdit | src/app/dashboard/page.tsx:964-979 | enters editing mode on the clicked record with the form filled from it and the modal open |
| Dashboard.DashboardPage.OpenAdd | src/app/dashboard/page.tsx:634 | opens the modal |
| Dashboard.DashboardPage.SubmitStart | src/app/dashboard/page.tsx:368-427 | does nothing while submitting; otherwise stores the errors and makes a request exactly when there are none, and then only for an acceptable form: an update of the edited record or an addition |
| Dashboard.DashboardPage.SubmitFailed | src/app/dashboard/page.tsx:398-444 | an error result leaves the update or add failure message and a throw the unexpected-error message; the submission ends |
| Dashboard.DashboardPage.SubmitSucceeded | src/app/dashboard/page.tsx:403-438 | refetches (quietly after an edit, with the spinner after an addition), closes the modal and ends the submission |

## Left out

- Rendering, styling, hover handlers, the e-mail status banner and the confirmation dialogs
  are user interface with no state logic here.
- `checkAuth`, `handleLogout`, `handleDeleteParticipant` and the QR e-mail sending are
  authentication and foreign calls. They are not modelled.
- The remote procedures `get_all_people`, `update_person` and `add_person`, and the managers'
  name lookup, are not executed. Their outcomes are method parameters (`PeopleOutcome`,
  `ManagersOutcome`, `CallOutcome`). The server's own filtering by e-mail, gender, name,
  national id and check-in state is not modelled.
- Console logging and the `setTimeout` calls that clear status banners are not modelled.
- The mount-time `useEffect` fetch is not modelled. It is `FetchUsers` with no filters and
  the spinner.
- Dashboard.DashboardPage.CheckInUpdate: `handleCheckInUpdate` (src/app/dashboard/page.tsx:199-234)
  has no caller on the page, and the check-in column (lines 1023-1034) only displays the flag.
  This method and `Roster.CheckInClearBreaks` describe the handler as written, not a path a user
  can reach.
- A click on the check-out checkbox (src/app/dashboard/page.tsx:1037-1043) is not stopped from
  reaching the row, so it also opens the edit form with the record as it was before the toggle
  (lines 964-979). Saving that form sends the old `checked_out` (line 385). The model treats
  `CheckOutUpdate` and `OpenEdit` as separate events and does not capture this pairing.
- React's asynchronous state updates and stale closures are not modelled. Each method reads
  the current fields, and the handlers run one at a time. A handler's two halves around an
  `await` are separate methods (`SubmitStart`, then `SubmitFailed` or `SubmitSucceeded`).
  Check-in and check-out each run their remote call's outcome in one method.
- `created_at` is an integer instant. `Date` parsing, and the `NaN` comparator result for
  an unparsable date, are not modelled.
- JsText.ParseNumber: models `Number` only for optionally signed decimal integers and blank
  text (0). Fractions, exponents, hexadecimal, `Infinity` and `NaN` read as not a number.
  So an age like "2.5" gets "Age is required" in the model where the page would accept it.
- FormValidation.CheckAge: inherits that restriction of `Number`.
- `validateForm` builds its record with ten consecutive `if` statements. The model runs the
  same ten checks in the same order, each as a method returning the updated map
  (`CheckRequired` … `CheckEmergencyPhone`).
- `User.age`, `camp_total`, `created_at` and the parsed age are unbounded integers. In
  JavaScript they are doubles: integers above 2^53 lose precision, and `String(n)` switches
  to exponent form from 1e21. `ParseFormatRoundTrip` holds only for ages below those bounds
  in the running page.
- The edit request (`update_person`) has no gender argument, so a gender changed in the edit
  form is never sent. `UpdatePayload` reproduces this; it is not an omission of the model.
- Record fields that the row-click handler defaults with `?? ''` are taken as present.
  The model's `User` has no null text fields.
- Other pages (login, QR scanner, contract signing, success), the e-mail API route and the
  database client set-up are not part of this model.
