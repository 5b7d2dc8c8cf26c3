# JOMS SCG Dress Shoppe: request gate, sign-in and admin form logic in Dafny

This project models the server-side decision logic of the JOMS SCG Dress
Shoppe web application, a SvelteKit shop that makes school uniforms to
measure. It covers six parts:

- **Request gate** (`src/hooks.server.js`). For each request it reads the
  two token cookies and asks the identity store for a session and a profile
  role. It signs out a privileged user who is in the admin area without the
  `biometric-verified` marker. It sends requests without a session away from
  the protected areas, and sends signed-in users from the entry page to
  their dashboard. It enforces the role areas and an admin's page
  allow-list. Otherwise the request passes, with no-store headers on the
  protected areas.
  - The decision is the pure function `RequestGate.Decide`.
  - The handler is the class `RequestGate.RequestEvent`. Its fields are the
    cookie jar, `locals.session`, `locals.userRole`, the header flag and a
    log of the queries sent to the identity store.
- **Sign-in** (`src/routes/+page.server.js`): the presence check, the
  mapping of authentication and role-lookup failures, and the switch from
  role to dashboard.
- **Measurement types** (`src/routes/admin/measurement/+page.server.js`):
  - `toSentenceCase` and `validateNumeric`;
  - the usage counts of `load`;
  - the all-or-nothing validation of the multi-entry `create`;
  - the checks of `update`;
  - the usage guard of `delete`.
- **Dashboard aggregators** (`src/routes/admin/dashboard/+page.server.js`):
  - the season, time-slot and quarter classifiers;
  - the keyed reducers for revenue by status, quarterly revenue, seasonal
    trends and peak order times;
  - order metrics, course performance, employee statistics and delivery
    performance.
- **Uniform configuration**
  (`src/routes/admin/uniform-configuration/+page.server.js`):
  - the nested lookup from course to gender to a set of wear types;
  - the `measurement_specs` built from the form;
  - the required-field checks and error mapping of `create`, `update` and
    `delete`.
- **Students** (`src/routes/admin/students/+page.server.js`):
  - the grouping of configurations under `gender_courseId`;
  - the index of measurement types by id;
  - the `measurement_<id>` form-field dictionary;
  - the field checks of `create` and `edit`;
  - the error-code mapping of `delete`.

How the model represents the source:

- **Database and identity-store calls** become inputs. A query's rows, its
  error, or a function-valued field of a store value stand for the call.
- **Form data** is a sequence of name/value entries (`Forms.FormData`).
- **Pure code becomes functions.** That is the if-chains, `switch`es,
  `map`/`filter`/`some` chains, and regular-expression tests.
- **Mutating loops become methods.** Each `reduce`, `forEach` or `for … of`
  loop that mutates a dictionary is a method with a loop. Its invariant ties
  the accumulator to a specification function of the prefix seen so far.
- **Shared JavaScript built-ins** are modelled once, in `Text` and
  `Common`. These are `trim`, ASCII `toLowerCase`, `parseInt`, `String(n)`,
  `join` and `map` with an index.

Where the code and the design description disagree, the model follows the
code:

- The gate never refreshes a token that is close to expiry.
- With a session but no role, every role check is skipped, so such a user
  reaches both the admin area and the employee area.
- Sign-out deletes only the two token cookies and keeps the biometric
  marker.
- In uniform configuration, the validation error raised inside `try` is
  caught and re-raised as a 500 with `err.message`, which is undefined for
  that error, so the 500 is re-raised with an undefined message.

## Model

| member | source | states |
|---|---|---|
| RequestGate.RequestEvent.constructor | src/hooks.server.js:4-21 | A fresh request holds its path and cookie jar, has no session or role, no headers set and no store queries sent. |
| RequestGate.RequestEvent.EstablishSession | src/hooks.server.js:17-55 | Sets `locals.session` and `locals.userRole` to what the store answers, and asks for a session only when both tokens are present. Deletes both token cookies, and nothing else, exactly when a privileged user is on an admin path without the biometric marker; the sign-out is then reported. |
| RequestGate.RequestEvent.Handle | src/hooks.server.js:4-131 | The response is `Decide` of the path, jar and store. The cookies, locals, header flag and store-query log end up as the source's statement order leaves them. |
| RequestGate.AreasDisjoint | src/hooks.server.js:70-127 | No path starts with both `/admin` and `/employee`, and `/` starts with neither. |
| RequestGate.SessionNeedsBothTokens | src/hooks.server.js:17-32 | A session is requested exactly when both token cookies are non-empty; without them `locals.session` is null. |
| RequestGate.BiometricSignOut | src/hooks.server.js:44-51 | An admin or superadmin on an `/admin` path without `biometric-verified=true` is signed out and sent to `/`, whatever else holds. No other request is signed out. |
| RequestGate.ProtectedNeedsSession | src/hooks.server.js:70-77 | Without a session, every `/admin` or `/employee` path redirects to `/`. |
| RequestGate.EntryPageRedirect | src/hooks.server.js:82-95 | A signed-in user with a role, on `/`, goes to their dashboard. The exception is a privileged user without the biometric marker, whose request passes. |
| RequestGate.RoleMismatchRedirects | src/hooks.server.js:97-100 | A role other than admin or superadmin on an `/admin` path goes to `/employee/dashboard`. A role other than employee on an `/employee` path goes to `/admin/dashboard`. |
| RequestGate.AdminAllowList | src/hooks.server.js:103-120 | A verified `admin` on an admin path passes exactly when the path is `/admin/dashboard` or an exact member of the allow-list, and otherwise goes to `/admin/dashboard`. A verified `superadmin` always passes. |
| RequestGate.MissingRolePasses | src/hooks.server.js:80 | With a session but a missing or empty role, every request passes, admin and employee paths included. |
| RequestGate.AdminAreaReach | src/hooks.server.js:44-120 | A request on an admin path passes only when it has a session and one of three holds: no role; a verified `superadmin`; or a verified `admin` on the dashboard or on the allow-list. |
| RequestGate.EmployeeAreaReach | src/hooks.server.js:70-127 | A request on an employee path passes only when it has a session and the role is `employee` or missing. |
| RequestGate.AllowListFetchedOnlyForAdmins | src/hooks.server.js:103-110 | The allow-list query is sent only for an `admin` with the biometric marker, on an admin path. |
| RequestGate.HandlePassKeepsCookies | src/hooks.server.js:58-67 | A request that passes keeps every cookie, and gets the no-store headers exactly when its path is protected. |
| SignIn.BlankFieldsFailEarly | src/routes/+page.server.js:6-13 | A blank trimmed email or an empty password fails 400 with "Email and password are required". The store is never consulted: the outcome is the same for every store. |
| SignIn.EmailTrimmedPasswordNot | src/routes/+page.server.js:6-7 | The email is trimmed before it reaches the store; the password is passed as given. |
| SignIn.OutcomeShapes | src/routes/+page.server.js:4-49 | Every failure is a 400. Every success is a 303 to `/admin/dashboard` or `/employee/dashboard`. |
| SignIn.AuthorizeShapes | src/routes/+page.server.js:15-48 | The same two shapes once both fields are filled. |
| SignIn.AuthErrorReported | src/routes/+page.server.js:20-24 | An authentication error fails 400 with the store's own message. |
| SignIn.RoleDispatch | src/routes/+page.server.js:26-48 | A role-lookup error or a missing profile gives "Failed to fetch user role". `superadmin` and `admin` go to the admin dashboard and `employee` to the employee dashboard. Any other role, null included, gives "Invalid user role". |
| Text.Trim | src/routes/+page.server.js:6 | The result is never longer than the input and has no whitespace at either end. |
| Text.TrimIsBothEnds | src/routes/+page.server.js:6 | `trim` is removing the leading whitespace and then the trailing whitespace. |
| Text.TrimInfix | src/routes/+page.server.js:6 | The trimmed text is a contiguous part of the input. |
| Text.TrimAllSpace | src/routes/+page.server.js:9 | Trimming leaves the empty string exactly when every character is whitespace. |
| Text.TrimIdempotent | src/routes/+page.server.js:6 | Trimming twice is trimming once. |
| Text.Lower | src/routes/admin/students/+page.server.js:84 | Same length, and every character is the lower-case form of the input's character at the same place. |
| Text.ParseIntOfIntToString | src/routes/admin/students/+page.server.js:114-115 | `parseInt` reads back every integer that `String` writes. |
| Text.Join | src/routes/admin/measurement/+page.server.js:169-173 | Joining an empty list gives the empty string, a one-element list gives that element, and a longer list starts with its first element. |
| Text.JoinAppend | src/routes/admin/measurement/+page.server.js:169-173 | Joining a non-empty list with one more element is joining the list, then the separator, then that element. |
| Text.Utf16Length | src/routes/admin/measurement/+page.server.js:153 | A string's `length` in UTF-16 code units lies between its number of characters and twice that. |
| Text.Utf16LengthOfBmp | src/routes/admin/measurement/+page.server.js:153 | A string of Basic Multilingual Plane characters has one code unit per character. |
| Forms.Get | src/routes/admin/students/+page.server.js:81-88 | `formData.get` is the value of the first field with the name, or null when there is none. |
| Forms.GetAll | src/routes/admin/measurement/+page.server.js:108-111 | `formData.getAll` holds exactly the values under the name, and nothing when the name is absent. |
| Forms.GetAllAppend | src/routes/admin/measurement/+page.server.js:108-111 | `getAll` keeps the order and the multiplicity of the fields: one more field adds its value at the end exactly when it has the name. |
| Forms.OrNull | src/routes/admin/students/+page.server.js:130-131 | An empty or missing value becomes null; any other value is kept. |
| MeasurementTypes.CollapseSpaces | src/routes/admin/measurement/+page.server.js:4-10 | Collapsing whitespace runs never lengthens the text. |
| MeasurementTypes.CollapseSpacesShape | src/routes/admin/measurement/+page.server.js:4-10 | After collapsing, the only whitespace is single spaces, and the text starts with whitespace exactly when it did before. |
| MeasurementTypes.CollapseKeepsVisible | src/routes/admin/measurement/+page.server.js:7 | Collapsing keeps every character that is not whitespace, in order. |
| MeasurementTypes.CollapseSpacesRun | src/routes/admin/measurement/+page.server.js:7 | A whole run of whitespace, before text that does not start with whitespace, becomes exactly one space. |
| MeasurementTypes.CollapseSpacesConcat | src/routes/admin/measurement/+page.server.js:7 | Text ending with a visible character collapses on its own: collapsing it followed by more text is collapsing each part. |
| MeasurementTypes.CollapseWordThenRun | src/routes/admin/measurement/+page.server.js:7 | A word, a run of whitespace and the rest become the word, one space, and the collapsed rest. |
| MeasurementTypes.UpperAfterSpaceAt | src/routes/admin/measurement/+page.server.js:4-10 | At every position, the scan of `\s\S` leaves the character upper-cased when it is a non-space following a space, and unchanged otherwise. |
| MeasurementTypes.SentenceCaseIsWordStartsUpper | src/routes/admin/measurement/+page.server.js:4-10 | `toSentenceCase` upper-cases exactly the first character and each character after a space of the lower-cased, collapsed, trimmed text. |
| MeasurementTypes.SentenceCaseShape | src/routes/admin/measurement/+page.server.js:4-10 | Every result has no whitespace at either end and no whitespace other than single spaces. It has no upper-case letter except at word starts, and no lower-case letter at word starts. |
| MeasurementTypes.SentenceCaseIdempotent | src/routes/admin/measurement/+page.server.js:4-10 | Applying `toSentenceCase` twice equals applying it once. |
| MeasurementTypes.BlankNumericAccepted | src/routes/admin/measurement/+page.server.js:20-24 | A missing, empty or whitespace-only value has no error. |
| MeasurementTypes.SignRejected | src/routes/admin/measurement/+page.server.js:27-29 | A value with a sign fails the pattern as "must be a valid number". |
| MeasurementTypes.NeverNegative | src/routes/admin/measurement/+page.server.js:46-48 | The "cannot be negative" check never fires. |
| MeasurementTypes.LonePointRejected | src/routes/admin/measurement/+page.server.js:27-39 | "." matches the pattern and is still rejected as not a valid number, through `parseFloat`. |
| MeasurementTypes.FloatClassOfPattern | src/routes/admin/measurement/+page.server.js:27-39 | Of the values that match the pattern, `parseFloat` gives NaN for "." alone. |
| MeasurementTypes.AcceptedRange | src/routes/admin/measurement/+page.server.js:19-51 | A value that `validateNumeric` accepts has at most two decimals and lies between 0 and 999999.99. |
| MeasurementTypes.TwoDecimalCheck | src/routes/admin/measurement/+page.server.js:32-43 | Digits, a point and two digits are accepted exactly when the amount is at most 999999.99. |
| MeasurementTypes.CentsTextValidation | src/routes/admin/measurement/+page.server.js:41-43 | Every two-decimal amount is accepted exactly when it is at most 999999.99, and otherwise reported as exceeding it. |
| MeasurementTypes.UsageCountPositive | src/routes/admin/measurement/+page.server.js:85-96 | A type's usage count is non-zero exactly when some configuration has a spec for it. |
| MeasurementTypes.LoadCounts | src/routes/admin/measurement/+page.server.js:85-104 | `load` keeps every type, in order, and gives each its usage count. |
| MeasurementTypes.DraftName | src/routes/admin/measurement/+page.server.js:123-136 | The i-th entry carries the i-th submitted name, trimmed and put through `toSentenceCase`. |
| MeasurementTypes.KeepNamed | src/routes/admin/measurement/+page.server.js:138 | The kept entries are exactly those with a non-empty name. |
| MeasurementTypes.KeepNamedConcat | src/routes/admin/measurement/+page.server.js:138 | The filter keeps the order of the entries: filtering a concatenation is concatenating the filtered parts. |
| MeasurementTypes.KeepNamedOne | src/routes/admin/measurement/+page.server.js:138 | One entry is kept exactly when its name is not empty. |
| MeasurementTypes.NameProblems | src/routes/admin/measurement/+page.server.js:151-157 | A name has a problem exactly when it is empty, longer than 40 UTF-16 code units, or has a character other than a letter, digit, whitespace or dash. Only the first such problem is reported. |
| MeasurementTypes.NamePatternLength | src/routes/admin/measurement/+page.server.js:153-155 | A name the pattern accepts has one code unit per character. |
| MeasurementTypes.EmojiNameTooLong | src/routes/admin/measurement/+page.server.js:231-236 | Twenty-one emoji (42 code units) are too long for `create`, and `update` reports both the length and the characters. |
| MeasurementTypes.CollectEntryProblems | src/routes/admin/measurement/+page.server.js:147-167 | The `push` loop of the `flatMap` callback gives the entry's problems: the name's first problem (the length in UTF-16 code units), then one per rejected number. |
| MeasurementTypes.ProblemsOfEntries | src/routes/admin/measurement/+page.server.js:147-173 | Every reported problem names an entry, counting from 1, and is one of that entry's problems. Every problem of every entry is reported with that entry's number. |
| MeasurementTypes.ValidationProblemsAppend | src/routes/admin/measurement/+page.server.js:147-167 | The problems of one more entry come after all earlier ones, numbered with its position: `flatMap` keeps entry order. |
| MeasurementTypes.ScreenAllOrNothing | src/routes/admin/measurement/+page.server.js:140-201 | The batch is inserted whole exactly when it is non-empty, every entry is valid, no entry's name is stored and the insert succeeds. |
| MeasurementTypes.CreateAllOrNothing | src/routes/admin/measurement/+page.server.js:106-201 | Create inserts exactly the entries with a non-empty name, and only when the screen above lets them all through. |
| MeasurementTypes.CreateInvalidEntry | src/routes/admin/measurement/+page.server.js:169-173 | One invalid entry fails the whole batch with 400, listing the problems of every entry. |
| MeasurementTypes.CreateDuplicates | src/routes/admin/measurement/+page.server.js:177-187 | Valid entries whose names are already stored are refused with 400, listing exactly the stored names among them. |
| MeasurementTypes.InsertedNames | src/routes/admin/measurement/+page.server.js:123-201 | Every inserted name is the `toSentenceCase` form of a submitted name, with 1 to 40 allowed characters. |
| MeasurementTypes.CollectUpdateProblems | src/routes/admin/measurement/+page.server.js:228-244 | The `push` sequence of `update` gives the update problems: each failing name check (the length in UTF-16 code units), then one per rejected number. |
| MeasurementTypes.OnlyOtherHolder | src/routes/admin/measurement/+page.server.js:254-259 | When a single stored row holds the name under another id, the `neq('id')` query selects exactly that row. |
| MeasurementTypes.UpdateNeedsIdAndName | src/routes/admin/measurement/+page.server.js:222-226 | A missing id, or a name that normalises to nothing, fails 400. |
| MeasurementTypes.BlankIdCastFails | src/routes/admin/measurement/+page.server.js:253-259 | A blank id is 0 to `Number`, but the store's integer cast in `neq('id', id)` fails on it, so the name query finds nothing. |
| MeasurementTypes.DigitIdCast | src/routes/admin/measurement/+page.server.js:253-259 | On a plain run of decimal digits the store's integer cast and `Number` agree, giving the digits' value. |
| MeasurementTypes.BlankIdUpdateFails | src/routes/admin/measurement/+page.server.js:267-283 | A blank id passes `!id`, but a valid update with it ends in the 500 "Failed to update measurement type", never in a write. |
| MeasurementTypes.UpdateNameTaken | src/routes/admin/measurement/+page.server.js:254-265 | A valid name held by exactly one row with another id is refused with 400, naming it. |
| MeasurementTypes.UpdateOutcomes | src/routes/admin/measurement/+page.server.js:205-284 | Update writes exactly when the id and name are present, every check passes, the name is not held by exactly one other row, the store can cast the id to an integer, and the write succeeds. It writes the normalised name. |
| MeasurementTypes.DeleteGuardMatchesUsage | src/routes/admin/measurement/+page.server.js:299-316 | With every configuration's specs present, delete refuses a type exactly when the usage count that `load` shows for it is non-zero. |
| MeasurementTypes.DeleteNeedsId | src/routes/admin/measurement/+page.server.js:291-295 | Without an id, delete fails 400 whatever the configurations. |
| Dashboard.Accumulate | src/routes/admin/dashboard/+page.server.js:36-41 | The keyed reducer loop leaves the accumulator equal to the keyed tally of the whole list. |
| Dashboard.TallyByKey | src/routes/admin/dashboard/+page.server.js:36-41 | The tally holds a key exactly when some item is filed under it. Its value there is the total amount of those items. |
| Dashboard.TallyTotal | src/routes/admin/dashboard/+page.server.js:36-41 | The tally's values add up to the amounts of all items that have a key. |
| Dashboard.SeasonTable | src/routes/admin/dashboard/+page.server.js:140-145 | For months 0 to 11: 2 to 4 are Spring, 5 to 7 Summer, 8 to 10 Fall and the rest Winter. A NaN month is Winter. |
| Dashboard.TimeSlotTable | src/routes/admin/dashboard/+page.server.js:156-161 | For hours 0 to 23: 5 to 11 are Morning, 12 to 16 Afternoon, 17 to 20 Evening and the rest Night. |
| Dashboard.QuarterTable | src/routes/admin/dashboard/+page.server.js:417-423 | Each month from 0 to 11 gets the label of its quarter, always one of Q1 to Q4. |
| Dashboard.RevenueByStatus | src/routes/admin/dashboard/+page.server.js:36-41 | The amount paid per status, a missing amount counting 0. The values add up to the total amount paid. No orders gives an empty dictionary. |
| Dashboard.QuarterlyRevenue | src/routes/admin/dashboard/+page.server.js:417-423 | The keys are exactly the quarter labels of the orders, and each value is the amount paid under that label. Every order lands under exactly one label, so the values add up to the total amount paid. |
| Dashboard.SeasonalTrends | src/routes/admin/dashboard/+page.server.js:131-138 | The keys are exactly the seasons some order was created in, and each value is that season's number of orders. The counts add up to the number of orders. |
| Dashboard.PeakOrderTimes | src/routes/admin/dashboard/+page.server.js:147-154 | The keys are exactly the time slots some order was created in, and each value is that slot's number of orders. The counts add up to the number of orders. |
| Dashboard.ProcessOrderMetrics | src/routes/admin/dashboard/+page.server.js:663-681 | Null order data throws. Otherwise the result is the counts per lower-cased status, with cancelled orders skipped, merged over `completed`, `in progress` and `pending` at zero, with no other key, and the values add up to the number of orders that are not cancelled. |
| Dashboard.MetricsByStatus | src/routes/admin/dashboard/+page.server.js:663-681 | The keys are exactly the three defaults and the lower-cased statuses of the orders that are not cancelled; `cancelled` never is one. Each value is the number of orders with that lower-cased status. |
| Dashboard.MetricsTotal | src/routes/admin/dashboard/+page.server.js:663-681 | The values add up to the number of orders that are not cancelled. |
| Dashboard.CoursePerformance | src/routes/admin/dashboard/+page.server.js:43-63 | Orders without a course code are skipped. Each course's record counts its orders, its completed orders and their amount paid. |
| Dashboard.CourseBounds | src/routes/admin/dashboard/+page.server.js:43-63 | For every course, completed orders are at most total orders, and the totals add up to the number of orders with a course code. |
| Dashboard.EmployeeStatistics | src/routes/admin/dashboard/+page.server.js:683-707 | One record per employee name, holding the number of their rows, how many are completed and how many are not, and their total amount. |
| Dashboard.EmployeeTotals | src/routes/admin/dashboard/+page.server.js:683-707 | For every employee, total = completed + pending = the number of that employee's rows. |
| Dashboard.DeliveryCounts | src/routes/admin/dashboard/+page.server.js:451-463 | On time counts the delivered orders completed by their due date, and late counts the rest. Together they are all the completed orders with a completion time. With none, the result is 0, 0 and "0.00". |
| UniformConfiguration.BuildConfigurationMap | src/routes/admin/uniform-configuration/+page.server.js:40-54 | The `forEach` builds the exact lookup. Its courses are the configurations' course keys, the genders under a course are those configured for it, and the set under both holds exactly their wear types. |
| UniformConfiguration.AddConfigDescribes | src/routes/admin/uniform-configuration/+page.server.js:42-54 | One step of the `forEach` keeps the lookup exact for the configurations seen so far. |
| UniformConfiguration.DuplicatesCollapse | src/routes/admin/uniform-configuration/+page.server.js:50-53 | Adding a configuration that is already present leaves the lookup unchanged. |
| UniformConfiguration.WearTypesConfigured | src/routes/admin/uniform-configuration/+page.server.js:42-54 | A course and gender that have some wear type are themselves in the lookup's key sets. |
| UniformConfiguration.SpecText | src/routes/admin/uniform-configuration/+page.server.js:80-81 | A filled field keeps its text, and a missing or empty one reads "0". |
| UniformConfiguration.MeasurementSpecs | src/routes/admin/uniform-configuration/+page.server.js:78-83 | One spec per selected measurement id, in the order selected, with the id parsed and both numbers taken from their fields or defaulting to 0. |
| UniformConfiguration.CreateOutcomes | src/routes/admin/uniform-configuration/+page.server.js:74-107 | Create saves exactly when the required fields are present and the insert succeeds. Every other ending is a 500; for a missing field it carries no message. |
| UniformConfiguration.BasePriceRequired | src/routes/admin/uniform-configuration/+page.server.js:85-87 | A base price that is missing, unparsable or zero fails create, whatever else the form holds. |
| UniformConfiguration.SelectionRequired | src/routes/admin/uniform-configuration/+page.server.js:85-87 | With no measurement selected, create fails. |
| UniformConfiguration.UpdateIsCreateWithId | src/routes/admin/uniform-configuration/+page.server.js:110-151 | Without an id, update fails like a missing field. With an id, it ends as create would, saving the same values. |
| UniformConfiguration.DeleteOutcomes | src/routes/admin/uniform-configuration/+page.server.js:153-177 | Delete needs only the id. Every failure is a 500. |
| Students.PushEach | src/routes/admin/students/+page.server.js:36-47 | The push loop builds exactly the grouping of the items by key. |
| Students.GroupAt | src/routes/admin/students/+page.server.js:36-47 | Under every key the list holds exactly the values of the items with that key, in order. A key is present exactly when some item has it. |
| Students.GroupSizes | src/routes/admin/students/+page.server.js:36-47 | The list lengths add up to the number of items, so every item is listed once. |
| Students.ListedUnderOwnKey | src/routes/admin/students/+page.server.js:36-47 | Every item is in the list under its own key. |
| Students.WithDefaults | src/routes/admin/students/+page.server.js:41-45 | Missing `measurement_specs` become `[]` and a missing `base_price` becomes 0. Present values are kept. |
| Students.GroupConfigs | src/routes/admin/students/+page.server.js:35-47 | Each configuration, with its defaults, is listed exactly once, under `${gender}_${course_id}`. No rows give an empty dictionary. |
| Students.IndexByIdFinds | src/routes/admin/students/+page.server.js:67 | The index holds exactly the types' ids. Each id leads to the last type listed with it. |
| Students.IndexRetrievable | src/routes/admin/students/+page.server.js:67 | With distinct ids, every type is found under its own id. |
| Students.Load | src/routes/admin/students/+page.server.js:4-76 | The four queries run in order. The first error ends `load` with a 500 carrying its message or "Internal server error", and its details or "Unknown error occurred while fetching data". Otherwise the page data is the rows, the grouping and the index. |
| Students.LastAssigned | src/routes/admin/students/+page.server.js:111-118 | Assigning by key in turn leaves under each key the value of the last item with it, and nothing under a key no item has. |
| Students.CollectMeasurements | src/routes/admin/students/+page.server.js:111-118 | The `for … of` loop builds the measurements dictionary of the form. |
| Students.MeasurementsFromPrefixedFields | src/routes/admin/students/+page.server.js:111-118 | An id is in the dictionary exactly when some `measurement_` field parses to it, and holds the value of the last such field. |
| Students.OtherFieldsIgnored | src/routes/admin/students/+page.server.js:112 | A field without the `measurement_` prefix leaves the dictionary unchanged. |
| Students.CreateOutcomes | src/routes/admin/students/+page.server.js:79-153 | Create fails 400 exactly when first name, last name, gender or course is missing. Every other failure is a 500; a failed configuration lookup carries its message or the fallback text. Create succeeds exactly when the fields are present and neither store call fails. |
| Students.CreatedStudent | src/routes/admin/students/+page.server.js:84-135 | A created student has the names as submitted, the gender lower-cased, the course id `parseInt` reads, and an empty contact number or address stored as null. Its measurements come from the `measurement_` fields. |
| Students.EditOutcomes | src/routes/admin/students/+page.server.js:155-212 | Edit fails 400 exactly when the id or a required field is missing, a course id that parses to NaN or 0 counting as missing. Every other failure is a 500 with the fixed message. |
| Students.EditedStudent | src/routes/admin/students/+page.server.js:157-200 | An edit writes the row with the submitted id: the names as submitted, the gender lower-cased, the non-zero parsed course id, empty contact number or address as null, and the measurements from the `measurement_` fields. |
| Students.EditRejectsCourseZeroOrNaN | src/routes/admin/students/+page.server.js:160-169 | A course id of "0", or one that does not parse, fails edit with 400 whatever the other fields hold. |
| Students.DeleteOutcomes | src/routes/admin/students/+page.server.js:214-253 | A missing id gives 400. Error code `23503` gives 400 with the existing-orders message. Any other error gives 500 with its message or the fallback. No error deletes. |

## Left out

- Database and identity-store calls are inputs. Their latency, concurrency and `Promise.all` fan-out are not modelled, nor any query not listed above.
- The values of the no-store cache headers are not modelled; only whether they are set.
- Console logging is not modelled.
- `formatNumericValue` on the measurement-type page is a parameter (`render`) standing for its `parseFloat`/`toFixed` rendering. Only validation of the rendered text is modelled.
- Students.CollectMeasurements: stores the text handed to `parseFloat`, not the float. So "1.50" and "1.5" stay different, and "abc" is kept where the source stores NaN.
- Students.Measurements: the same; it is the text value, not `parseFloat` of it.
- UniformConfiguration.MeasurementSpecs: `baseCm` and `additionalCostPerCm` are the texts handed to `parseFloat` (with '0' for a missing value), not the floats. Texts that parse to the same number are not identified, and unparsable text is kept where the source stores NaN.
- UniformConfiguration.ValuesOf: `basePrice` is the submitted text, not `parseFloat` of it. Only its class (NaN, zero or non-zero) is modelled, through `Text.ParseFloatClass`.
- Text.ParseFloatClass: ignores the exponent part and floating-point underflow. A number that rounds to 0, such as "1e-400", or "0." followed by 400 zeros and a 1, is NonZero here, where `parseFloat` gives 0. So `UniformConfiguration.Create` and `Update` accept such a base price, which the source rejects.
- MeasurementTypes.PgInteger: models PostgreSQL's integer input for decimal digits only. Integer overflow of the id column, and any other accepted spelling, are not modelled.
- Dashboard.ProcessOrderMetrics: null order data is modelled as the throw (None). The dashboard `load` that calls it is not modelled, so neither is its catch, which turns every metric into `{}`.
- `MeasurementTypes.CheckNumber` compares with 999999.99 exactly, in hundredths. It matches floating-point comparison only for values with at most two decimals, which are the only ones that reach the comparison.
- Dashboard order and employee-order columns `status`, `first_name` and `last_name` are taken as non-null strings. A null status, which `calculateRevenueByStatus` files under "null" and `processOrderMetrics` and `calculateEmployeeStats` throw on, and a null name rendered as "null", are not modelled.
- Dashboard amounts are integers. Floating-point amounts, averages and percentages are not modelled: `averageOrderValue`, `averageCompletion`, the efficiency rate and the completion rate.
- `percentOnTime` is a parameter of `Dashboard.DeliveryPerformance`, standing for the `toFixed(2)` percentage.
- Dates, time zones and locales are not modelled. Months, hours and timestamps are integer inputs (None for NaN). This leaves out `getDateRanges`, `getWeekNumber`, `getDateDiff`, the monthly, weekly and over-time revenue series, and the `toLocaleString` month keys.
- Case mapping covers ASCII letters only: `toLowerCase` and `toUpperCase` of other characters are not modelled.
- `Text.IdNumber` models `Number(id)` for optionally signed decimal digits only. Hexadecimal, exponent and fractional forms read as no integer.
- MeasurementTypes.UpdateNameTaken: requires distinct stored ids. `id` is the table's key, and `maybeSingle`'s error when it finds several rows is ignored by the source, as the model's `Review` does.
- Dashboard.CoursePerformance: `averageCompletion` stays 0, as the source leaves it.
- Files outside these six are not part of this model: the forecasting service, the WebAuthn browser wrapper, the client constructors, the refresh timer, the layout listeners, sign-out, and the remaining admin and employee pages, which are data access with presence checks.
