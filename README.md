# PneumoAid clinic dashboard — a Dafny model

PneumoAid's dashboard is a small web service in front of a document store.
It exists in two deployments. The admin app (`Admin/app.py`) guards its
clinic, analytics and distribution endpoints with a logged-in session. The
demo app (`Demo/app.py`) has the same handlers without a login. This
project models the service's request handlers and the data they compute:

- **Creating a clinic** (`POST /api/clinics`). The steps run in this order:
  1. the session gate;
  2. the presence of the `image` part, then its filename;
  3. one upload to the media host, into the folder `pneumoaid_clinics`;
  4. building the record from the form: `status` defaults to `"active"` only
     when the field is absent, and the password is hashed;
  5. the required-field check, which reports the missing fields in the order
     name, identifier, location, username, password;
  6. the username lookup (409 when taken);
  7. the insert (201 with the new id and the image URL).

  Any exception becomes a 500 carrying the exception's message.
- **Listing clinics** (`GET /api/clinics`): every stored clinic in store
  order. The password is dropped, and `image_url` is null when the document
  has none.
- **The session** (admin only): login against the two configured
  credentials, and logout.
- **The statistics endpoints**:
  - the four counters of `/api/stats`, which no deployment gates;
  - new patients per day, ascending by day;
  - the share of clinics per city, largest first.

  The city token of a location is the text before its first comma. Tokens
  are grouped as they are and stripped of whitespace only afterwards, so
  `"Lagos, NG"` and `" Lagos, NG"` give two shares that both read `"Lagos"`
  (`WorkedCases.SameTypeTwoGroups`). Each share is its count over
  `sum(counts) or 1`.
- **`allowed_file`**: the extension check, which the handler does not call.

One class, `Dashboard.App`, serves both deployments. Its `gateEnabled` flag
says whether the session gate is on. The store is the fields `clinics`,
`patients` and `appointments`. The media host is represented by two things:
the log of the uploads it received, and the outcome it gives to each
request. The password hash is a function parameter. Store failures are a
per-request `storeFault`.

The store's aggregation stages are modelled as pure functions in module
`Aggregation`:

- `$group` is `GroupBy`: one group per distinct key, counting its documents.
- `$sort` is `SortByKey` (ascending key) or `SortByCountDesc` (descending
  count).

Both sorts are proved to be permutations of their input. `SortByCountDesc`
is proved to give non-increasing counts for every input. `SortByKey` is
proved to give strictly ascending keys when the keys are distinct, which is
the case for the output of `GroupBy`.

A property of the source shows up as a lemma. The required-field check runs
on the record after hashing, so the password entry is reported missing only
when the hash of the submitted text is empty
(`Clinics.PasswordCheckSeesHash`). A salted hash is never empty, so an empty
password is accepted and stored hashed. A request without a password field
makes the hash call raise, which gives a 500 rather than a 400.

## Model

| member | source | states |
|---|---|---|
| Text.Strip | Admin/app.py:250 | `str.strip()`: the result is an infix of the input. Only whitespace is removed from either end, and the result neither starts nor ends with whitespace |
| Text.StripIdempotent | Admin/app.py:250 | stripping an already stripped string changes nothing |
| Text.StripAllSpace | Admin/app.py:250 | a token made only of whitespace strips to the empty string |
| Text.CityToken | Admin/app.py:230-234 | the first element of `$split` on ",": a prefix of the location without a comma, ending at the first comma or at the end |
| Text.CityTokenBeforeComma | Admin/app.py:230-234 | when the text `w` before a comma has no comma, the token of `w + "," + rest` is exactly `w` |
| Text.AsciiLower | Admin/app.py:42 | lower-cases exactly the ASCII capitals and keeps the length |
| Text.LexLess | Admin/app.py:206 | the string order of `$sort`: a string is never less than itself, and a proper prefix is less than the longer string |
| Text.LexIrreflexive | Admin/app.py:206 | the string order of `$sort` is irreflexive |
| Text.LexTransitive | Admin/app.py:206 | the string order of `$sort` is transitive |
| Text.LexTotal | Admin/app.py:206 | any two different strings are ordered one way or the other |
| Text.LexAsymmetric | Admin/app.py:206 | two strings are never ordered both ways |
| Text.LexCommonPrefix | Admin/app.py:206 | a shared prefix (such as a common year and month) does not change the order |
| Aggregation.Add | Admin/app.py:237-240 | adding one document to the groups: the keys gain its key, and the total grows by one |
| Aggregation.GroupBy | Admin/app.py:237-240 | `$group` with `$sum: 1`: the counts add up to the number of documents, and the keys are exactly the values that occur |
| Aggregation.GroupBySpec | Admin/app.py:199-204 | `$group` yields distinct keys and positive counts, and each key's count is its number of occurrences |
| Aggregation.GroupCount | Admin/app.py:237-240 | every group counts exactly the documents with its key, and at least one |
| Aggregation.InsertByKey | Admin/app.py:206 | inserting a group by key keeps the other groups, the keys and the total |
| Aggregation.SortByKey | Admin/app.py:206 | `$sort: {_id: 1}` is a permutation of its input |
| Aggregation.SortByKeyAscending | Admin/app.py:206 | after `$sort: {_id: 1}`, groups with distinct keys are strictly ascending by key |
| Aggregation.InsertByCount | Admin/app.py:242 | inserting a group by count keeps the other groups, the keys and the total |
| Aggregation.SortByCountDesc | Admin/app.py:242 | `$sort: {count: -1}` is a permutation of its input |
| Aggregation.SortByCountDescSpec | Admin/app.py:242 | after `$sort: {count: -1}` the counts are non-increasing, and distinct keys stay distinct |
| Clinics.BuildDraft | Admin/app.py:121-129 | the record holds the form's values and the image URL. `status` is the form value if present, else "active", and the password is the hash of the form's password. Building fails exactly when the password field is absent |
| Clinics.MissingAmong | Admin/app.py:133 | the list comprehension: keeps exactly the listed fields whose value is absent or empty, in the listed order |
| Clinics.MissingFields | Admin/app.py:131-133 | reports exactly the required fields that are absent or empty, each once, in the order name, identifier, location, username, password; nothing is reported exactly when all five are present and non-empty |
| Clinics.PasswordCheckSeesHash | Admin/app.py:128-133 | with a password field, the password is reported missing exactly when its hash is empty |
| Clinics.NewClinic | Admin/app.py:141-142 | the inserted document holds the record's values, all required fields are non-empty, and it carries the image URL |
| Clinics.InsertKeepsUsernamesDistinct | Admin/app.py:137-142 | inserting after a failed username lookup keeps usernames unique (the unique index of line 37) |
| Clinics.View | Admin/app.py:152-160 | a listed clinic keeps every stored field but the password, and `image_url` as stored (absent is null) |
| Clinics.UsernameTaken | Admin/app.py:138 | `find_one({"username": u})` finds a document exactly when `u` is the username of a stored clinic |
| Clinics.AllowedFile | Admin/app.py:40-42 | `allowed_file`: an allowed name has a dot and at least four characters, and a name ending in a dot is refused |
| Clinics.AfterLastDot | Admin/app.py:41-42 | `rsplit('.', 1)[1]`: absent exactly when there is no dot, otherwise the dot-free suffix after the last dot |
| Clinics.LastDot | Admin/app.py:41-42 | a dot with no dot after it is where `rsplit('.', 1)` splits |
| Clinics.AllowedFileIff | Admin/app.py:40-42 | a filename is allowed exactly when the lower-cased text after its last dot is png, jpg, jpeg or gif |
| Clinics.AllowedFileUpperCase | Admin/app.py:40-42 | the extension is compared after lower-casing ("scan.PNG" is allowed) |
| Clinics.AllowedFileLastDotOnly | Admin/app.py:40-42 | only the text after the last dot counts ("scan.png.gz" is refused) |
| Stats.PlacesBound | Admin/app.py:175 | there are no more distinct locations than clinics, and there are none exactly when there are no clinics |
| Stats.Dates | Admin/app.py:176-178 | the `date` of every appointment, in order |
| Stats.Places | Admin/app.py:175 | `distinct("location")`: every clinic's location is in the set, and every member is some clinic's location |
| Stats.ComputeStats | Admin/app.py:173-185 | the counters are the number of clinics, the number of patients, the number of distinct clinic locations, and the number of appointments whose date is today. Places are at most the clinics and zero only without clinics; today's appointments are at most all appointments, and positive exactly when one is dated today |
| Stats.DatedCount | Admin/app.py:176-178 | counting today's date among the appointments' dates gives the number of appointments dated today |
| Stats.Days | Admin/app.py:201 | the creation day of every patient, in order |
| Stats.AnalyticsAscending | Admin/app.py:206 | entries are strictly ascending by day |
| Stats.AnalyticsCounts | Admin/app.py:199-204 | each entry counts exactly the patients created on its day, and at least one |
| Stats.AnalyticsDays | Admin/app.py:199-204 | a day has an entry exactly when some patient was created on it |
| Stats.AnalyticsTotal | Admin/app.py:203 | the `newPatients` values add up to the number of patients |
| Stats.Cities | Admin/app.py:228-235 | the untrimmed city token of every clinic, in order |
| Stats.Divisor | Admin/app.py:247 | `sum or 1`: at least one, and equal to the sum when the sum is positive |
| Stats.CityGroupsOrdered | Admin/app.py:237-242 | the groups have pairwise different untrimmed tokens, and their counts are non-increasing |
| Stats.CityGroupCount | Admin/app.py:237-240 | each group counts exactly the clinics whose untrimmed token is its key |
| Stats.CityGroupKeys | Admin/app.py:230-240 | a token has a group exactly when some clinic's location yields it |
| Stats.HospitalDistributionTotals | Admin/app.py:242-250 | the shares are largest first, their counts add up to the number of clinics, and each divisor is the number of clinics (one when there are none) |
| Stats.HospitalDistributionTypes | Admin/app.py:250 | every reported type is stripped, and there are shares exactly when there are clinics |
| WorkedCases.SameTypeTwoGroups | Admin/app.py:237-250 | "Lagos, NG" and " Lagos, NG" form two groups of one, both reported as "Lagos" |
| WorkedCases.LagosAbujaDistribution | Admin/app.py:228-252 | for locations "Lagos, NG", "Lagos, NG" and "Abuja, NG" the shares are Lagos 2/3, then Abuja 1/3 |
| WorkedCases.TwoGroupShares | Admin/app.py:247-252 | two groups give two shares, each over the sum of both counts |
| WorkedCases.TwoDaysAnalytics | Admin/app.py:197-215 | for patients created on 2024-01-01, 2024-01-01 and 2024-01-02 the analytics are 2024-01-01: 2, then 2024-01-02: 1 |
| Dashboard.App.constructor | Admin/app.py:35-37 | start-up on an existing store, whose usernames the admin app's unique index requires to be distinct (the demo, `Demo/app.py:14-33`, creates no index and accepts any store): the session is logged out and no upload has been made |
| Dashboard.App.Authorized | Admin/app.py:97 | the session gate: the demo always passes it, the admin app exactly when the session is logged in (also lines 192 and 224) |
| Dashboard.App.Login | Admin/app.py:45-73 | a logged-in session goes to the dashboard and a GET shows the form. A POST with an unset credential is a service error. Otherwise the session becomes logged in exactly when both submitted values equal the configured ones |
| Dashboard.App.Logout | Admin/app.py:75-79 | the admin session is logged out (the demo's flag is untouched, `Demo/app.py:36-39`), with the logged-out message |
| Dashboard.App.CreateClinic | Admin/app.py:95-148 | 401 before anything else, then the two 400s for the image, then exactly one upload. Then: an upload error, or a hash error on an absent password (500); the missing fields (400); a store error (500); a taken username (409); or a 201 that appends the new record with a fresh id. The table changes only on 201. In the admin app the unique-username invariant is kept. Without the gate this is `Demo/app.py:55-105` |
| Dashboard.App.ListClinics | Admin/app.py:150-166 | 401 without a session, 500 on a store error. Otherwise one entry per stored clinic, in store order, with every field but the password and `image_url` as stored or null |
| Dashboard.App.GetStats | Admin/app.py:170-187 | never gated; the counters of `ComputeStats`, or a 500 with the store's message |
| Dashboard.App.GetPatientAnalytics | Admin/app.py:190-220 | 401 without a session (none in `Demo/app.py:147-174`); else the analytics of the stored patients, or a 500 |
| Dashboard.App.GetHospitalDistribution | Admin/app.py:222-257 | 401 without a session (none in `Demo/app.py:176-208`); else the distribution of the stored clinics, or a 500 |

## Left out

- Flask routing, the session cookie, CORS and the secret key are not modelled. The session is the `loggedIn` flag.
- Rendered pages are not modelled: `dashboard` and `clinics_page` only render a template or redirect to the login page. Flashed messages are kept only as the text on the redirect.
- The debug `print` lines of the login handler are left out.
- The media host's behaviour is left out. Its answer is an input (`Env.upload`), and only the folder and the file sent to it are recorded.
- The local upload folder created at start-up is left out.
- The hash algorithm is left out. It is a function parameter that cannot fail on a string; hashing an absent password raises, which is `HashRaised`.
- The text of that exception is not modelled.
- Store internals are left out. A failing store is `storeFault`: the first store call of the request raises with that message. A failure of `insert_one` after a successful lookup is not told apart from a failure of the lookup.
- Concurrent requests are left out, because the model is sequential. Two concurrent creates with the same username could both pass the lookup. The admin app's unique index would then make the second insert raise, giving a 500. The demo has no such index, so there both inserts succeed and leave two clinics with the same username.
- The JSON bodies are left out. Each reply is a constructor with its status code. The missing-fields message is kept as the list of missing fields. `FieldName` gives the key of each; the message joins those keys with ", ".
- The `MAX_CONTENT_LENGTH` limit (413 for bodies over 5 MB) is not modelled, because the framework enforces it before the handler runs.
- Document ids are natural numbers handed out in increasing order. The store's ObjectId and its string form are not modelled.
- A form field sent twice is not modelled. The form is a map from field name to its first value.
- Stats.HospitalDistribution: the percentage is kept as the exact fraction `count / divisor` rather than `round(count / total * 100, 2)`, because floating point is not modelled.
- Stats.PatientAnalytics: a patient's day is given as the already formatted "YYYY-MM-DD" string. The time zone used by `$dateToString` and patients without `created_at` are not modelled.
- Stats.ComputeStats: "today" is a parameter, standing in for the server clock formatted as "YYYY-MM-DD".
- Stats.Cities: every clinic is taken to have a string `location`, as every clinic created through the handler does. A missing or non-string location, which `$split` turns into null or an error, is not modelled.
- Aggregation.SortByCountDesc: ties in count keep the order of first appearance. The store leaves the order of tied groups, and of groups out of `$group`, unspecified. The sort's property is stated for every order of ties.
- Text.AsciiLower: Python's `str.lower()` is Unicode-aware. No non-ASCII character lower-cases into one of the allowed extensions, so `allowed_file` gives the same answers.
- Text.LexLess orders strings by code point. For the "YYYY-MM-DD" keys it sorts, this is the same as the store's binary string order.
