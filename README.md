# user-api request handling, modelled in Dafny

This project models the request-handling rules of `user-api`. It is a small HTTP service that
creates, lists, patches and deletes rows of a single `users` table.
The model covers:

- **The clause builder** (`Clauses`). Both the list handler and the patch handler walk the fixed
  allow-list `first_name, last_name, nickname, password, email, country`. For every key whose form
  value is non-empty they emit the fragment `field= 'value'`. The value goes in unescaped.
  The fragments go into `select * from users WHERE … AND …` or `UPDATE users SET …,… WHERE id=$1;`.
- **The handlers** (`Handlers`). Each handler is specified by a pure outcome function giving the
  status, the JSON body, the call handed to storage and the change-notification tag. Each is also
  implemented as a method on a `Service`, which records its storage calls and notification tags,
  writing to a `ResponseWriter`, which records the content type, status and body. Every method is
  proved to produce exactly its outcome.
- **Rows and serialisation** (`Users`, `Json`). The list handler scans rows in order and aborts on
  the first scan error. Its row loop is the method `Handlers.ScanRows`. That method hands the first
  scan error back to `GetUsers`, which writes the 500 exactly as the loop body does. `User.MarshalJSON` copies every field, password included, and formats both
  timestamps.
- **The integration test's requests** (`Scenarios`), worked through the model.

Storage is not modelled. The result of `db.Exec` is a parameter `reply` (`Done` or `Failed(text)`).
What `db.Query` yields is a parameter `rows`, each row either `Decoded(user)` or `ScanError(text)`.
The timestamp formatter (`time.Format(time.RFC3339)`) is a function parameter `format`.
A form is the parsed `url.Values` (key to values). `FormValue` takes its first value, or `""`.

Behaviours of the code worth stating explicitly:

- An empty list is encoded as `null`, not `[]`. `users` is a nil slice that is only appended to (main.go:145).
- A fragment is `field= 'value'`, with no space before `=` (main.go:156).
- The error from `db.Query` is discarded rather than reported (main.go:166). The model takes `rows` as given.
- A failure envelope is a Go map, so its keys are emitted sorted: `error`/`message` before `ok`.

## Model

| member | source | states |
|---|---|---|
| Clauses.Fragment | main.go:156 | the fragment is the field name, then `= '`, then the value unchanged, then a closing quote |
| Clauses.FragmentFor | main.go:155-157 | a key contributes at most one fragment, and one exactly when its form value is non-empty |
| Clauses.Fragments | main.go:151-159 | no more fragments than keys |
| Clauses.CollectFragments | main.go:154-159 | the loop that appends to `sqlStrings` yields exactly the specified fragment list |
| Clauses.FragmentsSound | main.go:154-158 | every fragment comes from a listed key with a non-empty value, with that value inserted |
| Clauses.FragmentsComplete | main.go:154-158 | every listed key with a non-empty value has its fragment in the result |
| Clauses.FragmentsConcat | main.go:154 | fragments of concatenated key lists are the concatenated fragments, so their order follows the allow-list, not the input |
| Clauses.FragmentsDependOnlyOnKeys | main.go:155 | forms that agree on the listed keys give the same fragments |
| Clauses.OtherKeysIgnored | main.go:191-199 | a key outside the allow-list never changes the fragments, whatever its value |
| Clauses.EmptyValueSkipped | main.go:195 | a key supplied with an empty value gives the same fragments as an absent key |
| Clauses.FragmentsEmptyIff | main.go:200 | there are no fragments iff every listed key's value is empty |
| Clauses.FragmentsSplitAt | main.go:154-158 | the fragments are those of the keys before position i, then key i's own, then those of the keys after it |
| Clauses.AddedFieldInsertsOneFragment | main.go:154-158 | supplying one more distinct key inserts exactly its fragment at its list position and keeps every other fragment |
| Clauses.AddedFilterAddsConjunct | main.go:161-165 | adding one filter field to a list request adds exactly one conjunct to the WHERE clause |
| Clauses.JoinLength | main.go:164 | joining n >= 1 fragments inserts exactly n - 1 separators |
| Clauses.JoinConcat | main.go:205 | joining two non-empty lists puts exactly one separator between their joins |
| Clauses.ListStatement | main.go:161-165 | the query is exactly `select * from users` iff there are no fragments; otherwise it is the WHERE prefix followed by the fragments joined by ` AND ` |
| Clauses.UpdateStatement | main.go:205 | the statement is `UPDATE users SET `, the fragments joined by `,`, then ` WHERE id=$1;` |
| Json.FailureEnvelope | main.go:120 | a failure body has exactly the keys `key` and `ok`, in that order, with `ok` false and `key` carrying the text |
| Users.MarshalUser | main.go:69-82 | every field is copied unchanged, password included, and both timestamps go through the formatter |
| Users.EncodeUserLayout | main.go:43-53 | a serialised user has exactly the table's columns as keys, in scan order, and a lookup of each column finds its own member |
| Users.EncodeUserFields | main.go:70-80 | each column of a serialised user carries the user's value unchanged, password included, with both timestamps formatted |
| Users.EncodeUserInjective | main.go:70-80 | two users that serialise alike agree on every non-time field, and are equal when the formatter is injective |
| Users.ScanAll | main.go:168-176 | a successful scan yields exactly one user per row |
| Users.ScanAllMeaning | main.go:168-176 | the scan succeeds iff every row decodes, and then yields every row's user in order; otherwise it reports the first failing row's error |
| Users.ScanErrorSticks | main.go:170-174 | once a row has failed, later rows change nothing |
| Users.ScanStep | main.go:169-175 | one turn of the row loop: a failing row decides the scan, and a decoded row is appended |
| Users.UsersBody | main.go:179 | the body is `null` iff no user was gathered, else an array holding each user's serialisation in order |
| Handlers.CreateArgs | main.go:117 | the i-th insert parameter is the form value of the i-th allow-listed field |
| Handlers.CreateOutcome | main.go:108-126 | 400 with `email is required.` and no storage call iff email is empty; otherwise the insert is executed; 500 with the error text and no notification on failure; 201, `{ok:true}` and exactly one `created` on success |
| Handlers.ListOutcome | main.go:138-180 | always queries with the statement built from the allow-listed filters, never notifies, and answers 200 or 500 |
| Handlers.ListOutcomeMeaning | main.go:168-179 | 200 iff every row decodes, with the users in row order (`null` for no rows); otherwise 500 with the first failing row's error |
| Handlers.PatchOutcome | main.go:183-213 | 400 with the "did not provide any fields" message and no storage call iff no listed field is non-empty; otherwise the update statement runs with the path id as its only parameter; 500 with the error text on failure; 200, `{ok:true}` and exactly one `updated` on success |
| Handlers.DeleteOutcome | main.go:216-227 | always executes the delete with the path id; 200 iff storage succeeds, then `{ok:true}` and exactly one `deleted`; otherwise 500 with the error text |
| Handlers.BuildListQuery | main.go:151-165 | the filter loop and the if/else on the fragment count produce exactly the specified list query |
| Handlers.Service.UsersChanged | main.go:230-233 | the notification appends its tag to the event log and touches nothing else |
| Handlers.Service.CreateUser | main.go:108-126 | writes exactly the create outcome's status and body, and extends the call and event logs by its call and tag |
| Handlers.ScanRows | main.go:168-176 | the row loop gives the users of every row in order, or the first failing row's error; its invariant is "the users so far are the scan of the rows so far" |
| Handlers.Service.GetUsers | main.go:138-180 | writes exactly the list outcome, records the query, and fires no notification |
| Handlers.Service.PatchUser | main.go:183-213 | writes exactly the patch outcome and extends the call and event logs by its call and tag |
| Handlers.Service.DeleteUser | main.go:216-227 | writes exactly the delete outcome and extends the call and event logs by its call and tag |
| Scenarios.AllowListFragments | main.go:151-153 | the builder over the allow-list is the six keys' contributions in list order |
| Scenarios.ListWithoutFilter | test/integration/k6.js:20-28 | no query parameters select every row with the plain `select * from users` |
| Scenarios.ListFiltersInAllowListOrder | test/integration/k6.js:38-46 | `country=USA&first_name=Hulk` gives the first_name conjunct before the country conjunct |
| Scenarios.FilterValueEmbeddedVerbatim | main.go:156 | any non-empty filter value, quotes included, appears verbatim in the query |
| Scenarios.CreateRequests | test/integration/k6.js:57-72 | an empty create is rejected with 400 before storage; an email-only create inserts empty strings for the other fields |
| Scenarios.PatchWithoutFields | test/integration/k6.js:84-89 | an empty patch is rejected with 400 before storage |
| Scenarios.PatchThreeFields | test/integration/k6.js:91-101 | three fields are set in allow-list order, with id `5` as the parameter |
| Scenarios.DeleteRejectedByStorage | test/integration/k6.js:110-116 | a non-numeric id is passed to storage as given, and its error answers 500 |

## Left out

- `main()` is left out: environment variables, the connection pool, routing, the server goroutine, signals and graceful shutdown. These are process lifecycle, I/O and concurrency.
- `HealthCheckHandler` and `pkg/version/version.go` are left out. They only report build-time strings.
- SQL semantics are left out: which rows a WHERE clause selects, email uniqueness, and how ids are parsed. Storage results are opaque inputs (`reply`, `rows`), so "fewer rows as filters are added" is proved only as "one more conjunct" (`Clauses.AddedFilterAddsConjunct`).
- Errors from `db.Query`, and errors ending `rows.Next` early, are not inspected by the service. The model takes the yielded rows as given.
- The byte output of `encoding/json` is left out, including the trailing newline of `Encode`. Bodies are modelled as JSON values.
- RFC 3339 timestamp formatting is left out. The formatter is an uninterpreted function parameter.
- The log line written by `UsersChanged` is left out. Only its tag is recorded.
- `ParseForm` is left out: merging body and query values and decoding them. Its result is the `Form` input.
- Headers other than `Content-Type` are left out.
