# Vis4Teacher: the request layer, the student upload panel and the score import

Vis4Teacher is a teaching dashboard: a React front end talks to a Django back end, and a
seeding script fills the database from JSON exports. This project models three parts of it
in Dafny and proves what they promise.

- **The request layer of the front end** (`vis-core-fe/src/services/api.js`). The
  browser-local token store holds three entries: `access_token`, `refresh_token` and
  `user_data`. It is modelled as the class `TokenStore.Store`. The network is
  `Http.Network`: it logs every request sent, and an oracle `respond(k, request)` answers
  the k-th request. `apiRequest` builds the headers, sends the request and, on a 401 to a
  request that carried a token, tries one refresh and, only when that succeeds, replays the
  request once. It then turns the final
  reply into a value or a thrown error message. It is specified by the function
  `RequestLayer.ApiSpec`, and the method `RequestLayer.ApiRequest` is proved to do exactly
  what that function says. `refreshAuthToken` follows the same pattern with `RefreshSpec`.
  The façades `login`, `register` and `logout` sit on top (`AuthApi`), and so does
  `classAPI.uploadStudents` (`ClassApi`).
  The error messages of non-2xx replies are built by `ErrorNormalizer`. `searchStudents`
  is the pure function `StudentSearch.SearchStudents`, applied once the class list and
  each class's students have been fetched.
- **The student upload panel** (`vis-core-fe/src/components/UploadStudents.jsx`). A
  selected file is screened by extension and then by size. An accepted file is sent with
  `uploadStudents`, while the fields `isUploading`, `error` and `uploadResult` track the
  request (`Upload.Panel`).
- **The score import of the seeding script** (`Vis4T_be/init_db.py`, lines 192-295). For
  each class, the script builds lookup dictionaries of subjects. It resolves each score
  row's subject name, first by exact match and then by partial match. It then queues one
  record and one relationship pair for every usable row (`ScoreImport`). Its database
  reads become inputs, and the model ends at the two batch lists handed to `bulk_create`.

JavaScript and Python semantics that the results depend on are written out. These
include truthiness, `String(value)`, `Array.prototype.join`, how `localStorage.setItem`
renders `undefined`, `str.strip()`, `str.lower()`, substring tests, `endsWith`, and the
insertion order of dictionaries.

`getUserData` hands the stored text to `JSON.parse`, which throws on malformed text;
`TokenStore.UserData` yields the parser's `SyntaxError`.

## Model

| member | source | states |
|---|---|---|
| Text.ContainsIff | vis-core-fe/src/services/api.js:357-358 | the substring test `includes` holds exactly when the needle occurs at some offset of the text |
| Text.EndsWithIff | vis-core-fe/src/components/UploadStudents.jsx:15 | `endsWith` holds exactly when the text is some string followed by the suffix |
| Text.Lower | vis-core-fe/src/services/api.js:355 | lower-casing keeps the length and maps every character by itself, turning A-Z into a-z |
| Text.Trim | vis-core-fe/src/services/api.js:355 | trimming yields a contiguous slice of the input that neither starts nor ends with whitespace, and only whitespace was cut |
| Json.Lookup | vis-core-fe/src/services/api.js:100-104 | a property read finds a value exactly when the object has an entry with that key, and the value is that entry's |
| Json.OwnEntries | vis-core-fe/src/services/api.js:106-108 | `Object.entries` gives an object's own entries in order, and for an array one `(index, element)` pair per element, the index written in decimal |
| Http.Network.Fetch | vis-core-fe/src/services/api.js:57 | a fetch appends the request to the log and returns the oracle's answer for its position |
| ErrorNormalizer.FieldTexts | vis-core-fe/src/services/api.js:108-111 | one `field: m1, m2` text per entry, in entry order |
| ErrorNormalizer.ErrorPrecedence | vis-core-fe/src/services/api.js:74-117 | a non-JSON or unparsable body gives `Server error N: statusText`. A JSON `null` body gives the TypeError of reading `detail`. For an object: a truthy `detail`, then `message`, then `non_field_errors` joined with ", " (or the TypeError of `join` when it is not an array), then every field, then `HTTP error! status: N` when it has no fields. An array lists its items as `index: text`, or gives `HTTP error! status: N` when empty. A string, number or boolean gives `HTTP error! status: N` |
| ErrorNormalizer.JoinHasPart | vis-core-fe/src/services/api.js:113 | every part of a joined list occurs in the joined text |
| ErrorNormalizer.EveryFieldNamed | vis-core-fe/src/services/api.js:106-114 | for a validation-error object, the message names every field as `field: ` |
| ErrorNormalizer.DetailExample | vis-core-fe/src/services/api.js:100-101 | a truthy `detail` is the whole message |
| ErrorNormalizer.NonFieldExample | vis-core-fe/src/services/api.js:104-105 | `non_field_errors` ["a", "b"] gives "a, b" |
| ErrorNormalizer.FieldsExample | vis-core-fe/src/services/api.js:106-114 | two field errors give "field1: x; field2: y, z" |
| ErrorNormalizer.HtmlIsNotJson | vis-core-fe/src/services/api.js:80 | a `text/html` content type does not count as JSON |
| ErrorNormalizer.HtmlPageExample | vis-core-fe/src/services/api.js:79-89 | a 500 with an HTML page gives `Server error 500: statusText`, whatever the body |
| TokenStore.Store.SetTokens | vis-core-fe/src/services/api.js:9-12 | both tokens are overwritten and the profile entry is kept |
| TokenStore.Store.SetAccessToken | vis-core-fe/src/services/api.js:246 | only the access token changes |
| TokenStore.Store.SetUserData | vis-core-fe/src/services/api.js:22-24 | only the profile entry changes |
| TokenStore.Store.RemoveTokens | vis-core-fe/src/services/api.js:15-19 | all three entries are removed, whatever they held |
| TokenStore.Store.IsAuthenticated | vis-core-fe/src/services/api.js:219-222 | true exactly when a non-empty access token is stored |
| TokenStore.Store.GetUserData | vis-core-fe/src/services/api.js:27-30 | `null` when the profile entry is missing or empty, otherwise what the parser makes of the stored text, a `SyntaxError` included |
| RequestLayer.BuildHeaders | vis-core-fe/src/services/api.js:37-54 | caller headers win; otherwise `Content-Type: application/json` exactly when the body is not a form, and `Authorization: Bearer <token>` exactly when a non-empty token is stored; no other header |
| RequestLayer.RefreshSpec | vis-core-fe/src/services/api.js:230-255 | no refresh token: false and no request; otherwise one refresh request; true exactly for a 2xx reply whose body parses to a non-null value, and then the reply's `access`, as `setItem` renders it, is the new access token; only the access token can change, and only on success |
| RequestLayer.ApiSpec | vis-core-fe/src/services/api.js:33-136 | one to three requests; without a 401 to a tokened request, one request, the store untouched and the reply settled; after such a 401, a refresh request goes out exactly when a refresh token is stored, and the replay goes out exactly when `RefreshSpec` reports success, with the store `RefreshSpec` leaves and the new token in its header, and its outcome is final; otherwise every entry is cleared and the call throws "Authentication failed" |
| RequestLayer.SingleRetry | vis-core-fe/src/services/api.js:60-72 | 401, a successful refresh, then 401 again: exactly three requests and the second 401 surfaces as an error, with no second refresh |
| RequestLayer.SuccessResults | vis-core-fe/src/services/api.js:120-131 | a 204 gives `{ success: true }` whatever its body; a JSON 2xx gives its parsed body; any other 2xx gives `{ success: true }` |
| RequestLayer.RefreshAuthToken | vis-core-fe/src/services/api.js:231-255 | the method's result, new store and sent requests are those of `RefreshSpec` |
| RequestLayer.ApiRequest | vis-core-fe/src/services/api.js:33-136 | the method's result, new store and sent requests are those of `ApiSpec` |
| AuthApi.SessionSpec | vis-core-fe/src/services/api.js:141-187 | the same requests as the underlying call; errors are rethrown with their message or the fallback text, never empty; a `null` response throws; truthy `tokens` store both tokens and the profile, anything else keeps the store |
| AuthApi.LogoutSpec | vis-core-fe/src/services/api.js:190-204 | the store ends cleared on every path; a request is sent exactly when a refresh token is stored, and it carries that token |
| AuthApi.LoginEstablishesSession | vis-core-fe/src/services/api.js:141-157 | after a login whose response carries a non-empty access token, the user is authenticated and reading the profile back gives the one the server sent |
| AuthApi.Login | vis-core-fe/src/services/api.js:141-157 | result, store and requests are those of `SessionSpec` with fallback "Login failed" |
| AuthApi.Register | vis-core-fe/src/services/api.js:160-187 | result, store and requests are those of `SessionSpec` on the six cleaned fields, with fallback "Registration failed" |
| AuthApi.Authenticate | vis-core-fe/src/services/api.js:141-156 | the shared body of login and register agrees with `SessionSpec` |
| AuthApi.Logout | vis-core-fe/src/services/api.js:190-204 | store and requests are those of `LogoutSpec` |
| ClassApi.UploadIsMultipart | vis-core-fe/src/services/api.js:313-323 | no upload request, first or replayed, carries a JSON content type; the first carries a bearer token exactly when one is stored |
| ClassApi.UploadStudents | vis-core-fe/src/services/api.js:313-323 | result, store and requests are those of `ApiSpec` for a form POST to `/api/classes/<name>/upload-students/` |
| StudentSearch.Tag | vis-core-fe/src/services/api.js:347-352 | every student of a class, in order, with that class's name set |
| StudentSearch.FilterMatches | vis-core-fe/src/services/api.js:356-358 | a student is kept exactly when it is in the list and its id or name contains the query |
| StudentSearch.FilterMatchesAppend | vis-core-fe/src/services/api.js:356-358 | filtering keeps order and repeats: filtering a concatenation concatenates the filtered parts, and one student is kept exactly when it matches |
| StudentSearch.SearchStudents | vis-core-fe/src/services/api.js:336-359 | the result is the front of the matching students in class order, then student order, of length ten or the number of matches when that is smaller; each result is a matching student of some class |
| StudentSearch.FlattenMembership | vis-core-fe/src/services/api.js:341-352 | a student is in the flattened list exactly when it was fetched for some class and carries that class's name |
| StudentSearch.FlattenAppend | vis-core-fe/src/services/api.js:347-352 | the students of earlier classes come before those of later classes |
| StudentSearch.FailedClassIsIsolated | vis-core-fe/src/services/api.js:341-344 | a class whose student fetch failed changes nothing: the result equals the search over the other classes alone |
| ScoreImport.DictPutKeys | Vis4T_be/init_db.py:217-226 | assigning a key keeps the keys and their order when the key exists, and appends it otherwise |
| ScoreImport.DictPutGet | Vis4T_be/init_db.py:217-226 | after an assignment the key reads the new value and every other key reads as before |
| ScoreImport.SubjectDictOfSpec | Vis4T_be/init_db.py:217-226 | the lookup dictionary maps each stripped, lower-cased name to the last subject carrying it, with keys in first-occurrence order |
| ScoreImport.SubjectDictKeysDistinct | Vis4T_be/init_db.py:223-226 | no key appears twice in a lookup dictionary |
| ScoreImport.FirstPartial | Vis4T_be/init_db.py:261-265 | nothing exactly when no key contains the name or is contained in it; otherwise the subject of the first such key in iteration order |
| ScoreImport.PartialMatch | Vis4T_be/init_db.py:261-265 | the loop with its `break` finds what `FirstPartial` specifies |
| ScoreImport.ResolutionOrder | Vis4T_be/init_db.py:250-265 | a class subject with the same key wins; then the last subject of all with that key; then the first partial match |
| ScoreImport.ResolveSubject | Vis4T_be/init_db.py:253-265 | the three lookups in sequence give what `Resolve` specifies |
| ScoreImport.ImportRows | Vis4T_be/init_db.py:245-280 | the row loop builds the batch `RowsBatch` specifies, stopping at a row without `subject_name` |
| ScoreImport.ImportEntries | Vis4T_be/init_db.py:238-280 | the loop over the score file builds the batch `EntriesBatch` specifies, skipping unknown students |
| ScoreImport.ImportClass | Vis4T_be/init_db.py:216-280 | the lookup dictionaries and the loop give the class's batch |
| ScoreImport.JoinPrefixCrashed | Vis4T_be/init_db.py:238-250 | once the script dies, later students of the file change nothing |
| ScoreImport.RowsPrefixCrashed | Vis4T_be/init_db.py:245-250 | once the script dies, later rows change nothing |
| ScoreImport.JoinPaired | Vis4T_be/init_db.py:273-280 | appending two batches whose record and pair lists line up keeps them lined up |
| ScoreImport.RowsBatchSound | Vis4T_be/init_db.py:245-280 | one student's records and pairs line up one to one, and every record is queued by a row with a non-negative score, a resolving name and a pair not yet stored |
| ScoreImport.RowsBatchComplete | Vis4T_be/init_db.py:245-280 | unless the script died, every usable row of the student has its record in the batch |
| ScoreImport.EntriesPaired | Vis4T_be/init_db.py:273-280 | a class's record list and pair list line up one to one |
| ScoreImport.EntriesBatchSound | Vis4T_be/init_db.py:238-280 | every record of a class's batch comes from a usable row of a student known to the class |
| ScoreImport.EntriesBatchComplete | Vis4T_be/init_db.py:238-280 | unless the script died, every usable row of every known student has its record in the class's batch |
| ScoreImport.RepeatedRowQueuedTwice | Vis4T_be/init_db.py:271-280 | the existence check consults only stored pairs, so a row repeated in one file is queued twice |
| ScoreImport.UnloadedClassSkipped | Vis4T_be/init_db.py:195-214 | a class that is missing, has no score file or has invalid JSON leaves no trace in the result |
| ScoreImport.ImportAll | Vis4T_be/init_db.py:195-295 | the loop over classes gives what `AllBatches` specifies |
| ScoreImport.ClassesAfterDeath | Vis4T_be/init_db.py:195-295 | once the script dies, later classes are never processed |
| Upload.AllowedNameIff | vis-core-fe/src/components/UploadStudents.jsx:15 | a name is allowed exactly when it is some stem followed by ".xlsx" or ".csv" |
| Upload.Screen | vis-core-fe/src/components/UploadStudents.jsx:11-27 | no file is ignored; a file is accepted exactly when its name is allowed and its size is at most 10 MiB; every refusal carries one of the two messages |
| Upload.ExtensionCheckedFirst | vis-core-fe/src/components/UploadStudents.jsx:15-24 | a file of the wrong type gets the extension message whatever its size |
| Upload.SizeMessageIff | vis-core-fe/src/components/UploadStudents.jsx:20-24 | the size message goes exactly to files with an allowed name above 10 MiB |
| Upload.SizeBoundInclusive | vis-core-fe/src/components/UploadStudents.jsx:21 | exactly 10 MiB is accepted and one byte more is refused |
| Upload.UpperCaseExtensionRefused | vis-core-fe/src/components/UploadStudents.jsx:15 | the extension check is case-sensitive: "scores.XLSX" is refused |
| Upload.ShownError | vis-core-fe/src/components/UploadStudents.jsx:49 | the shown error is never empty, and it is the thrown message whenever that is not empty |
| Upload.UploadBracketed | vis-core-fe/src/components/UploadStudents.jsx:29-53 | after an upload the panel is not uploading; it shows a non-empty error exactly when the call or the `onUploadSuccess` callback threw; a failed call leaves no result, a successful one is shown even if the callback then throws; the callback receives the result exactly when one was passed and the call succeeded |
| Upload.Panel.constructor | vis-core-fe/src/components/UploadStudents.jsx:4-7 | a new panel for a class and an optional `onUploadSuccess` is idle, with no error and no result |
| Upload.Panel.UploadFile | vis-core-fe/src/components/UploadStudents.jsx:29-53 | when the request goes out the panel is uploading with error and result cleared; afterwards its state is what `Settled` gives for the call's result and the callback's outcome, and the store and the requests are those of `ApiSpec` |
| Upload.Panel.HandleFileSelect | vis-core-fe/src/components/UploadStudents.jsx:11-27 | an ignored file changes nothing; a refused file only sets the error and sends nothing; an accepted file is uploaded as `UploadFile` states |

## Left out

- `Text.Lower` lower-cases ASCII letters only; JavaScript `toLowerCase` and Python `lower` also map non-ASCII letters, which the model keeps unchanged.
- `JSON.parse` and `JSON.stringify` of the cached profile are parameters (`parse`, `stringify`), and reading a reply body is part of the oracle's reply (`Parse`). JSON text is not modelled.
- JSON numbers are integers in the model. Only their rendering by `String(value)` matters here, and fractional numbers are not rendered.
- Engine-generated `TypeError` texts (reading a property of `null`, calling `join` on a non-array) are fixed strings in the V8 wording.
- `window.location.href = '/login'` after a failed refresh, and every `console.error` call, are left out. They are browser and console effects with no bearing on the returned values or the store.
- `import.meta.env.VITE_API_URL` is not modelled. The base URL is the default `http://localhost:8000`.
- Header names are compared case-sensitively. The `Headers` object of a real `fetch` ignores case.
- `Json.OwnEntries` lists an object's keys in the order the model stores them. The engine lists integer-like keys first, so a validation-error object with such keys can name its fields in another order.
- `StudentSearch.SearchStudents` takes the class list and every class's fetch outcome as inputs. The `getClasses` and `getClassStudents` calls it makes, their concurrency under `Promise.all`, and a class list that is not an array are not modelled. A failed fetch is an empty list, as the `.catch(() => [])` makes it.
- `Json.Lookup` returns the first entry with a key. `JSON.parse` keeps the last value of a repeated key, so a parsed object has each key once; the model does not enforce that on `JObj`.
- The other façades (`getProfile`, `updateProfile`, `healthCheck`, the class and dashboard calls) are plain `apiRequest` calls, so `RequestLayer.ApiSpec` covers them. They are not modelled one by one. `getCurrentUser` sends no request: it returns `getUserData()`, which is `TokenStore.Store.GetUserData`.
- `StudentSearch.SearchStudents` takes each class's outcome as a failed fetch or a list of students. A fetch that resolves to a value that is not an array, such as the `{ success: true }` a 204 or non-JSON reply yields, is not modelled. There `.map` throws, so the whole search rejects instead of leaving that class out.
- `ScoreImport`: `bulk_create`, the many-to-many `add`, their exception handler and every print are left out. The model ends at the two lists the script hands to them.
- `ScoreImport`: the other seeding steps of the script (users, classes, subjects, students) are left out. The per-class database reads are inputs.
- `ScoreImport`: a `score_10` that is JSON `null` makes Python raise a `TypeError` at the comparison with 0. The model has only missing or numeric scores, and scores are exact reals rather than floats.
- `Upload.Panel`: the drag-highlight state, the file-input reset after success, the disabled input while uploading and the rendering are left out. A selected file reaches `HandleFileSelect` by whichever route it arrives.
- `Upload.Panel`: the `File` object is reduced to its name and size. The form carries the name in place of the file contents.
