# Hostel grievance API: a Dafny model of its request decisions

This project models the request handling of the hostel grievance server. Students register and file grievances about their hostel. Hostel admins list the grievances of the one hostel they manage. A bearer-token gate, `authoriseUser`, sits in front of every protected route.

The model covers:

- the gate's chain of checks: header shape, token extraction, verification, role check and principal construction;
- every route handler as a pure function from (store, request) to (store, response), with each guard, status code and message of the source, and at most one store read or write;
- the three Mongoose schemas (students, admins, grievances): their enums, required fields, defaults, normalised unique fields, and the validation and duplicate-key errors that the handlers turn into 500;
- the store as three ordered collections, plus the invariant the schemas and unique indexes keep.

bcrypt and jsonwebtoken are opaque. `Crypto.Primitives` holds four function values (`hash`, `compare`, `sign`, `verify`) that every handler using them receives as a parameter. Three things are folded into the choice of those functions: the salt drawn by `bcrypt.hash`, the signing secret, and the clock that decides token expiry. The ObjectId of a new grievance is also a parameter, because the database driver generates it. The invariant lemmas take it to be in the lower-case 24-digit form the driver generates.

Modules, leaves first:

- `Wrappers`: `Option`.
- `Messages`: the `message` texts the server sends. A response carries a tag, and `Messages.MessageText` maps each tag to its exact string.
- `Text`: JavaScript truthiness, `trim`, `toLowerCase`, the lower-case-then-trim normalisation, `startsWith`, and `split` with its inverse `Join`.
- `Crypto`: token claims and the opaque primitives.
- `Enums`: hostel, course, designation, status and category, each with a parse function.
- `StudentModel`, `AdminModel`, `GrievanceModel`: the records and what `create`/`save` accept.
- `Db`: the store, its queries and its invariant.
- `Auth`: the gate.
- `Routes`: the handlers.
- `Server`: the dispatcher from requests to handlers, behind the gate.
- `ServerProperties`: the store invariant every request keeps, and the properties that span several requests.

Decisions the source leaves implicit:

- Mongoose runs a string field's setters when it casts a query filter. So `findOne({registrationId})`, `findOne({staffId})` and the lookup by the principal's id all compare the lower-cased, trimmed key. The student login's explicit `toLowerCase().trim()` is therefore a second normalisation, which `Text.NormaliseIdempotent` shows changes nothing.
- A principal whose token lacked its id field yields a filter on `undefined`. That filter matches no stored record, because every record has the field (it is required).
- Inside a handler's `try`, three exceptions end as 500 "Server error" with the store unchanged: a schema validation failure on create/save, a duplicate `personalEmail` rejected by the unique index, and an id that does not cast to an ObjectId.
- `findByIdAndUpdate` answers with the document as it was before the update, which is the library default.
- After the gate passes, `req.user` is always set. The handlers' `if (!user)` branches are therefore unreachable and are not represented.
- The two login failures (unknown id, wrong password) both answer 401, but with different messages: "Invalid credentials" and "Wrong Password" ("Wrong password" for admins).
- The `_id` filter casts the id to an ObjectId, and the cast reads hexadecimal digits in either case. Stored ids are in the lower-case form the driver generates. So a lookup by id compares the lower-cased request id, and an upper-case spelling of a stored id finds it.

## Model

| member | source | states |
|---|---|---|
| Text.Trim | Server/src/models/studentModel.js:8 | the result is a slice of the input with no space at either end, and everything cut from either end is whitespace in the ECMAScript sense |
| Text.Normalise | Server/src/models/studentModel.js:8 | a normalised field value is the lower-cased text of the input between its leading and trailing whitespace: lower-case, trimmed, and everything cut is whitespace |
| Text.TrimOfLower | Server/index.js:135 | trimming a lower-cased string cuts exactly whitespace of the original and leaves a lower-case slice |
| Text.LowerChar | Server/index.js:135 | lower-casing keeps whitespace whitespace and maps a character to itself or to a lower-case letter |
| Text.Lower | Server/index.js:135 | `toLowerCase` works character by character and keeps the length |
| Text.LowerKeepsSpaces | Server/index.js:135 | a lower-cased character is whitespace exactly when the original is |
| Text.Falsy | Server/index.js:41-50 | the JavaScript `!x` of a body field: absent or the empty string |
| Text.Split | Server/src/middleware/auth.middleware.js:10 | `split` on a one-character separator always yields at least one piece; `Text.SplitJoin` gives its inverse |
| Text.Join | Server/src/middleware/auth.middleware.js:10 | joining pieces with the separator, the inverse `Text.SplitJoin` proves for `split` |
| Text.NormaliseIdempotent | Server/index.js:135 | normalising twice equals normalising once, so the student login's explicit lower-case-and-trim agrees with the schema's normalisation of the filter |
| Text.SplitJoin | Server/src/middleware/auth.middleware.js:10 | `split(" ")` is undone by joining with " ", and no piece contains the separator |
| Text.SplitAfterPiece | Server/src/middleware/auth.middleware.js:10 | a separator-free prefix followed by the separator becomes the first piece, and the rest splits on its own |
| Text.SplitHead | Server/src/middleware/auth.middleware.js:10 | the first piece of a split is the longest prefix without the separator |
| Text.TakeUntil | Server/src/middleware/auth.middleware.js:10 | the result is a prefix without the separator, ending at the input's end or just before a separator |
| Enums.ParseHostel | Server/src/models/studentModel.js:14 | succeeds exactly on the twelve names "A" to "L", and the name of the parsed hostel is the input |
| Enums.ParseCourse | Server/src/models/studentModel.js:9 | succeeds exactly on B.Tech, M.Tech, MCA, MSc and Phd, and the name of the parsed course is the input |
| Enums.ParseDesignation | Server/src/models/adminModel.js:9 | succeeds exactly on the four designations, and the name of the parsed designation is the input |
| Enums.ParseStatus | Server/src/models/grievance.js:11 | succeeds exactly on pending, running and completed |
| Enums.ParseCategory | Server/src/models/grievance.js:12-17 | succeeds exactly on the six categories |
| StudentModel.Build | Server/src/models/studentModel.js:6-15 | a student document is accepted iff the required strings are non-empty after casting and course and hostel are in their enums; registrationId and personalEmail are stored normalised, phoneNumber stays optional, role defaults to "student" |
| AdminModel.Build | Server/src/models/adminModel.js:6-13 | an admin document is accepted iff every field (phoneNumber included) is non-empty and designation and hostel are in their enums; staffId and personalEmail are stored normalised, role defaults to "admin" |
| GrievanceModel.Build | Server/src/models/grievance.js:3-18 | a grievance is accepted iff registrationId, hostelName, title and description are non-empty and the category is in the enum; status is always pending, category defaults to "other", images keep their order |
| Db.First | Server/index.js:54 | `findOne` returns a stored element that passes the filter, and returns nothing exactly when none does |
| Db.Where | Server/index.js:267 | `find` returns exactly the stored elements that pass the filter, each as often as it is stored |
| Db.FindStudent | Server/index.js:54 | the student found is stored and has the normalised key as registrationId; when none is found, no stored student has it |
| Db.FindAdmin | Server/index.js:104 | the admin found is stored and has the normalised key as staffId; when none is found, no stored admin has it |
| Db.FindGrievance | Server/index.js:366-367 | the grievance found is stored under the lower-cased id, and none is found exactly when no stored grievance has that id in any spelling |
| GrievanceModel.IsObjectId | Server/index.js:366-367 | an id the ObjectId cast accepts: 24 hexadecimal digits in either case |
| GrievanceModel.ObjectIdSpellings | Server/index.js:366-367 | lower-casing an ObjectId gives its printed form, and a printed form is its own lower case |
| Db.StudentAppendValid | Server/src/models/studentModel.js:6-15 | appending a schema-valid student whose registrationId and personalEmail are both new keeps the students valid and unique |
| Db.AdminAppendValid | Server/src/models/adminModel.js:6-13 | appending a schema-valid admin whose staffId and personalEmail are both new keeps the admins valid and unique |
| Db.GrievanceAppendValid | Server/src/models/grievance.js:3-18 | appending a schema-valid grievance under an unused id in printed (lower-case) form keeps the grievances valid and their ids unique |
| Db.FirstAfterMisses | Server/index.js:54-70 | after appending a record that no earlier record matches, `findOne` with that record's key returns it |
| Auth.BearerToken | Server/src/middleware/auth.middleware.js:10 | element [1] of the header split on " " is the run of non-space characters right after "Bearer " |
| Auth.Authorise | Server/src/middleware/auth.middleware.js:3-35 | an absent or non-Bearer header gives 401 "Not authorized"; a token that fails verification gives 401 "Token invalid or expired"; a role other than student/admin gives 403; `next` runs iff all three checks pass; the principal is the role plus registrationId (student) or staffId (admin) |
| Auth.IssuedTokenPasses | Server/src/middleware/auth.middleware.js:6-28 | a "Bearer " header built from a signed student or admin claim passes the gate with exactly that claim's role and id |
| Auth.TakeUntilWhole | Server/src/middleware/auth.middleware.js:10 | a token without spaces is taken whole from the header |
| Routes.RegisterStudent | Server/index.js:27-77 | a falsy field among the eight required ones gives 400 and an existing registrationId gives 400; registration succeeds (201) iff the form is complete, the id is new, the schema accepts the cast document and the normalised email is unused; a document the schema rejects and an email already taken each give 500 "Server error"; only success changes the store, appending exactly one record with the hashed password, batch = yearOfStudy, and normalised id and email |
| Routes.RegisterAdmin | Server/index.js:80-125 | the same for admins: seven required fields including phoneNumber, the staffId as identity; 201 iff complete, new staffId, accepted by the schema and unused email; a document the schema rejects and an email already taken each give 500 "Server error"; every failure leaves the store unchanged |
| Routes.LoginStudent | Server/index.js:129-160 | a falsy id or password gives 400; no student with the normalised id gives 401 "Invalid credentials"; for the student found, a failed compare gives exactly 401 "Wrong Password" and a passing compare gives 201 with that record and a token signed over only the role and stored id |
| Routes.LoginAdmin | Server/index.js:163-194 | the same outcomes for admins, looked up by normalised staffId: failed compare gives 401 "Wrong password", passing compare gives 201 with the admin found |
| Routes.StudentProfile | Server/index.js:197-224 | an admin principal gets 403; a student whose record exists gets 201 with the record whose registrationId is the principal's, normalised; 404 iff no such record |
| Routes.AdminProfile | Server/index.js:227-250 | a student principal gets 403; an admin whose record exists gets 201 with the record whose staffId is the principal's, normalised; 404 iff no such record |
| Routes.MyGrievances | Server/index.js:253-274 | an admin gets 403; a student gets exactly the grievances filed under their own registrationId, each as often as stored, and no others |
| Routes.ImagesOf | Server/index.js:299 | one image per uploaded file, in upload order, linked as "/uploads/" + filename; no images when there is no file list |
| Routes.CreateGrievance | Server/index.js:277-321 | checked in order: role (403), then title/description/category (400), then the student record (403); filing succeeds iff the caller is a stored student with a non-empty id, all three fields are present, the category is in the enum and the new id is unused; for a stored student with all three fields, an empty id, an out-of-enum category or a taken id each give 500 "Server error"; on success exactly one pending grievance is appended, with the stored student's hostel, the principal's registrationId and the uploaded images |
| Routes.HostelGrievances | Server/index.js:324-352 | non-admin, missing staffId and unknown admin each give 403; 201 iff the caller is an admin with a stored record, and then exactly the grievances whose hostelName is the stored admin's hostel, each as often as stored |
| Routes.FetchGrievance | Server/index.js:355-378 | an empty id gives 403, a non-ObjectId gives 500, an id no stored grievance has (in any spelling) gives 404; an ObjectId of a stored grievance gives 201 with that grievance, whatever the principal |
| Routes.SetStatus | Server/index.js:402-405 | only the grievance with the given id changes, and only its status |
| Routes.UpdateById | Server/index.js:402-409 | a bad id gives 500 and an unknown id gives 404, each with the store unchanged; an ObjectId of a stored grievance gives 201: the status is written and the answer carries the record as it was before the update |
| Routes.StatusOf | Server/index.js:397-398 | a status is accepted iff it is one of pending, running or completed |
| Routes.UpdateStatusAsWritten | Server/index.js:382-414 | the store never changes; a student gets 403 "Access denied" and an admin with an id always gets 403 "Invalid status" |
| Routes.UpdateStatus | Server/index.js:382-414 | with the guard corrected, the update succeeds iff the caller is an admin, the id is an existing ObjectId and the status is in the enum; then only that grievance's status changes; an admin request with an id and an enum status gets exactly `UpdateById`'s answer: 500 for an id that is not an ObjectId and 404 "Grievance not found" for an unknown one |
| Routes.StudentFormIncomplete | Server/index.js:41-50 | one of the eight required student fields is falsy; `phoneNumber` is not among them |
| Routes.CastStudent | Server/index.js:58-70 | the document `Student.create` builds from a complete form with the hashed password, or nothing when the schema rejects it |
| Routes.AdminFormIncomplete | Server/index.js:92-100 | one of the seven required admin fields is falsy; `phoneNumber` is among them |
| Routes.CastAdmin | Server/index.js:108-118 | the document `Admin.create` builds from a complete form with the hashed password, or nothing when the schema rejects it |
| Routes.StatusRejectedAsWritten | Server/index.js:398 | the status guard exactly as written: a disjunction of three inequalities |
| Text.StartsWith | Server/src/middleware/auth.middleware.js:6 | `startsWith`: the string begins with the prefix |
| Auth.BearerShaped | Server/src/middleware/auth.middleware.js:6 | the header is present, non-empty and begins with "Bearer " |
| Crypto.StudentClaims | Server/index.js:144-148 | the payload signed at student login: role "student" and the stored registrationId, nothing else |
| Crypto.AdminClaims | Server/index.js:178-182 | the payload signed at admin login: role "admin" and the stored staffId, nothing else |
| Db.Valid | Server/src/models/studentModel.js:8-11 | every stored document is schema-valid, grievance ids are lower-case ObjectIds, and registrationId, staffId, both personalEmail indexes and grievance ids are unique, as the unique indexes at studentModel.js:8,11 and adminModel.js:7,11 enforce |
| Server.Handle | Server/index.js:26-414 | a request the gate refuses gets the gate's answer; a request it lets through is answered by its route's handler with the gate's principal; every non-201 answer and every read-only route leaves the store unchanged |
| Server.Invoke | Server/index.js:197-414 | after the gate, only filing and the status update can write, and only when they answer 201 |
| ServerProperties.RegisterStudentKeepsValid | Server/index.js:54-70 | student registration keeps every student valid and registrationId and personalEmail unique |
| ServerProperties.RegisterAdminKeepsValid | Server/index.js:104-118 | admin registration keeps every admin valid and staffId and personalEmail unique |
| ServerProperties.CreateGrievanceKeepsValid | Server/index.js:300-313 | filing a grievance under a driver-generated id keeps every grievance valid and ids unique and in printed form |
| ServerProperties.SetStatusKeepsValid | Server/index.js:402-405 | rewriting statuses keeps every grievance schema-valid and every id unique |
| ServerProperties.UpdateStatusKeepsValid | Server/index.js:402-405 | a status update keeps every grievance valid and ids unique |
| ServerProperties.HandleKeepsValid | Server/index.js:26-414 | no request can break the store invariant, given that the driver generates new ids in printed form |
| ServerProperties.FiledGrievanceFetched | Server/index.js:355-373 | a grievance just filed is fetched back by its id in any spelling of the hexadecimal digits |
| ServerProperties.DuplicateStudentRefused | Server/index.js:54-56 | after a successful registration, another registration with the same normalised registrationId gets 400 whatever its other fields, and changes nothing |
| ServerProperties.DuplicateAdminRefused | Server/index.js:104-106 | after a successful registration, another registration with the same normalised staffId gets 400 and changes nothing |
| ServerProperties.RegisteredStudentLogsIn | Server/index.js:135-148 | a newly registered student logs in with the same credentials, and the token passes the gate as that student |
| ServerProperties.RegisteredAdminLogsIn | Server/index.js:169-182 | a newly registered admin logs in with the same credentials, and the token passes the gate as that admin |
| ServerProperties.LoginFailuresShareCode | Server/index.js:137-142 | an unknown id and a wrong password both get 401 |
| ServerProperties.RoleMismatchForbidden | Server/index.js:204-207 | a student principal gets 403 on every admin route and an admin principal gets 403 on every student route, with the store unchanged |
| ServerProperties.ClientHostelIgnored | Server/index.js:292-311 | a hostelName the client puts in the body has no effect on filing |
| ServerProperties.FetchIgnoresPrincipal | Server/index.js:355-373 | fetching one grievance gives the same answer to every principal |
| ServerProperties.MyGrievancesAreOwn | Server/index.js:262-269 | through the gate, a student's list holds exactly the grievances under the token's registrationId |
| ServerProperties.HostelListIsScoped | Server/index.js:331-346 | through the gate, an admin's list holds exactly the grievances of the hostel stored for that admin |
| ServerProperties.AnsweredRequestPassedGate | Server/src/middleware/auth.middleware.js:3-35 | a protected request answered with 201 was let through by the gate, and was answered by its route's handler with the gate's principal |
| ServerProperties.PassedRequestReachesHandler | Server/src/middleware/auth.middleware.js:24-30 | a request the gate lets through is answered by its route's handler, with the principal the gate built |
| ServerProperties.RegisterLoginFile | Server/index.js:27-315 | register, log in, then file with the login token: the grievance is pending, has the registered hostel and normalised id, has no images, and is appended |
| ServerProperties.StudentFoundAfterRegistering | Server/index.js:60-70 | the student just registered is the one a lookup by its stored id finds |
| ServerProperties.NewGrievanceFiled | Server/index.js:300-313 | a stored student with complete text fields and an unused id files successfully, stamped with the student's hostel |

## Findings

| source | as written | input that shows it | evidently intended | confidence | as-written member | corrected member |
|---|---|---|---|---|---|---|
| Server/index.js:398 | `status !== "pending" \|\| status !== "running" \|\| status !== "completed"` holds for every value, so every admin request with an id gets 403 "Invalid status" and the update below is dead code | any admin request, e.g. status "running" on an existing grievance | refuse only a status outside the enum, and write it otherwise | high (not executed) | Routes.UpdateStatusAsWritten | Routes.UpdateStatus |

`Server.Handle` dispatches the status route to the corrected `Routes.UpdateStatus`.

## Left out

- Express and Mongoose wiring (middleware setup, CORS, static serving of `/uploads`, the connection, `listen`) and all logging: framework plumbing with no effect on the store.
- The upload middleware `upload.array("images", 5)`: its source is not part of this model. Uploaded files appear only as the ordered list of stored file names. The five-file cap, and the error the middleware raises past it, are not modelled.
- The trailing error-handling middleware (Server/index.js:418-422): no handler's `try` lets an error reach it. It is reached only by errors of the upload and body-parsing middleware (a sixth image, a malformed JSON body), both left out.
- Server.Invoke: dispatches the status route to the corrected `Routes.UpdateStatus` rather than to the guard as written at Server/index.js:398, so `Server.Handle` does the same.
- Server.Handle: through `Server.Invoke`, dispatches the status route to the corrected `Routes.UpdateStatus`, not to the guard as written at Server/index.js:398. The as-written route, which refuses every admin request with an id, is `Routes.UpdateStatusAsWritten` (see Findings).
- bcrypt and jsonwebtoken internals, including the expiry clock: opaque functions. `Crypto.Sound` states only the round-trip facts that the login lemmas use.
- Routes.RegisterStudent: states that the stored password is the `hash` output. It does not state that this differs from the plaintext, since that is a property of bcrypt's output format and not of this code.
- Timestamps (`createdAt`, `updatedAt`): never read by any handler.
- Request bodies whose fields are JSON numbers, booleans, arrays or objects: every body field is modelled as absent or a string.
- Text.LowerChar: lower-cases ASCII and Latin-1 capitals only. Other Unicode case mappings of `toLowerCase` are not modelled.
- GrievanceModel.IsObjectId: accepts only the 24-hex-digit form. A 12-character string that the ObjectId cast might also accept is treated as a cast failure.
- Routes.SetStatus: writes every grievance with the id rather than only the first. The two are the same whenever ids are unique, which `Db.Valid` guarantees.
- Server/src/utils/sendEmail.js, generateToken.js and jwt.js: no handler calls them.
- Concurrency between requests: each request is one sequential step against the store.
