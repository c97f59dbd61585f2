# Student and marks services, modelled in Dafny

Two small record-keeping HTTP services. The **marks service** keeps an
in-memory list `marks_db` of `{rollno, marks, created_at}` records. The
**student service** keeps `students_db` of `{rollno, name, age, created_at}`
records. Each service can list its records, look one up by roll-number, create
one and report its health. The student service also has a composite endpoint,
`GET /students/{rollno}/complete`. It looks up the local student, asks the
marks service's lookup endpoint about that roll-number, and returns the student merged with
whatever marks came back. Every failure of that remote call degrades to a null
mark, never to an error.

Layout:

- `common.dfy` (`Common`): the roll-number key and clock readings, `Option`, and
  the `Result` envelope with its error kinds `NotFound` (404), `Conflict` (409)
  and `Invalid` (400).
- `marks_service.dfy` (`MarksService`): the record type and a pure `Find` (the
  first record with a key). The lemmas about appending to a store cover the
  lookup of the new key, the lookups of every other key, and the uniqueness of
  keys. The class `MarksStore` owns `marks_db` as a `seq` field, and its
  methods are the endpoints.
- `student_service.dfy` (`StudentService`): the same for students. It also
  holds the abstract outcome of the outbound call (`RemoteOutcome`): a response
  with a status and a decoded body, an `httpx.RequestError`, or any other
  exception. The composite endpoint is the pure `CompleteView` of (store,
  roll-number, outcome), and the method `GetStudentComplete` computes it with
  the scanning loop.
- `cross_service.dfy` (`CrossService`): what the marks lookup endpoint puts on
  the wire, and what the composite view makes of it. The method
  `CreateThenComplete` walks through creating a student and their marks and
  then asking for the composite view, first with the marks service reachable
  and then with it unreachable.

Each service is self-contained, as in the source, which shares no code
between the two. So the store definitions appear once per service.

The marks range guard is written as the source writes it: a value is refused
when it is `< 0` or `> 100`, so 0 and 100 are accepted. The range check comes
before the duplicate check. Both creates append at the end and change nothing
else. Each store keeps its roll-numbers pairwise distinct (`Valid`). The seeds
satisfy this, and every successful create preserves it.

The composite endpoint's note tests the truthiness of the fetched value, not
whether a mark was attached. So a fetched mark of `0.0` is attached to the
response, yet the note reads "Marks unavailable" (`ZeroMarkNotedUnavailable`).

## Model

| member | source | states |
|---|---|---|
| MarksService.Find | marks-service/main.py:37-41 | No record is found exactly when no record has the key. Otherwise the result is the record at the first position holding the key. |
| MarksService.FindAppendNew | marks-service/main.py:92-103 | After a record with a previously absent key is appended, a lookup of that key returns the new record. |
| MarksService.FindAppendOther | marks-service/main.py:98-103 | Appending a record leaves the lookup of every other key unchanged, and also of its own key when that key was already present. |
| MarksService.AppendKeepsDistinct | marks-service/main.py:91-103 | Appending a record whose key is absent keeps the roll-numbers pairwise distinct. |
| MarksService.DistinctFindsEach | marks-service/main.py:37-41 | When keys are distinct, looking up any record's key returns that record. |
| MarksService.Seed | marks-service/main.py:18-34 | The initial `marks_db` holds three records with distinct roll-numbers. |
| MarksService.MarksStore.constructor | marks-service/main.py:18-34 | The store starts as the seed, and the seed satisfies the uniqueness invariant. |
| MarksService.MarksStore.FindMarks | marks-service/main.py:37-41 | The in-order scan with early return yields exactly `Find`. A record it returns is in the store and has the key. |
| MarksService.MarksStore.GetMarks | marks-service/main.py:72-80 | 404 with "Marks for {rollno} not found" if and only if no record has the key. Otherwise the result is the record `Find` returns. When the uniqueness invariant holds, that is the only record with the key. |
| MarksService.MarksStore.AllMarks | marks-service/main.py:64-70 | The listing is every record in insertion order, and its count is their number. |
| MarksService.MarksStore.HealthCheck | marks-service/main.py:56-62 | The status is "UP", the service is "marks-service", and `recordCount` is the length of `marks_db`. |
| MarksService.MarksStore.CreateMarks | marks-service/main.py:82-108 | A value below 0 or above 100 gives 400 whether or not the key exists, and 0 and 100 are accepted. Otherwise an existing key gives 409. Both refusals leave `marks_db` unchanged. If neither applies, exactly one record `(rollno, marks, now)` is appended at the end. The uniqueness invariant is preserved. The new key then finds the new record. The lookup of every other key is unchanged. |
| StudentService.Find | student-service/main.py:48-52 | No record is found exactly when no record has the key. Otherwise the result is the record at the first position holding the key. |
| StudentService.FindAppendNew | student-service/main.py:97-109 | After a record with a previously absent key is appended, a lookup of that key returns the new record. |
| StudentService.FindAppendOther | student-service/main.py:103-109 | Appending a record leaves the lookup of every other key unchanged, and also of its own key when that key was already present. |
| StudentService.AppendKeepsDistinct | student-service/main.py:96-109 | Appending a record whose key is absent keeps the roll-numbers pairwise distinct. |
| StudentService.DistinctFindsEach | student-service/main.py:48-52 | When keys are distinct, looking up any record's key returns that record. |
| StudentService.Seed | student-service/main.py:26-45 | The initial `students_db` holds three records with distinct roll-numbers. |
| StudentService.StudentStore.constructor | student-service/main.py:26-45 | The store starts as the seed, and the seed satisfies the uniqueness invariant. |
| StudentService.StudentStore.FindStudent | student-service/main.py:48-52 | The in-order scan with early return yields exactly `Find`. A record it returns is in the store and has the key. |
| StudentService.StudentStore.GetStudent | student-service/main.py:84-92 | 404 with "Student {rollno} not found" if and only if no record has the key. Otherwise the result is the record `Find` returns. When the uniqueness invariant holds, that is the only record with the key. |
| StudentService.StudentStore.AllStudents | student-service/main.py:76-82 | The listing is every record in insertion order, and its count is their number. |
| StudentService.StudentStore.HealthCheck | student-service/main.py:68-74 | The status is "UP", the service is "student-service", and `studentCount` is the length of `students_db`. |
| StudentService.StudentStore.CreateStudent | student-service/main.py:94-114 | An existing key gives 409 and leaves `students_db` unchanged. Otherwise exactly one record `(rollno, name, age, now)` is appended at the end, with any age accepted. The uniqueness invariant is preserved. The new key then finds the new record. The lookup of every other key is unchanged. |
| StudentService.FetchedMarks | student-service/main.py:131-145 | The value is `data.marks` only on a 200 reply whose body decodes to an object with an object `data`. A non-200 status, an undecodable or non-object body, a missing or non-object `data`, a request error or any other exception all give `None`. |
| StudentService.CompleteView | student-service/main.py:116-156 | 404 if and only if the student is absent, whatever the remote outcome. Otherwise `success` is true and `data` is the found student's fields plus the fetched marks. The note is "Marks fetched from Marks Service" exactly when the marks are truthy, and "Marks unavailable" otherwise. |
| StudentService.ZeroMarkNotedUnavailable | student-service/main.py:147-156 | A fetched mark of 0.0 is attached to the response, but the note is "Marks unavailable". |
| StudentService.StudentStore.GetStudentComplete | student-service/main.py:116-156 | The endpoint, computed with the scanning loop, equals `CompleteView` of the current store. It has no modifies clause, so `students_db` is left as it was. |
| CrossService.Reply | marks-service/main.py:72-80 | The marks endpoint always answers with a response. A found record comes back with status 200 and its `marks` as `data.marks`. An error comes back with its own status (404) and no `data`, so nothing is fetched from it. |
| CrossService.EnrichedWithStoredMarks | student-service/main.py:131-155 | With the marks service reachable and answering as `GetMarks` promises, an existing student's composite view always succeeds. Its marks are those the marks store holds for the roll-number, or null when it holds none. The note claims success exactly when a non-zero mark is held. |

## Left out

- HTTP plumbing: FastAPI routing, the `root` endpoint descriptors, request parsing and coercion by pydantic, the uvicorn start-up and its banner lines. Each handler is one atomic step on its store, and an HTTP exception is an `Err` carrying its kind and `detail.error` text.
- Response envelopes: the 201 status of both creates and their "Marks created successfully" / "Student created successfully" messages are not modelled, and the `{"success": True, "data": ...}` envelope of the two single-record lookups is dropped: those operations return the bare record in `Ok`.
- The outbound call itself: the `httpx.AsyncClient`, the 5-second timeout, the URL built from the fixed `MARKS_SERVICE_URL`, and JSON decoding. These become the `RemoteOutcome` input. A timeout is one of the `RequestError` cases, and an undecodable body is `Unparseable`. The roll-number is put into the URL unescaped, so one containing `?`, `#` or `%` makes the marks service look up a different key; the model assumes the lookup is of the same roll-number.
- The `print` logging in the two except branches of the composite endpoint.
- Concurrency: the async handlers' interleavings are not modelled.
- The clock: each `datetime.now()` reading is a `Timestamp` argument.
- Floating point: marks are `real`. NaN passes the source's range test (both comparisons are false) and would be stored; it is not modelled. Plus and minus infinity are refused by that test with 400 and are simply not representable as a `real`.
- StudentService.FetchedMarks: a `marks` member holding a JSON value that is not a number (a string, a boolean, a list) is not modelled. Only missing, null or numeric values are.
- Aliasing: the listing endpoints return the live list in the source. The model returns its value.
