/** The student service: an in-memory list of student records keyed by
    roll-number, with lookup, listing, health and create endpoints, and a
    composite lookup that merges in the marks the marks service reports. */
module StudentService {
  import opened Common

  /** One entry of `students_db`. */
  datatype StudentRecord = StudentRecord(rollno: RollNo, name: string, age: int, createdAt: Timestamp)

  /** The body of `GET /health`. */
  datatype Health = Health(status: string, service: string, studentCount: nat)

  /** The body of `GET /students`. */
  datatype Listing = Listing(success: bool, count: nat, data: seq<StudentRecord>)

  /** A student record with the marks value merged in (`None` is JSON null). */
  datatype StudentComplete =
    StudentComplete(rollno: RollNo, name: string, age: int, createdAt: Timestamp, marks: Option<real>)

  /** The body of `GET /students/{rollno}/complete`. */
  datatype CompleteResponse = CompleteResponse(success: bool, data: StudentComplete, note: string)

  /** The `data` member of a decoded reply body: missing, present but not an
      object (so `.get` fails), or an object whose `marks` is missing or null
      (`None`) or a number. */
  datatype DataField = DataAbsent | DataNotObject | DataObject(marks: Option<real>)

  /** A reply body as `response.json()` sees it. */
  datatype Body = Unparseable | NotAnObject | Object(data: DataField)

  /** What the outbound `GET {MARKS_SERVICE_URL}/marks/{rollno}` came back
      with: a response, an `httpx.RequestError` (connection failure, timeout),
      or any other exception raised while sending it. */
  datatype RemoteOutcome = Response(status: int, body: Body) | RequestError | OtherError

  const DuplicateMessage := "Student already exists"
  const FetchedNote := "Marks fetched from Marks Service"
  const UnavailableNote := "Marks unavailable"

  function NotFoundMessage(rollno: RollNo): string {
    "Student " + rollno + " not found"
  }

  /** Some record of `db` has key `rollno`. */
  ghost predicate HasKey(db: seq<StudentRecord>, rollno: RollNo) {
    exists i :: 0 <= i < |db| && db[i].rollno == rollno
  }

  /** `i` is the position of the first record of `db` with key `rollno`. */
  ghost predicate IsFirstMatch(db: seq<StudentRecord>, rollno: RollNo, i: int) {
    0 <= i < |db| && db[i].rollno == rollno &&
    forall j :: 0 <= j < i ==> db[j].rollno != rollno
  }

  /** No two records of `db` share a roll-number. */
  ghost predicate DistinctKeys(db: seq<StudentRecord>) {
    forall i, j :: 0 <= i < j < |db| ==> db[i].rollno != db[j].rollno
  }

  /** What `find_student` answers for `db`: the first record with the key, or None. */
  function Find(db: seq<StudentRecord>, rollno: RollNo): (r: Option<StudentRecord>)
    ensures r.None? <==> !HasKey(db, rollno)
    ensures r.Some? ==> exists i :: IsFirstMatch(db, rollno, i) && db[i] == r.value
  {
    if |db| == 0 then None
    else if db[0].rollno == rollno then
      assert IsFirstMatch(db, rollno, 0);
      Some(db[0])
    else
      var r := Find(db[1..], rollno);
      assert HasKey(db[1..], rollno) <==> HasKey(db, rollno) by {
        if HasKey(db, rollno) {
          var i :| 0 <= i < |db| && db[i].rollno == rollno;
          assert db[1..][i - 1].rollno == rollno;
        }
      }
      assert r.Some? ==> exists i :: IsFirstMatch(db, rollno, i) && db[i] == r.value by {
        if r.Some? {
          var i :| IsFirstMatch(db[1..], rollno, i) && db[1..][i] == r.value;
          assert IsFirstMatch(db, rollno, i + 1);
        }
      }
      r
  }

  /** Appending a record with a fresh key makes that key find the new record. */
  lemma {:induction false} FindAppendNew(db: seq<StudentRecord>, rec: StudentRecord)
    requires !HasKey(db, rec.rollno)
    ensures Find(db + [rec], rec.rollno) == Some(rec)
  {
    if |db| > 0 {
      assert (db + [rec])[1..] == db[1..] + [rec];
      FindAppendNew(db[1..], rec);
    }
  }

  /** Appending a record changes no lookup except that of its own, previously absent, key. */
  lemma {:induction false} FindAppendOther(db: seq<StudentRecord>, rec: StudentRecord, rollno: RollNo)
    requires rollno != rec.rollno || HasKey(db, rollno)
    ensures Find(db + [rec], rollno) == Find(db, rollno)
  {
    if |db| > 0 && db[0].rollno != rollno {
      assert (db + [rec])[1..] == db[1..] + [rec];
      FindAppendOther(db[1..], rec, rollno);
    }
  }

  /** Appending a record with a fresh key keeps the keys pairwise distinct. */
  lemma AppendKeepsDistinct(db: seq<StudentRecord>, rec: StudentRecord)
    requires DistinctKeys(db) && !HasKey(db, rec.rollno)
    ensures DistinctKeys(db + [rec])
  {
  }

  /** In a store with distinct keys every record is what a lookup of its key returns. */
  lemma DistinctFindsEach(db: seq<StudentRecord>, i: int)
    requires DistinctKeys(db) && 0 <= i < |db|
    ensures Find(db, db[i].rollno) == Some(db[i])
  {
  }

  /** The records the service starts with, stamped with the three clock readings taken. */
  function Seed(t0: Timestamp, t1: Timestamp, t2: Timestamp): (db: seq<StudentRecord>)
    ensures |db| == 3 && DistinctKeys(db)
  {
    [ StudentRecord("B25AI2113", "Ravi varman", 16, t0),
      StudentRecord("B25AI2114", "Rahul Kumar", 17, t1),
      StudentRecord("B25AI2115", "Priya Sharma", 16, t2) ]
  }

  /** A 200 reply whose body decodes to an object whose `data` is an object. */
  predicate DeliversData(outcome: RemoteOutcome) {
    outcome.Response? && outcome.status == 200 && outcome.body.Object? && outcome.body.data.DataObject?
  }

  /** The marks value `get_student_complete` keeps from the remote call:
      `data.marks` of the body when the status is 200 and the body decodes to
      an object whose `data` is an object; `None` on every other path (a
      non-200 status, an undecodable body, a missing or non-object `data`, a
      missing or null `marks`, a request error, any other exception). */
  function FetchedMarks(outcome: RemoteOutcome): (m: Option<real>)
    ensures m.Some? ==> outcome.Response? && outcome.status == 200
    ensures DeliversData(outcome) ==> m == outcome.body.data.marks
    ensures !DeliversData(outcome) ==> m == None
  {
    match outcome
    case Response(status, body) =>
      if status == 200 then
        match body
        case Object(DataObject(marks)) => marks
        case _ => None
      else None
    case RequestError => None
    case OtherError => None
  }

  /** Python truthiness of the fetched value: None and 0.0 are false. */
  predicate Truthy(m: Option<real>) {
    m.Some? && m.value != 0.0
  }

  /** The note attached to a composite response. */
  function Note(m: Option<real>): string {
    if Truthy(m) then FetchedNote else UnavailableNote
  }

  /** The student's own fields followed by `marks`. */
  function Merge(s: StudentRecord, m: Option<real>): StudentComplete {
    StudentComplete(s.rollno, s.name, s.age, s.createdAt, m)
  }

  /** `get_student_complete` as a function of the store, the key and what the
      remote call came back with: 404 exactly when the student is absent,
      whatever the remote outcome; otherwise a successful response carrying
      the student's fields, the fetched marks or null, and a note. */
  function CompleteView(db: seq<StudentRecord>, rollno: RollNo, outcome: RemoteOutcome): (r: Result<CompleteResponse>)
    ensures r.Err? <==> !HasKey(db, rollno)
    ensures r.Err? ==> r == Err(NotFound, NotFoundMessage(rollno))
    ensures r.Ok? ==> r.value.success
    ensures r.Ok? ==> Find(db, rollno) == Some(StudentRecord(rollno, r.value.data.name, r.value.data.age, r.value.data.createdAt))
    ensures r.Ok? ==> r.value.data.rollno == rollno && r.value.data.marks == FetchedMarks(outcome)
    ensures r.Ok? ==> (r.value.note == FetchedNote <==> Truthy(r.value.data.marks))
    ensures r.Ok? ==> (r.value.note == UnavailableNote <==> !Truthy(r.value.data.marks))
  {
    match Find(db, rollno)
    case None => Err(NotFound, NotFoundMessage(rollno))
    case Some(student) =>
      var m := FetchedMarks(outcome);
      Ok(CompleteResponse(true, Merge(student, m), Note(m)))
  }

  /** A fetched mark of exactly zero is attached to the response, yet the
      note still reads as if no marks were available. */
  lemma ZeroMarkNotedUnavailable(db: seq<StudentRecord>, rollno: RollNo)
    requires HasKey(db, rollno)
    ensures var r := CompleteView(db, rollno, Response(200, Object(DataObject(Some(0.0)))));
            r.Ok? && r.value.data.marks == Some(0.0) && r.value.note == UnavailableNote
  {
  }

  /** The module-level state of the service: `students_db`. */
  class StudentStore {
    var db: seq<StudentRecord>

    /** Roll-numbers are unique: every create checks for a duplicate first. */
    ghost predicate Valid()
      reads this
    {
      DistinctKeys(db)
    }

    constructor (t0: Timestamp, t1: Timestamp, t2: Timestamp)
      ensures Valid() && db == Seed(t0, t1, t2)
    {
      db := Seed(t0, t1, t2);
    }

    /** `find_student`: scan the records in order and return the first with the key. */
    method FindStudent(rollno: RollNo) returns (r: Option<StudentRecord>)
      ensures r == Find(db, rollno)
      ensures r.Some? ==> r.value in db && r.value.rollno == rollno
    {
      for i := 0 to |db|
        invariant forall j :: 0 <= j < i ==> db[j].rollno != rollno
      {
        if db[i].rollno == rollno {
          return Some(db[i]);
        }
      }
      return None;
    }

    /** `get_student`: the record with the key, or 404 when there is none. */
    method GetStudent(rollno: RollNo) returns (r: Result<StudentRecord>)
      ensures r.Err? <==> !HasKey(db, rollno)
      ensures r.Err? ==> r == Err(NotFound, NotFoundMessage(rollno))
      ensures r.Ok? ==> Find(db, rollno) == Some(r.value) && r.value.rollno == rollno
      ensures Valid() && r.Ok? ==> forall i :: 0 <= i < |db| && db[i].rollno == rollno ==> db[i] == r.value
    {
      var found := FindStudent(rollno);
      if Valid() {
        forall i | 0 <= i < |db| && db[i].rollno == rollno
          ensures db[i] == Find(db, rollno).value
        {
          DistinctFindsEach(db, i);
        }
      }
      if found.None? {
        return Err(NotFound, NotFoundMessage(rollno));
      }
      return Ok(found.value);
    }

    /** `get_all_students`: every record, in insertion order, with their number. */
    function AllStudents(): (r: Listing)
      reads this
      ensures r.success && r.data == db && r.count == |r.data|
    {
      Listing(true, |db|, db)
    }

    /** `health_check`: the service is up and reports how many students it holds. */
    function HealthCheck(): (h: Health)
      reads this
      ensures h.status == "UP" && h.service == "student-service" && h.studentCount == |db|
    {
      Health("UP", "student-service", |db|)
    }

    /** `create_student`: refuse a duplicate key (409); otherwise append the new
        record stamped `now` and return it. Any age is accepted. */
    method CreateStudent(rollno: RollNo, name: string, age: int, now: Timestamp) returns (r: Result<StudentRecord>)
      modifies this
      ensures HasKey(old(db), rollno) ==> r == Err(Conflict, DuplicateMessage) && db == old(db)
      ensures !HasKey(old(db), rollno) ==>
                r == Ok(StudentRecord(rollno, name, age, now)) && db == old(db) + [r.value]
      ensures old(Valid()) ==> Valid()
      ensures r.Ok? ==> Find(db, rollno) == Some(r.value)
      ensures forall k :: k != rollno ==> Find(db, k) == Find(old(db), k)
    {
      var existing := FindStudent(rollno);
      if existing.Some? {
        return Err(Conflict, DuplicateMessage);
      }
      var rec := StudentRecord(rollno, name, age, now);
      ghost var before := db;
      db := db + [rec];
      FindAppendNew(before, rec);
      if DistinctKeys(before) {
        AppendKeepsDistinct(before, rec);
      }
      forall k | k != rollno
        ensures Find(db, k) == Find(before, k)
      {
        FindAppendOther(before, rec, k);
      }
      r := Ok(rec);
    }

    /** `get_student_complete`: look the student up with the scan, then merge
        in what the remote call yielded. Reads the store and changes nothing. */
    method GetStudentComplete(rollno: RollNo, outcome: RemoteOutcome) returns (r: Result<CompleteResponse>)
      ensures r == CompleteView(db, rollno, outcome)
    {
      var student := FindStudent(rollno);
      if student.None? {
        return Err(NotFound, NotFoundMessage(rollno));
      }
      var marks := FetchedMarks(outcome);
      return Ok(CompleteResponse(true, Merge(student.value, marks), Note(marks)));
    }
  }
}
