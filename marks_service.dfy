/** The marks service: an in-memory list of marks records keyed by
    roll-number, with lookup, listing, health and create endpoints. */
module MarksService {
  import opened Common

  /** One entry of `marks_db`. */
  datatype MarksRecord = MarksRecord(rollno: RollNo, marks: real, createdAt: Timestamp)

  /** The body of `GET /health`. */
  datatype Health = Health(status: string, service: string, recordCount: nat)

  /** The body of `GET /marks`. */
  datatype Listing = Listing(success: bool, count: nat, data: seq<MarksRecord>)

  const OutOfRangeMessage := "Marks must be between 0 and 100"
  const DuplicateMessage := "Marks already exist for this student"

  function NotFoundMessage(rollno: RollNo): string {
    "Marks for " + rollno + " not found"
  }

  /** The guard of `create_marks`: a value below 0 or above 100 is refused. */
  predicate OutOfRange(marks: real) {
    marks < 0.0 || marks > 100.0
  }

  /** Some record of `db` has key `rollno`. */
  ghost predicate HasKey(db: seq<MarksRecord>, rollno: RollNo) {
    exists i :: 0 <= i < |db| && db[i].rollno == rollno
  }

  /** `i` is the position of the first record of `db` with key `rollno`. */
  ghost predicate IsFirstMatch(db: seq<MarksRecord>, rollno: RollNo, i: int) {
    0 <= i < |db| && db[i].rollno == rollno &&
    forall j :: 0 <= j < i ==> db[j].rollno != rollno
  }

  /** No two records of `db` share a roll-number. */
  ghost predicate DistinctKeys(db: seq<MarksRecord>) {
    forall i, j :: 0 <= i < j < |db| ==> db[i].rollno != db[j].rollno
  }

  /** What `find_marks` answers for `db`: the first record with the key, or None. */
  function Find(db: seq<MarksRecord>, rollno: RollNo): (r: Option<MarksRecord>)
    ensures r.None? <==> !HasKey(db, rollno)
    ensures r.Some? ==> exists i :: IsFirstMatch(db, rollno, i) && db[i] == r.value
  {
    if |db| == 0 then None
    else if db[0].rollno == rollno then
      assert IsFirstMatch(db, rollno, 0);
      Some(db[0])
    else
      var r := Find(db[1..], rollno);
      assert HasKey(db[1..], rollno) <==> HasKey(db, rollno) by {
        if HasKey(db, rollno) {
          var i :| 0 <= i < |db| && db[i].rollno == rollno;
          assert db[1..][i - 1].rollno == rollno;
        }
      }
      assert r.Some? ==> exists i :: IsFirstMatch(db, rollno, i) && db[i] == r.value by {
        if r.Some? {
          var i :| IsFirstMatch(db[1..], rollno, i) && db[1..][i] == r.value;
          assert IsFirstMatch(db, rollno, i + 1);
        }
      }
      r
  }

  /** Appending a record with a fresh key makes that key find the new record. */
  lemma {:induction false} FindAppendNew(db: seq<MarksRecord>, rec: MarksRecord)
    requires !HasKey(db, rec.rollno)
    ensures Find(db + [rec], rec.rollno) == Some(rec)
  {
    if |db| > 0 {
      assert (db + [rec])[1..] == db[1..] + [rec];
      FindAppendNew(db[1..], rec);
    }
  }

  /** Appending a record changes no lookup except that of its own, previously absent, key. */
  lemma {:induction false} FindAppendOther(db: seq<MarksRecord>, rec: MarksRecord, rollno: RollNo)
    requires rollno != rec.rollno || HasKey(db, rollno)
    ensures Find(db + [rec], rollno) == Find(db, rollno)
  {
    if |db| > 0 && db[0].rollno != rollno {
      assert (db + [rec])[1..] == db[1..] + [rec];
      FindAppendOther(db[1..], rec, rollno);
    }
  }

  /** Appending a record with a fresh key keeps the keys pairwise distinct. */
  lemma AppendKeepsDistinct(db: seq<MarksRecord>, rec: MarksRecord)
    requires DistinctKeys(db) && !HasKey(db, rec.rollno)
    ensures DistinctKeys(db + [rec])
  {
  }

  /** In a store with distinct keys every record is what a lookup of its key returns. */
  lemma DistinctFindsEach(db: seq<MarksRecord>, i: int)
    requires DistinctKeys(db) && 0 <= i < |db|
    ensures Find(db, db[i].rollno) == Some(db[i])
  {
  }

  /** The records the service starts with, stamped with the three clock readings taken. */
  function Seed(t0: Timestamp, t1: Timestamp, t2: Timestamp): (db: seq<MarksRecord>)
    ensures |db| == 3 && DistinctKeys(db)
  {
    [ MarksRecord("B25AI2113", 92.5, t0),
      MarksRecord("B25AI2114", 88.0, t1),
      MarksRecord("B25AI2115", 95.5, t2) ]
  }

  /** The module-level state of the service: `marks_db`. */
  class MarksStore {
    var db: seq<MarksRecord>

    /** Roll-numbers are unique: every create checks for a duplicate first. */
    ghost predicate Valid()
      reads this
    {
      DistinctKeys(db)
    }

    constructor (t0: Timestamp, t1: Timestamp, t2: Timestamp)
      ensures Valid() && db == Seed(t0, t1, t2)
    {
      db := Seed(t0, t1, t2);
    }

    /** `find_marks`: scan the records in order and return the first with the key. */
    method FindMarks(rollno: RollNo) returns (r: Option<MarksRecord>)
      ensures r == Find(db, rollno)
      ensures r.Some? ==> r.value in db && r.value.rollno == rollno
    {
      for i := 0 to |db|
        invariant forall j :: 0 <= j < i ==> db[j].rollno != rollno
      {
        if db[i].rollno == rollno {
          return Some(db[i]);
        }
      }
      return None;
    }

    /** `get_marks`: the record with the key, or 404 when there is none. */
    method GetMarks(rollno: RollNo) returns (r: Result<MarksRecord>)
      ensures r.Err? <==> !HasKey(db, rollno)
      ensures r.Err? ==> r == Err(NotFound, NotFoundMessage(rollno))
      ensures r.Ok? ==> Find(db, rollno) == Some(r.value) && r.value.rollno == rollno
      ensures Valid() && r.Ok? ==> forall i :: 0 <= i < |db| && db[i].rollno == rollno ==> db[i] == r.value
    {
      var found := FindMarks(rollno);
      if Valid() {
        forall i | 0 <= i < |db| && db[i].rollno == rollno
          ensures db[i] == Find(db, rollno).value
        {
          DistinctFindsEach(db, i);
        }
      }
      if found.None? {
        return Err(NotFound, NotFoundMessage(rollno));
      }
      return Ok(found.value);
    }

    /** `get_all_marks`: every record, in insertion order, with their number. */
    function AllMarks(): (r: Listing)
      reads this
      ensures r.success && r.data == db && r.count == |r.data|
    {
      Listing(true, |db|, db)
    }

    /** `health_check`: the service is up and reports how many records it holds. */
    function HealthCheck(): (h: Health)
      reads this
      ensures h.status == "UP" && h.service == "marks-service" && h.recordCount == |db|
    {
      Health("UP", "marks-service", |db|)
    }

    /** `create_marks`: refuse an out-of-range value (400), then a duplicate key
        (409); otherwise append the new record stamped `now` and return it. */
    method CreateMarks(rollno: RollNo, marks: real, now: Timestamp) returns (r: Result<MarksRecord>)
      modifies this
      ensures OutOfRange(marks) ==> r == Err(Invalid, OutOfRangeMessage) && db == old(db)
      ensures !OutOfRange(marks) && HasKey(old(db), rollno) ==>
                r == Err(Conflict, DuplicateMessage) && db == old(db)
      ensures !OutOfRange(marks) && !HasKey(old(db), rollno) ==>
                r == Ok(MarksRecord(rollno, marks, now)) && db == old(db) + [r.value]
      ensures old(Valid()) ==> Valid()
      ensures r.Ok? ==> Find(db, rollno) == Some(r.value)
      ensures forall k :: k != rollno ==> Find(db, k) == Find(old(db), k)
    {
      if marks < 0.0 || marks > 100.0 {
        return Err(Invalid, OutOfRangeMessage);
      }
      var existing := FindMarks(rollno);
      if existing.Some? {
        return Err(Conflict, DuplicateMessage);
      }
      var rec := MarksRecord(rollno, marks, now);
      ghost var before := db;
      db := db + [rec];
      FindAppendNew(before, rec);
      if DistinctKeys(before) {
        AppendKeepsDistinct(before, rec);
      }
      forall k | k != rollno
        ensures Find(db, k) == Find(before, k)
      {
        FindAppendOther(before, rec, k);
      }
      r := Ok(rec);
    }
  }
}
