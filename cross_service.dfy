/** The student service's composite endpoint talking to a reachable marks
    service: what the marks lookup endpoint puts on the wire, and what the
    composite view then makes of it. */
module CrossService {
  import opened Common
  import M = MarksService
  import S = StudentService

  /** The reply of `GET /marks/{rollno}` as the student service's client sees
      it: 200 with `{success, data: record}`, or the error's status with the
      `{detail: ...}` envelope, which has no `data` member. */
  function Reply(got: Result<M.MarksRecord>): (o: S.RemoteOutcome)
    ensures o.Response?
    ensures got.Ok? <==> S.DeliversData(o)
    ensures got.Ok? ==> o == S.Response(200, S.Object(S.DataObject(Some(got.value.marks))))
    ensures got.Err? ==> o.status == got.error.StatusCode() && S.FetchedMarks(o) == None
  {
    match got
    case Ok(rec) => S.Response(200, S.Object(S.DataObject(Some(rec.marks))))
    case Err(e, _) => S.Response(e.StatusCode(), S.Object(S.DataAbsent))
  }

  /** With the marks service reachable, and `got` its answer to a lookup of
      `rollno` in `marks` (what `GetMarks` promises), the composite view of an
      existing student carries exactly the marks the marks service holds for
      that roll-number, or null when it holds none; the note claims success
      exactly when a non-zero mark is held. */
  lemma EnrichedWithStoredMarks(students: seq<S.StudentRecord>, marks: seq<M.MarksRecord>,
                                rollno: RollNo, got: Result<M.MarksRecord>)
    requires S.HasKey(students, rollno)
    requires got.Err? <==> !M.HasKey(marks, rollno)
    requires got.Ok? ==> M.Find(marks, rollno) == Some(got.value)
    ensures var r := S.CompleteView(students, rollno, Reply(got));
            var held := M.Find(marks, rollno);
            r.Ok? &&
            r.value.data.marks == (if held.Some? then Some(held.value.marks) else None) &&
            (r.value.note == S.FetchedNote <==> held.Some? && held.value.marks != 0.0)
  {
  }

  /** The scenario of a fresh student and fresh marks for the same roll-number:
      while the marks service answers, the composite view shows the mark; when
      it cannot be reached, the view still succeeds, with null marks. */
  method CreateThenComplete(students: S.StudentStore, marks: M.MarksStore, now: Timestamp)
    requires students.Valid() && marks.Valid()
    requires !S.HasKey(students.db, "B25AI9999") && !M.HasKey(marks.db, "B25AI9999")
    modifies students, marks
  {
    var s := students.CreateStudent("B25AI9999", "Test", 15, now);
    assert s.Ok?;
    var m := marks.CreateMarks("B25AI9999", 77.5, now);
    assert m.Ok?;
    var got := marks.GetMarks("B25AI9999");
    assert got == Ok(M.MarksRecord("B25AI9999", 77.5, now));
    var reached := students.GetStudentComplete("B25AI9999", Reply(got));
    assert reached == Ok(S.CompleteResponse(true, S.StudentComplete("B25AI9999", "Test", 15, now, Some(77.5)), S.FetchedNote));
    var unreachable := students.GetStudentComplete("B25AI9999", S.RequestError);
    assert unreachable == Ok(S.CompleteResponse(true, S.StudentComplete("B25AI9999", "Test", 15, now, None), S.UnavailableNote));
  }
}
