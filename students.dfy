/** The fixture student and attendance provider `AttendanceService`.
    Every query rebuilds the ten-record roster from the photo list it is
    given, so the model has no state: each operation is a function of its
    arguments and of the photo list that the photo provider would return for
    that call. */
module AttendanceService {
  import opened Wrappers
  import opened JsArray

  /** One entry of the photo provider's list; `itemImageSrc` may be absent. */
  datatype PhotoItem = PhotoItem(itemImageSrc: Option<string>)

  /** A roster record; `photo` is `None` when it is `undefined`. */
  datatype Student = Student(
    id: int,
    name: string,
    date: string,
    timeIn: string,
    timeOut: string,
    gender: string,
    gradeLevel: int,
    section: string,
    photo: Option<string>)

  /** A sample attendance record. Its `studentId` is a string, unlike the
      numeric `id` of a roster record. */
  datatype AttendanceRecord = AttendanceRecord(
    date: string,
    studentName: string,
    studentId: string,
    status: string,
    time: string,
    remarks: string)

  /** `photos[i]?.itemImageSrc`: undefined past the end of the list, for a
      null or undefined entry, and for an entry without the field. */
  function PhotoAt(photos: seq<Option<PhotoItem>>, i: nat): (r: Option<string>)
    ensures i >= |photos| ==> r == None
    ensures i < |photos| && photos[i].Some? ==> r == photos[i].value.itemImageSrc
    ensures i < |photos| && photos[i].None? ==> r == None
  {
    if i < |photos| && photos[i].Some? then photos[i].value.itemImageSrc else None
  }

  /** `getData`: the fixed roster, each record paired by position with the
      photo list. It never fails, however short the list. */
  function GetData(photos: seq<Option<PhotoItem>>): (r: seq<Student>)
    ensures |r| == 10
    ensures forall i :: 0 <= i < |r| ==> r[i].id == 1001 + i
    ensures forall i :: 0 <= i < |r| ==> r[i].photo == PhotoAt(photos, i)
    ensures forall i :: 0 <= i < |r| ==> r[i].date == "2025-03-19"
    ensures forall i :: 0 <= i < |r| ==> 2 <= r[i].gradeLevel <= 6
  {
    [ Student(1001, "Maria Clara Santos", "2025-03-19", "07:20 AM", "04:25 PM", "Female", 3, "A", PhotoAt(photos, 0)),
      Student(1002, "Jose Andres Reyes", "2025-03-19", "07:10 AM", "04:35 PM", "Male", 4, "B", PhotoAt(photos, 1)),
      Student(1003, "Rizalina Bautista", "2025-03-19", "07:25 AM", "04:40 PM", "Female", 5, "C", PhotoAt(photos, 2)),
      Student(1004, "Emilio Aguinaldo Cruz", "2025-03-19", "07:05 AM", "04:20 PM", "Male", 6, "D", PhotoAt(photos, 3)),
      Student(1005, "Gabriela Silang Rivera", "2025-03-19", "07:18 AM", "04:45 PM", "Female", 2, "E", PhotoAt(photos, 4)),
      Student(1006, "Diego Silang Mendoza", "2025-03-19", "07:22 AM", "04:38 PM", "Male", 3, "A", PhotoAt(photos, 5)),
      Student(1007, "Melchora Aquino Pascual", "2025-03-19", "07:08 AM", "04:28 PM", "Female", 4, "B", PhotoAt(photos, 6)),
      Student(1008, "Andres Bonifacio Torres", "2025-03-19", "07:12 AM", "04:50 PM", "Male", 5, "C", PhotoAt(photos, 7)),
      Student(1009, "Antonio Luna Gomez", "2025-03-19", "07:30 AM", "04:15 PM", "Male", 6, "D", PhotoAt(photos, 8)),
      Student(1010, "Juan Dela Cruz", "2025-03-19", "07:15 AM", "04:30 PM", "Male", 2, "E", PhotoAt(photos, 9)) ]
  }

  /** Roster ids are pairwise distinct and ascending. */
  lemma RosterIdsAscending(photos: seq<Option<PhotoItem>>, i: int, j: int)
    requires 0 <= i < j < 10
    ensures GetData(photos)[i].id < GetData(photos)[j].id
  {
  }

  /** The photo list decides the `photo` field and nothing else. */
  lemma RosterIndependentOfPhotos(p: seq<Option<PhotoItem>>, q: seq<Option<PhotoItem>>, i: int)
    requires 0 <= i < 10
    ensures GetData(p)[i] == GetData(q)[i].(photo := PhotoAt(p, i))
  {
  }

  /** `student.gradeLevel === parseInt(gradeLevel)`, with the parsed grade
      given as `None` for `NaN`, which is strictly equal to nothing. */
  predicate GradeMatches(student: Student, grade: Option<int>)
  {
    grade == Some(student.gradeLevel)
  }

  /** `student.section === sectionLetter`, with a non-string argument given
      as `None`, which is strictly equal to no section letter. */
  predicate SectionMatches(student: Student, sectionLetter: Option<string>)
  {
    sectionLetter == Some(student.section)
  }

  /** `student.id === parseInt(id)`, `None` again standing for `NaN`. */
  predicate IdMatches(student: Student, id: Option<int>)
  {
    id == Some(student.id)
  }

  /** `getStudentsByGrade`: the roster students of the parsed grade. */
  function GetStudentsByGrade(photos: seq<Option<PhotoItem>>, grade: Option<int>): (r: seq<Student>)
    ensures forall s :: s in r <==> s in GetData(photos) && grade == Some(s.gradeLevel)
    ensures grade == None ==> r == []
  {
    var r := Filter(GetData(photos), s => GradeMatches(s, grade));
    FilterMembers(GetData(photos), s => GradeMatches(s, grade));
    assert r != [] ==> r[0] in r;
    r
  }

  /** `getStudentsBySection`: the roster students of the given section. */
  function GetStudentsBySection(photos: seq<Option<PhotoItem>>, sectionLetter: Option<string>): (r: seq<Student>)
    ensures forall s :: s in r <==> s in GetData(photos) && sectionLetter == Some(s.section)
    ensures sectionLetter == None ==> r == []
  {
    var r := Filter(GetData(photos), s => SectionMatches(s, sectionLetter));
    FilterMembers(GetData(photos), s => SectionMatches(s, sectionLetter));
    assert r != [] ==> r[0] in r;
    r
  }

  /** `getStudentsByGradeAndSection`: one filter by both criteria. */
  function GetStudentsByGradeAndSection(photos: seq<Option<PhotoItem>>, grade: Option<int>,
                                        sectionLetter: Option<string>): (r: seq<Student>)
    ensures forall s :: s in r <==>
      s in GetData(photos) && grade == Some(s.gradeLevel) && sectionLetter == Some(s.section)
  {
    FilterMembers(GetData(photos), s => GradeMatches(s, grade) && SectionMatches(s, sectionLetter));
    Filter(GetData(photos), s => GradeMatches(s, grade) && SectionMatches(s, sectionLetter))
  }

  /** Each selection keeps the roster's order. */
  lemma SelectionsKeepRosterOrder(photos: seq<Option<PhotoItem>>, grade: Option<int>, sectionLetter: Option<string>)
    ensures IsSubsequence(GetStudentsByGrade(photos, grade), GetData(photos))
    ensures IsSubsequence(GetStudentsBySection(photos, sectionLetter), GetData(photos))
    ensures IsSubsequence(GetStudentsByGradeAndSection(photos, grade, sectionLetter), GetData(photos))
  {
    FilterIsSubsequence(GetData(photos), s => GradeMatches(s, grade));
    FilterIsSubsequence(GetData(photos), s => SectionMatches(s, sectionLetter));
    FilterIsSubsequence(GetData(photos), s => GradeMatches(s, grade) && SectionMatches(s, sectionLetter));
  }

  /** The combined selection is the section filter applied to the grade
      selection, and equally the grade filter applied to the section
      selection; so it is an order-preserving part of each. */
  lemma GradeAndSectionComposes(photos: seq<Option<PhotoItem>>, grade: Option<int>, sectionLetter: Option<string>)
    ensures GetStudentsByGradeAndSection(photos, grade, sectionLetter)
         == Filter(GetStudentsByGrade(photos, grade), s => SectionMatches(s, sectionLetter))
    ensures GetStudentsByGradeAndSection(photos, grade, sectionLetter)
         == Filter(GetStudentsBySection(photos, sectionLetter), s => GradeMatches(s, grade))
    ensures IsSubsequence(GetStudentsByGradeAndSection(photos, grade, sectionLetter), GetStudentsByGrade(photos, grade))
    ensures IsSubsequence(GetStudentsByGradeAndSection(photos, grade, sectionLetter),
                          GetStudentsBySection(photos, sectionLetter))
  {
    var byGrade := (s: Student) => GradeMatches(s, grade);
    var bySection := (s: Student) => SectionMatches(s, sectionLetter);
    var byBoth := (s: Student) => GradeMatches(s, grade) && SectionMatches(s, sectionLetter);
    FilterFilter(GetData(photos), byGrade, bySection, byBoth);
    FilterFilter(GetData(photos), bySection, byGrade, byBoth);
    FilterIsSubsequence(GetStudentsByGrade(photos, grade), bySection);
    FilterIsSubsequence(GetStudentsBySection(photos, sectionLetter), byGrade);
  }

  /** `getStudentById`: the first roster student with the parsed id, or
      undefined. */
  function GetStudentById(photos: seq<Option<PhotoItem>>, id: Option<int>): (r: Option<Student>)
    ensures r.Some? ==> r.value in GetData(photos) && id == Some(r.value.id)
    ensures r.None? <==> forall s :: s in GetData(photos) ==> id != Some(s.id)
  {
    Find(GetData(photos), s => IdMatches(s, id))
  }

  /** A lookup succeeds exactly for the ids 1001 to 1010, and yields the
      record at the matching position. */
  lemma GetStudentByIdFound(photos: seq<Option<PhotoItem>>, id: Option<int>)
    ensures GetStudentById(photos, id).Some? <==> id.Some? && 1001 <= id.value <= 1010
    ensures id.Some? && 1001 <= id.value <= 1010 ==>
      GetStudentById(photos, id) == Some(GetData(photos)[id.value - 1001])
  {
  }

  /** Ids being distinct, a student found by id is the only roster student
      with that id. */
  lemma GetStudentByIdIsOnlyMatch(photos: seq<Option<PhotoItem>>, id: Option<int>, s: Student)
    requires s in GetData(photos) && id == Some(s.id)
    ensures GetStudentById(photos, id) == Some(s)
  {
  }

  /** `addStudent`: nothing is stored; the argument comes back unchanged. */
  function AddStudent<T>(student: T): (r: T)
    ensures r == student
  {
    student
  }

  /** Adding a student stores nothing: a student outside the fixture's id
      range is still not found by a later lookup. The model has no state
      that `AddStudent` could write to, so this is `GetStudentByIdFound`
      read at the added student's id. */
  lemma AddStudentStoresNothing(photos: seq<Option<PhotoItem>>, student: Student)
    requires student.id < 1001 || 1010 < student.id
    ensures GetStudentById(photos, Some(AddStudent(student).id)) == None
  {
  }

  /** `recordAttendance`: `{ studentId, ...attendanceRecord }`. The record's
      own fields are all kept, and because the spread comes second, a
      `studentId` field of the record overrides the argument. */
  function RecordAttendance<V>(studentId: V, attendanceRecord: map<string, V>): (r: map<string, V>)
    ensures r.Keys == attendanceRecord.Keys + {"studentId"}
    ensures forall k :: k in attendanceRecord ==> r[k] == attendanceRecord[k]
    ensures "studentId" !in attendanceRecord ==> r["studentId"] == studentId
  {
    map["studentId" := studentId] + attendanceRecord
  }

  /** `getAttendanceForSubject`: two fixed sample records. */
  function GetAttendanceForSubject<S>(subjectName: S): (r: seq<AttendanceRecord>)
    ensures |r| == 2
    ensures r[0].studentId == "1001" && r[0].status == "Present"
    ensures r[1].studentId == "1002" && r[1].status == "Late"
  {
    [ AttendanceRecord("2023-09-15", "Maria Clara Santos", "1001", "Present", "10:30:45 AM", ""),
      AttendanceRecord("2023-09-15", "Juan Dela Cruz", "1002", "Late", "10:45:12 AM", "Traffic") ]
  }

  /** The subject argument is ignored: any two calls agree. */
  lemma AttendanceIgnoresSubject<S, U>(a: S, b: U)
    ensures GetAttendanceForSubject(a) == GetAttendanceForSubject(b)
  {
  }

  /** The grade-3 filter over the roster past its first record, one step
      at a time. */
  lemma GradeThreePastFirst(photos: seq<Option<PhotoItem>>)
    ensures Filter(GetData(photos)[1..], s => GradeMatches(s, Some(3))) == [GetData(photos)[5]]
  {
    var roster := GetData(photos);
    var gradeThree := (s: Student) => GradeMatches(s, Some(3));
    assert roster[10..] == [];
    FilterStep(roster, gradeThree, 9);
    assert Filter(roster[9..], gradeThree) == [];
    FilterStep(roster, gradeThree, 8);
    assert Filter(roster[8..], gradeThree) == [];
    FilterStep(roster, gradeThree, 7);
    assert Filter(roster[7..], gradeThree) == [];
    FilterStep(roster, gradeThree, 6);
    assert Filter(roster[6..], gradeThree) == [];
    FilterStep(roster, gradeThree, 5);
    assert Filter(roster[5..], gradeThree) == [roster[5]];
    FilterStep(roster, gradeThree, 4);
    assert Filter(roster[4..], gradeThree) == [roster[5]];
    FilterStep(roster, gradeThree, 3);
    assert Filter(roster[3..], gradeThree) == [roster[5]];
    FilterStep(roster, gradeThree, 2);
    assert Filter(roster[2..], gradeThree) == [roster[5]];
    FilterStep(roster, gradeThree, 1);
  }

  /** Worked case: grade 3 selects ids 1001 and 1006, in roster order. */
  lemma GradeThreeExample(photos: seq<Option<PhotoItem>>)
    ensures GetStudentsByGrade(photos, Some(3)) == [GetData(photos)[0], GetData(photos)[5]]
    ensures GetData(photos)[0].id == 1001 && GetData(photos)[5].id == 1006
  {
    var roster := GetData(photos);
    var gradeThree := (s: Student) => GradeMatches(s, Some(3));
    GradeThreePastFirst(photos);
    assert gradeThree(roster[0]);
    assert Filter(roster, gradeThree) == [roster[0]] + Filter(roster[1..], gradeThree);
  }

  /** The section-"B" filter over the roster past its second record, one
      step at a time. */
  lemma SectionBPastSecond(photos: seq<Option<PhotoItem>>)
    ensures Filter(GetData(photos)[2..], s => SectionMatches(s, Some("B"))) == [GetData(photos)[6]]
  {
    var roster := GetData(photos);
    var sectionB := (s: Student) => SectionMatches(s, Some("B"));
    assert roster[10..] == [];
    FilterStep(roster, sectionB, 9);
    assert Filter(roster[9..], sectionB) == [];
    FilterStep(roster, sectionB, 8);
    assert Filter(roster[8..], sectionB) == [];
    FilterStep(roster, sectionB, 7);
    assert Filter(roster[7..], sectionB) == [];
    FilterStep(roster, sectionB, 6);
    assert Filter(roster[6..], sectionB) == [roster[6]];
    FilterStep(roster, sectionB, 5);
    assert Filter(roster[5..], sectionB) == [roster[6]];
    FilterStep(roster, sectionB, 4);
    assert Filter(roster[4..], sectionB) == [roster[6]];
    FilterStep(roster, sectionB, 3);
    assert Filter(roster[3..], sectionB) == [roster[6]];
    FilterStep(roster, sectionB, 2);
  }

  /** Worked case: section "B" selects ids 1002 and 1007, in roster order. */
  lemma SectionBExample(photos: seq<Option<PhotoItem>>)
    ensures GetStudentsBySection(photos, Some("B")) == [GetData(photos)[1], GetData(photos)[6]]
    ensures GetData(photos)[1].id == 1002 && GetData(photos)[6].id == 1007
  {
    var roster := GetData(photos);
    var sectionB := (s: Student) => SectionMatches(s, Some("B"));
    SectionBPastSecond(photos);
    assert !sectionB(roster[0]) && sectionB(roster[1]);
    assert Filter(roster[1..], sectionB) == [roster[1]] + Filter(roster[1..][1..], sectionB);
    assert roster[1..][1..] == roster[2..];
  }

  /** Worked case: no grade-3 student is in section "B". */
  lemma GradeThreeSectionBEmpty(photos: seq<Option<PhotoItem>>)
    ensures GetStudentsByGradeAndSection(photos, Some(3), Some("B")) == []
  {
    FilterNonePass(GetData(photos), s => GradeMatches(s, Some(3)) && SectionMatches(s, Some("B")));
  }

  /** Worked cases: id 1005 finds Gabriela Silang Rivera, id 9999 finds
      nothing, and an unparsable id finds nothing. */
  lemma LookupExamples(photos: seq<Option<PhotoItem>>)
    ensures GetStudentById(photos, Some(1005)).Some?
    ensures GetStudentById(photos, Some(1005)).value.name == "Gabriela Silang Rivera"
    ensures GetStudentById(photos, Some(9999)) == None
    ensures GetStudentById(photos, None) == None
  {
  }

  /** A record carrying its own `studentId` keeps it; the argument is used
      only when the record has none. */
  lemma RecordAttendanceOverride(id: string, record: map<string, string>)
    requires "studentId" in record && record["studentId"] != id
    ensures RecordAttendance(id, record)["studentId"] == record["studentId"] != id
    ensures RecordAttendance(id, record - {"studentId"})["studentId"] == id
  {
  }

  /** The second sample record names Juan Dela Cruz with id "1002", but the
      roster gives that name the id 1010 and the id 1002 to Jose Andres
      Reyes: the two fixtures disagree. */
  lemma SampleAttendanceDisagreesWithRoster<S>(photos: seq<Option<PhotoItem>>, subjectName: S)
    ensures GetAttendanceForSubject(subjectName)[1].studentName == GetData(photos)[9].name
    ensures GetData(photos)[9].id == 1010
    ensures GetData(photos)[1].id == 1002 && GetData(photos)[1].name != GetData(photos)[9].name
  {
  }
}
