# Attendance fixture service, modelled in Dafny

This project models `AttendanceService`, the fixture student and attendance
provider of the school attendance web application. The service holds no state.
Each query rebuilds a fixed roster of ten students and filters it, or looks one
student up in it. Each student record takes its `photo` by position from a
photo list that an external photo provider supplies. The two write operations
are stubs that hand their input back. The subject query returns two fixed
sample attendance records.

Files:

- `wrappers.dfy`: module `Wrappers`, the `Option` type. `None` stands for
  JavaScript `undefined`, and for `NaN` where a parsed number is expected.
- `js_array.dfy`: module `JsArray`, the `Array.prototype.filter` and
  `Array.prototype.find` behaviour the service relies on, with its lemmas.
  Filtering keeps every occurrence of each passing element and no failing
  element, in order. Two filters compose
  into one. `find` yields the first match.
- `students.dfy`: module `AttendanceService`, the roster, the queries, the
  stubs and the properties proved about them.

Modelling choices:

- The photo list is a parameter of every query (`photos`). Each query calls
  `getData()` afresh, and `getData()` asks the photo provider again.
- A photo entry is `Option<PhotoItem>`, and `None` is a null or undefined
  entry. `PhotoItem.itemImageSrc` is optional. Together these give the cases of
  `photos[i]?.itemImageSrc` when the field, if present, is string-valued.
  A field holding a non-string value is not represented.
- The grade and id arguments are given after `parseInt`, as `Option<int>`.
  `None` is `NaN`, and `NaN` is strictly equal to nothing, so it matches no
  student.
- The section argument is an `Option<string>`. `None` stands for any
  non-string value, which `===` never equates with a section letter.
- A JavaScript object passed to `recordAttendance` is a `map<string, V>`. The
  spread `{ studentId, ...attendanceRecord }` is the map union in which the
  record's entries win.
- `async` and the promises are left out. Each operation returns its resolved
  value directly.

Each query builds a fresh roster and nothing is kept between calls. So a
query's result depends only on its arguments and the photo list, and
`addStudent` and `recordAttendance` cannot affect any later query. The model
shows this in its types: every operation is a function.

The two fixtures disagree with each other. The second sample attendance record
pairs the name "Juan Dela Cruz" with the string id "1002". In the roster, that
name has the numeric id 1010, and 1002 belongs to "Jose Andres Reyes".
`SampleAttendanceDisagreesWithRoster` states this. The model keeps the data as
written.

## Model

| member | source | states |
|---|---|---|
| `JsArray.Filter` | src/router/service/Students.js:123 | a filter's result is no longer than its input, and every element it keeps passes the predicate |
| `JsArray.FilterMembers` | src/router/service/Students.js:123 | an element is in a filter's result exactly when it is in the input and passes the predicate |
| `JsArray.FilterCounts` | src/router/service/Students.js:123 | a filter's result holds each passing element exactly as many times as the input does, and no failing element |
| `JsArray.FilterIsSubsequence` | src/router/service/Students.js:129 | a filter's result is an order-preserving subsequence of its input |
| `JsArray.FilterFilter` | src/router/service/Students.js:135 | filtering by p and then by q equals one filter by their conjunction |
| `JsArray.FilterNonePass` | src/router/service/Students.js:135 | a filter that no element passes returns the empty sequence |
| `JsArray.Find` | src/router/service/Students.js:181 | find returns nothing exactly when no element passes; otherwise it returns a passing element of the input |
| `JsArray.FindIsFirst` | src/router/service/Students.js:181 | when s[i] is the first passing element, find returns exactly s[i] |
| `AttendanceService.PhotoAt` | src/router/service/Students.js:16 | the optional-chained photo lookup is undefined past the end of the list and for a missing entry; otherwise it is the entry's itemImageSrc |
| `AttendanceService.GetData` | src/router/service/Students.js:4-118 | the roster has exactly ten records with ids 1001+i at index i, all dated 2025-03-19, grades 2 to 6, and the i-th record's photo is the i-th photo's source or undefined; it is defined for every photo list |
| `AttendanceService.RosterIdsAscending` | src/router/service/Students.js:6-117 | roster ids strictly ascend with position, so they are pairwise distinct |
| `AttendanceService.RosterIndependentOfPhotos` | src/router/service/Students.js:5-117 | two photo lists give rosters that differ only in the photo field |
| `AttendanceService.GetStudentsByGrade` | src/router/service/Students.js:121-124 | a student is selected exactly when it is in the roster and its gradeLevel equals the parsed grade; a NaN grade selects nobody |
| `AttendanceService.GetStudentsBySection` | src/router/service/Students.js:127-130 | a student is selected exactly when it is in the roster and its section is strictly equal to the argument; a non-string argument selects nobody |
| `AttendanceService.GetStudentsByGradeAndSection` | src/router/service/Students.js:133-136 | a student is selected exactly when it is in the roster and matches both the parsed grade and the section |
| `AttendanceService.SelectionsKeepRosterOrder` | src/router/service/Students.js:121-136 | all three selections are order-preserving subsequences of the roster |
| `AttendanceService.GradeAndSectionComposes` | src/router/service/Students.js:133-136 | the combined selection equals the section filter applied to the grade selection, and the grade filter applied to the section selection; it is an ordered subsequence of each single selection |
| `AttendanceService.GradeThreeExample` | src/router/service/Students.js:121-124 | grade 3 selects exactly the records with ids 1001 and 1006, in that order |
| `AttendanceService.SectionBExample` | src/router/service/Students.js:127-130 | section "B" selects exactly the records with ids 1002 and 1007, in that order |
| `AttendanceService.GradeThreeSectionBEmpty` | src/router/service/Students.js:133-136 | grade 3 combined with section "B" selects nobody |
| `AttendanceService.GetStudentById` | src/router/service/Students.js:179-182 | a found student is in the roster and has the parsed id; nothing is found exactly when no roster student has that id |
| `AttendanceService.GetStudentByIdFound` | src/router/service/Students.js:179-182 | a lookup succeeds exactly for the ids 1001 to 1010 and yields the roster record at position id-1001; a NaN id finds nothing |
| `AttendanceService.GetStudentByIdIsOnlyMatch` | src/router/service/Students.js:179-182 | any roster student with the looked-up id is the one returned, so the result is the only match |
| `AttendanceService.LookupExamples` | src/router/service/Students.js:179-182 | id 1005 finds "Gabriela Silang Rivera"; ids 9999 and NaN find nothing |
| `AttendanceService.AddStudent` | src/router/service/Students.js:139-143 | the argument is returned unchanged |
| `AttendanceService.AddStudentStoresNothing` | src/router/service/Students.js:139-143 | a student added with an id outside the fixture is still not found by a later lookup |
| `AttendanceService.RecordAttendance` | src/router/service/Students.js:146-152 | the result has the record's keys plus studentId; every field of the record is kept with its value; the argument id is used only when the record has no studentId of its own |
| `AttendanceService.RecordAttendanceOverride` | src/router/service/Students.js:148-151 | a record's own studentId overrides a different argument id; without one the argument id is used |
| `AttendanceService.GetAttendanceForSubject` | src/router/service/Students.js:155-176 | two records are returned: student "1001" Present, then student "1002" Late |
| `AttendanceService.AttendanceIgnoresSubject` | src/router/service/Students.js:155-176 | any two subject arguments, of any type, give the same result |
| `AttendanceService.SampleAttendanceDisagreesWithRoster` | src/router/service/Students.js:158-175 | the sample record for "Juan Dela Cruz" carries id "1002", while the roster gives that name id 1010 and gives 1002 to another student |

## Left out

- The photo provider (`PhotoService.getData`) is not part of this model. Its result is the `photos` parameter.
- JavaScript `parseInt` string parsing is not modelled. Grade and id arguments arrive already parsed, with `None` for `NaN`.
- `async`/`await` and promise wrapping are not modelled, and neither are the source's error paths. A rejected photo-provider promise propagates through `getData` and the four roster queries. A provider result that is not an array (null or undefined) makes `photos[0]?.itemImageSrc` throw, because `?.` guards only the property read. `parseInt` throws on a Symbol argument. The model leaves these out: `photos` is always a sequence, and parsed arguments arrive as `Option<int>`.
- `RecordAttendance`: a map does not record the key order of the returned object (`studentId` first, then the record's keys). Spreading a string or array argument, which contributes index keys, is not modelled. A null or undefined record contributes nothing, the same as the empty map.
- `AddStudent`: the argument is returned as an opaque value of any type. Whether it is a well-formed student is not checked.
- The API client for sections (`src/router/service/SectionService.js`) is not modelled. It only builds URL strings and makes HTTP calls.
- The route table (`src/router/index.js`) is not modelled. Path matching happens inside the vue-router library.
- The grades table migration is not modelled. It is a declarative schema, and the database engine enforces its uniqueness constraint.
