/** The records of the in-memory ledger store (teachers, students, payouts)
    and the pure transformations its actions apply to them: the `find`, `map`
    and `some` expressions of `useAppStore.ts`, stated on values.

    Amounts (a balance, total earnings, a payout amount) are whole numbers of
    tenths of an STX: the store's decimal strings "10.0", "4.5", "0.1" are
    100, 45 and 1 here. */
module Ledger {
  import opened Basics

  datatype TeacherStatus = Active | Inactive

  datatype Teacher = Teacher(
    id: string,
    name: string,
    address: string,
    subject: string,
    registeredDate: string,
    totalEarnings: int,    // tenths of an STX
    studentsCompleted: nat,
    completionRate: int,   // percent
    status: TeacherStatus,
    balance: int)          // tenths of an STX

  datatype CourseStatus = CourseCompleted | InProgress

  datatype Enrollment = Enrollment(
    teacher: string,
    course: string,
    status: CourseStatus,
    completedDate: Option<string>)

  datatype Student = Student(
    id: string,
    name: string,
    address: string,
    enrolledCourses: seq<Enrollment>,
    totalCompletions: nat,
    joinDate: string)

  datatype PayoutStatus = Completed | Pending | Failed

  datatype Payout = Payout(
    id: string,
    teacher: string,
    teacherAddress: string,
    student: string,
    studentAddress: string,
    course: string,
    amount: int,           // tenths of an STX
    status: PayoutStatus,
    timestamp: string,
    txHash: Option<string>)

  /** The values the store draws from the clock and from `Math.random`
      (`Date.now()` ids, today's date, the ISO timestamp, the mock
      transaction hash); the caller supplies them. */
  datatype Stamp = Stamp(id: string, today: string, timestamp: string, txHash: string)

  /** The fixed payout for one completion: 0.1 STX. */
  const PayoutAmount: int := 1

  const UnknownStudent: string := "Unknown Student"

  // ---------------------------------------------------------------------
  // Lookups

  predicate TeacherAt(address: string, t: Teacher) { t.address == address }

  predicate StudentAt(address: string, s: Student) { s.address == address }

  /** `teachers.find(t => t.address === address)`. */
  function FindTeacher(ts: seq<Teacher>, address: string): (r: Option<Teacher>)
    ensures r.None? <==> forall i :: 0 <= i < |ts| ==> ts[i].address != address
    ensures r.Some? ==> exists i :: 0 <= i < |ts| && ts[i] == r.value && ts[i].address == address
                           && forall j :: 0 <= j < i ==> ts[j].address != address
  {
    var r := Find(ts, t => TeacherAt(address, t));
    if r.Some? then
      var k := FirstIndex(ts, t => TeacherAt(address, t));
      assert ts[k] == r.value && forall j :: 0 <= j < k ==> ts[j].address != address;
      r
    else r
  }

  /** `students.find(s => s.address === address)`. */
  function FindStudent(ss: seq<Student>, address: string): (r: Option<Student>)
    ensures r.None? <==> forall i :: 0 <= i < |ss| ==> ss[i].address != address
    ensures r.Some? ==> exists i :: 0 <= i < |ss| && ss[i] == r.value && ss[i].address == address
                           && forall j :: 0 <= j < i ==> ss[j].address != address
  {
    var r := Find(ss, s => StudentAt(address, s));
    if r.Some? then
      var k := FirstIndex(ss, s => StudentAt(address, s));
      assert ss[k] == r.value && forall j :: 0 <= j < k ==> ss[j].address != address;
      r
    else r
  }

  /** `students.find(...)?.name || "Unknown Student"`: the first student's
      name at that address, or the placeholder when there is none or when
      that name is the empty string (which JavaScript treats as false). */
  function StudentDisplayName(ss: seq<Student>, address: string): (name: string)
    ensures name != ""
    ensures (forall i :: 0 <= i < |ss| ==> ss[i].address != address) ==> name == UnknownStudent
    ensures forall i :: (0 <= i < |ss| && ss[i].address == address && ss[i].name != "" &&
                        forall j :: 0 <= j < i ==> ss[j].address != address) ==> name == ss[i].name
    ensures FindStudent(ss, address).Some? && FindStudent(ss, address).value.name == "" ==> name == UnknownStudent
  {
    match FindStudent(ss, address)
    case Some(s) => if s.name != "" then s.name else UnknownStudent
    case None => UnknownStudent
  }

  // ---------------------------------------------------------------------
  // Teachers

  /** The teacher `registerTeacher` appends: the supplied fields, no
      earnings, no completions, rate 0, active. */
  function NewTeacher(name: string, address: string, subject: string, balance: int, stamp: Stamp): (t: Teacher)
    ensures t.name == name && t.address == address && t.subject == subject && t.balance == balance
    ensures t.id == stamp.id && t.registeredDate == stamp.today
    ensures t.totalEarnings == 0 && t.studentsCompleted == 0 && t.completionRate == 0 && t.status == Active
  {
    Teacher(stamp.id, name, address, subject, stamp.today, 0, 0, 0, Active, balance)
  }

  /** `t1` and `t2` agree on every field but the balance. */
  predicate SameButBalance(t1: Teacher, t2: Teacher)
  {
    t1.(balance := t2.balance) == t2
  }

  /** `addFundsToTeacher`: credits `amount` to every teacher whose id is `id`. */
  function AddFunds(ts: seq<Teacher>, id: string, amount: int): (r: seq<Teacher>)
    ensures |r| == |ts|
    ensures forall i :: 0 <= i < |ts| && ts[i].id != id ==> r[i] == ts[i]
    ensures forall i :: 0 <= i < |ts| && ts[i].id == id ==>
              r[i].balance == ts[i].balance + amount && SameButBalance(r[i], ts[i])
  {
    seq(|ts|, i requires 0 <= i < |ts| =>
      if ts[i].id == id then ts[i].(balance := ts[i].balance + amount) else ts[i])
  }

  /** Funding an id no teacher has changes nothing. */
  lemma AddFundsUnknownId(ts: seq<Teacher>, id: string, amount: int)
    requires forall i :: 0 <= i < |ts| ==> ts[i].id != id
    ensures AddFunds(ts, id, amount) == ts
  {
  }

  /** Adding an amount and then its negation restores every balance
      (exact here, since amounts are whole tenths). */
  lemma AddFundsInverse(ts: seq<Teacher>, id: string, amount: int)
    ensures AddFunds(AddFunds(ts, id, amount), id, -amount) == ts
  {
    var once := AddFunds(ts, id, amount);
    var twice := AddFunds(once, id, -amount);
    forall i | 0 <= i < |ts|
      ensures twice[i] == ts[i]
    {
      if ts[i].id == id {
        assert once[i].id == id && SameButBalance(once[i], ts[i]);
        assert SameButBalance(twice[i], once[i]);
      }
    }
  }

  /** `Math.round((n / (n + 5)) * 100)`, the completion rate stored after the
      `n`-th completion. */
  function CompletionRate(n: nat): (rate: int)
    ensures 0 <= rate <= 100
    ensures 2 * rate * (n + 5) - (n + 5) <= 200 * n < 2 * rate * (n + 5) + (n + 5)
  {
    var rate := RoundRatio(100 * n, n + 5);
    assert (2 * rate - 1) * (n + 5) <= 200 * n < (2 * rate + 1) * (n + 5);
    assert (2 * rate - 1) * (n + 5) < 200 * (n + 5);
    CancelPositiveFactor(2 * rate - 1, 200, n + 5);
    assert 0 * (n + 5) < (2 * rate + 1) * (n + 5);
    CancelPositiveFactor(0, 2 * rate + 1, n + 5);
    rate
  }

  /** The teacher after one paid completion (`updatedTeacher`): one more
      completion, 0.1 STX more earned, 0.1 STX less balance (with no floor
      at zero), the rate recomputed for the new count, nothing else changed. */
  function PayForCompletion(t: Teacher): (u: Teacher)
    ensures u.studentsCompleted == t.studentsCompleted + 1
    ensures u.totalEarnings == t.totalEarnings + PayoutAmount
    ensures u.balance == t.balance - PayoutAmount
    ensures 0 <= u.completionRate <= 100 && u.completionRate == CompletionRate(u.studentsCompleted)
    ensures u.id == t.id && u.name == t.name && u.address == t.address && u.subject == t.subject
    ensures u.registeredDate == t.registeredDate && u.status == t.status
  {
    var updated := t.(totalEarnings := t.totalEarnings + PayoutAmount,
                      studentsCompleted := t.studentsCompleted + 1,
                      balance := t.balance - PayoutAmount);
    updated.(completionRate := CompletionRate(updated.studentsCompleted))
  }

  /** `teachers.map(t => t.id === id ? u : t)`. */
  function ReplaceById(ts: seq<Teacher>, id: string, u: Teacher): (r: seq<Teacher>)
    ensures |r| == |ts|
    ensures forall i :: 0 <= i < |ts| ==> r[i] == (if ts[i].id == id then u else ts[i])
  {
    seq(|ts|, i requires 0 <= i < |ts| => if ts[i].id == id then u else ts[i])
  }

  // ---------------------------------------------------------------------
  // Students

  /** An enrolment entry for `courseName` under the teacher named `teacherName`. */
  predicate IsCourse(e: Enrollment, courseName: string, teacherName: string)
  {
    e.course == courseName && e.teacher == teacherName
  }

  /** `enrolledCourses.some(...)`, scanning from the front: true exactly
      when some entry is for that course and teacher. */
  predicate CourseExists(cs: seq<Enrollment>, courseName: string, teacherName: string): (b: bool)
    ensures b <==> exists i :: 0 <= i < |cs| && IsCourse(cs[i], courseName, teacherName)
  {
    |cs| > 0 && (IsCourse(cs[0], courseName, teacherName) || CourseExists(cs[1..], courseName, teacherName))
  }

  /** A matching entry after the completion: the same course and teacher,
      completed today. */
  function MarkCompleted(e: Enrollment, today: string): (r: Enrollment)
    ensures r.teacher == e.teacher && r.course == e.course
    ensures r.status == CourseCompleted && r.completedDate == Some(today)
  {
    e.(status := CourseCompleted, completedDate := Some(today))
  }

  /** The course list after a completion (`updatedCourses`): every matching
      entry is marked completed today; when none matched, one completed
      entry is appended. */
  function UpdateCourses(cs: seq<Enrollment>, courseName: string, teacherName: string, today: string): (r: seq<Enrollment>)
    ensures |r| == |cs| + (if CourseExists(cs, courseName, teacherName) then 0 else 1)
    ensures forall i :: 0 <= i < |cs| && IsCourse(cs[i], courseName, teacherName) ==> r[i] == MarkCompleted(cs[i], today)
    ensures forall i :: 0 <= i < |cs| && !IsCourse(cs[i], courseName, teacherName) ==> r[i] == cs[i]
    ensures !CourseExists(cs, courseName, teacherName) ==>
              r[|cs|] == Enrollment(teacherName, courseName, CourseCompleted, Some(today))
  {
    var updated := seq(|cs|, i requires 0 <= i < |cs| =>
      if IsCourse(cs[i], courseName, teacherName) then MarkCompleted(cs[i], today) else cs[i]);
    if CourseExists(cs, courseName, teacherName) then updated
    else updated + [Enrollment(teacherName, courseName, CourseCompleted, Some(today))]
  }

  /** After the update the course is on the list, and every entry for it is
      completed with today's date. */
  lemma UpdateCoursesRecordsCompletion(cs: seq<Enrollment>, courseName: string, teacherName: string, today: string)
    ensures var r := UpdateCourses(cs, courseName, teacherName, today);
      CourseExists(r, courseName, teacherName) &&
      forall i :: 0 <= i < |r| && IsCourse(r[i], courseName, teacherName) ==>
        r[i].status == CourseCompleted && r[i].completedDate == Some(today)
  {
    var r := UpdateCourses(cs, courseName, teacherName, today);
    if CourseExists(cs, courseName, teacherName) {
      var k :| 0 <= k < |cs| && IsCourse(cs[k], courseName, teacherName);
      assert IsCourse(r[k], courseName, teacherName);
    } else {
      assert IsCourse(r[|cs|], courseName, teacherName);
    }
  }

  /** Recording the same completion twice on the same day leaves the list
      as the first time did. */
  lemma UpdateCoursesIdempotent(cs: seq<Enrollment>, courseName: string, teacherName: string, today: string)
    ensures var once := UpdateCourses(cs, courseName, teacherName, today);
      UpdateCourses(once, courseName, teacherName, today) == once
  {
    var once := UpdateCourses(cs, courseName, teacherName, today);
    UpdateCoursesRecordsCompletion(cs, courseName, teacherName, today);
    var twice := UpdateCourses(once, courseName, teacherName, today);
    assert |twice| == |once|;
    forall i | 0 <= i < |once|
      ensures twice[i] == once[i]
    {
      if IsCourse(once[i], courseName, teacherName) {
        assert once[i].status == CourseCompleted && once[i].completedDate == Some(today);
      }
    }
  }

  /** A student after a completion at their address. */
  function CompleteForStudent(s: Student, courseName: string, teacherName: string, today: string): (r: Student)
    ensures r.totalCompletions == s.totalCompletions + 1
    ensures r.enrolledCourses == UpdateCourses(s.enrolledCourses, courseName, teacherName, today)
    ensures r.id == s.id && r.name == s.name && r.address == s.address && r.joinDate == s.joinDate
  {
    s.(enrolledCourses := UpdateCourses(s.enrolledCourses, courseName, teacherName, today),
       totalCompletions := s.totalCompletions + 1)
  }

  /** `updatedStudents`: every student at `address` gets the completion;
      the others are returned as they were. */
  function UpdateStudents(ss: seq<Student>, address: string, courseName: string, teacherName: string, today: string): (r: seq<Student>)
    ensures |r| == |ss|
    ensures forall i :: 0 <= i < |ss| && ss[i].address != address ==> r[i] == ss[i]
    ensures forall i :: 0 <= i < |ss| && ss[i].address == address ==>
              r[i] == CompleteForStudent(ss[i], courseName, teacherName, today)
  {
    seq(|ss|, i requires 0 <= i < |ss| =>
      if ss[i].address == address then CompleteForStudent(ss[i], courseName, teacherName, today) else ss[i])
  }

  /** A student with no such address changes nothing. */
  lemma UpdateStudentsUnknownAddress(ss: seq<Student>, address: string, courseName: string, teacherName: string, today: string)
    requires forall i :: 0 <= i < |ss| ==> ss[i].address != address
    ensures UpdateStudents(ss, address, courseName, teacherName, today) == ss
  {
  }

  /** Each student's course list grows by at most one entry, and the entries
      for other courses keep their place and value. */
  lemma UpdateStudentsCourseGrowth(ss: seq<Student>, address: string, courseName: string, teacherName: string, today: string, i: nat)
    requires i < |ss|
    ensures var r := UpdateStudents(ss, address, courseName, teacherName, today);
      var before, after := ss[i].enrolledCourses, r[i].enrolledCourses;
      |before| <= |after| <= |before| + 1 &&
      forall k :: 0 <= k < |before| && !IsCourse(before[k], courseName, teacherName) ==> after[k] == before[k]
  {
  }

  // ---------------------------------------------------------------------
  // Payouts

  /** The payout `recordCompletion` prepends: 0.1 STX, completed, with the
      teacher's name and the given addresses and course. */
  function CompletionPayout(t: Teacher, teacherAddress: string, studentName: string, studentAddress: string,
                            courseName: string, stamp: Stamp): (p: Payout)
    ensures p.amount == PayoutAmount && p.status == Completed
    ensures p.teacher == t.name && p.teacherAddress == teacherAddress
    ensures p.student == studentName && p.studentAddress == studentAddress && p.course == courseName
    ensures p.id == stamp.id && p.timestamp == stamp.timestamp && p.txHash == Some(stamp.txHash)
  {
    Payout(stamp.id, t.name, teacherAddress, studentName, studentAddress, courseName,
           PayoutAmount, Completed, stamp.timestamp, Some(stamp.txHash))
  }

  // ---------------------------------------------------------------------
  // Facts about a whole completion

  predicate NonNegativeBalances(ts: seq<Teacher>)
  {
    forall i :: 0 <= i < |ts| ==> ts[i].balance >= 0
  }

  /** The guard of the completion form (a balance of at least 0.1 STX on the
      teacher `find` returns) keeps every balance non-negative across the
      debit, even though the debit itself has no floor. */
  lemma GuardedPaymentKeepsBalancesNonNegative(ts: seq<Teacher>, address: string)
    requires NonNegativeBalances(ts)
    requires FindTeacher(ts, address).Some? && FindTeacher(ts, address).value.balance >= PayoutAmount
    ensures var t := FindTeacher(ts, address).value;
      NonNegativeBalances(ReplaceById(ts, t.id, PayForCompletion(t)))
  {
  }

  /** Without the guard the debit can drive a balance below zero. */
  lemma UnguardedPaymentCanOverdraw()
    ensures var t := Teacher("1", "T", "A", "S", "2024-01-01", 0, 0, 0, Active, 0);
      PayForCompletion(t).balance < 0
  {
  }

  /** With distinct ids, a completion raises no teacher's completion count
      but the one `find` returned, and raises that one by exactly one. */
  lemma PaymentRaisesOnlyTheFoundTeacher(ts: seq<Teacher>, address: string)
    requires forall i, j :: 0 <= i < j < |ts| ==> ts[i].id != ts[j].id
    requires FindTeacher(ts, address).Some?
    ensures var t := FindTeacher(ts, address).value;
      var r := ReplaceById(ts, t.id, PayForCompletion(t));
      forall i :: 0 <= i < |ts| ==>
        r[i].studentsCompleted == ts[i].studentsCompleted + (if ts[i] == t then 1 else 0) &&
        (ts[i] != t ==> r[i] == ts[i])
  {
    var t := FindTeacher(ts, address).value;
    var k :| 0 <= k < |ts| && ts[k] == t;
    forall i | 0 <= i < |ts|
      ensures ts[i].id == t.id <==> ts[i] == t
    {
      if i < k {
        assert ts[i].id != ts[k].id;
      } else if k < i {
        assert ts[k].id != ts[i].id;
      }
    }
  }

  /** The replacement is by id, not by position: a second teacher that
      shares the id of the one paid is overwritten by a copy of it. */
  lemma PaymentCopiesOverSharedId()
    ensures var a := Teacher("1", "First", "A", "S", "d", 0, 50, 0, Active, 10);
      var b := Teacher("1", "Second", "B", "S", "d", 0, 0, 0, Active, 10);
      var r := ReplaceById([a, b], b.id, PayForCompletion(b));
      FindTeacher([a, b], "B") == Some(b) && r[0] == r[1] && r[0].studentsCompleted == 1
  {
    var a := Teacher("1", "First", "A", "S", "d", 0, 50, 0, Active, 10);
    var b := Teacher("1", "Second", "B", "S", "d", 0, 0, 0, Active, 10);
    assert [a, b][0].address != "B";
  }

  // ---------------------------------------------------------------------
  // The data the store is seeded with

  /** Three active teachers with distinct ids and addresses, non-negative
      balances, valid rates, and earnings of 0.1 STX per completion. */
  function SeedTeachers(): (ts: seq<Teacher>)
    ensures |ts| == 3 && NonNegativeBalances(ts)
    ensures forall i, j :: 0 <= i < j < |ts| ==> ts[i].id != ts[j].id && ts[i].address != ts[j].address
    ensures forall i :: 0 <= i < |ts| ==>
      ts[i].status == Active && 0 <= ts[i].completionRate <= 100 &&
      ts[i].totalEarnings == PayoutAmount * ts[i].studentsCompleted
  {
    [ Teacher("1", "Dr. Sarah Smith", "ST1PQHQKV0RJXZFY1DGX8MNSNYVE3VGZJSRTPGZGM", "Mathematics",
              "2024-01-15", 45, 45, 89, Active, 100),
      Teacher("2", "Prof. Michael Davis", "ST2CY5V39NHDPWSXMW9QDT3HC3GD6Q6XX4CFRK0QH", "Computer Science",
              "2024-02-01", 38, 38, 92, Active, 85),
      Teacher("3", "Dr. Elena Martinez", "ST3NBRSFKX28FQ2ZJ1MAKX58HKHSDGNV5N7R21XCP", "Physics",
              "2024-01-20", 32, 32, 85, Active, 68) ]
  }

  /** Two students with distinct ids and addresses, each with one completed
      and one in-progress course. */
  function SeedStudents(): (ss: seq<Student>)
    ensures |ss| == 2
    ensures ss[0].id != ss[1].id && ss[0].address != ss[1].address
    ensures forall i :: 0 <= i < |ss| ==>
      |ss[i].enrolledCourses| == 2 &&
      ss[i].enrolledCourses[0].status == CourseCompleted && ss[i].enrolledCourses[0].completedDate.Some? &&
      ss[i].enrolledCourses[1].status == InProgress && ss[i].enrolledCourses[1].completedDate == None
  {
    [ Student("1", "Alice Johnson", "ST1STUDENT1PQHQKV0RJXZFY1DGX8MNSNYVE3VGZJS",
              [ Enrollment("Dr. Sarah Smith", "Advanced Mathematics", CourseCompleted, Some("2024-01-20")),
                Enrollment("Prof. Michael Davis", "Computer Science", InProgress, None) ],
              3, "2024-01-10"),
      Student("2", "Bob Wilson", "ST2STUDENT2CY5V39NHDPWSXMW9QDT3HC3GD6Q6XX4C",
              [ Enrollment("Prof. Michael Davis", "Programming Fundamentals", CourseCompleted, Some("2024-01-25")),
                Enrollment("Dr. Elena Martinez", "Physics 101", InProgress, None) ],
              2, "2024-01-15") ]
  }

  /** The one seeded payout; its timestamp is the time the store is created. */
  function SeedPayouts(now: string): (ps: seq<Payout>)
    ensures |ps| == 1 && ps[0].amount == PayoutAmount && ps[0].status == Completed && ps[0].timestamp == now
    ensures ps[0].teacher == SeedTeachers()[0].name && ps[0].teacherAddress == SeedTeachers()[0].address
    ensures ps[0].student == SeedStudents()[0].name && ps[0].studentAddress == SeedStudents()[0].address
    ensures ps[0].course == SeedStudents()[0].enrolledCourses[0].course
  {
    [ Payout("1", "Dr. Sarah Smith", "ST1PQHQKV0RJXZFY1DGX8MNSNYVE3VGZJSRTPGZGM",
             "Alice Johnson", "ST1STUDENT1PQHQKV0RJXZFY1DGX8MNSNYVE3VGZJS", "Advanced Mathematics",
             1, Completed, now, Some("0x1234567890abcdef1234567890abcdef12345678")) ]
  }

  /** Recording Alice's already-completed course under Dr. Sarah Smith again
      re-marks the entry (the list keeps its two entries) and still raises
      her completion total from 3 to 4. */
  lemma SeedRecompletionKeepsCourseCount(today: string)
    ensures var r := UpdateStudents(SeedStudents(), SeedStudents()[0].address, "Advanced Mathematics",
                                    SeedTeachers()[0].name, today);
      |r[0].enrolledCourses| == 2 && r[0].totalCompletions == 4 &&
      r[0].enrolledCourses[0] == Enrollment("Dr. Sarah Smith", "Advanced Mathematics", CourseCompleted, Some(today)) &&
      r[1] == SeedStudents()[1]
  {
    assert IsCourse(SeedStudents()[0].enrolledCourses[0], "Advanced Mathematics", "Dr. Sarah Smith");
  }
}
