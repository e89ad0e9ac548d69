/** The logic of the dashboard (`Dashboard.tsx`): the four stats cards, the
    recent completions and the top teachers, whose `sort` reorders the
    store's own teacher array in place. */
module Dashboard {
  import opened Basics
  import opened Ledger
  import opened Store
  import opened PayoutsPage

  /** `teachers.filter(t => t.status === 'active').length`. */
  function ActiveTeacherCount(ts: seq<Teacher>): (n: nat)
    ensures n <= |ts|
    ensures n == |ts| <==> forall i :: 0 <= i < |ts| ==> ts[i].status == Active
  {
    if ts == [] then 0
    else (if ts[0].status == Active then 1 else 0) + ActiveTeacherCount(ts[1..])
  }

  /** A registered teacher is active, so registering adds one active teacher. */
  lemma {:induction false} RegisteringAddsActiveTeacher(ts: seq<Teacher>, t: Teacher)
    requires t.status == Active
    ensures ActiveTeacherCount(ts + [t]) == ActiveTeacherCount(ts) + 1
  {
    if ts != [] {
      assert (ts + [t])[1..] == ts[1..] + [t];
      RegisteringAddsActiveTeacher(ts[1..], t);
    } else {
      assert (ts + [t])[1..] == [];
    }
  }

  /** `students.reduce((sum, s) => sum + s.enrolledCourses.length, 0)`. */
  function TotalEnrollments(ss: seq<Student>): (n: nat)
    ensures (forall i :: 0 <= i < |ss| ==> ss[i].enrolledCourses == []) ==> n == 0
  {
    if ss == [] then 0
    else |ss[0].enrolledCourses| + TotalEnrollments(ss[1..])
  }

  /** Recording a completion never removes an enrolment and adds at most one
      per student. */
  lemma {:induction false} CompletionEnrollmentGrowth(ss: seq<Student>, address: string, courseName: string,
                                                      teacherName: string, today: string)
    ensures var after := TotalEnrollments(UpdateStudents(ss, address, courseName, teacherName, today));
      TotalEnrollments(ss) <= after <= TotalEnrollments(ss) + |ss|
  {
    if ss != [] {
      var r := UpdateStudents(ss, address, courseName, teacherName, today);
      assert r[1..] == UpdateStudents(ss[1..], address, courseName, teacherName, today);
      UpdateStudentsCourseGrowth(ss, address, courseName, teacherName, today, 0);
      CompletionEnrollmentGrowth(ss[1..], address, courseName, teacherName, today);
    }
  }

  /** The dashboard completion rate: 0 without enrolments, else
      `Math.round((completedPayouts / enrollments) * 100)`. */
  function DashboardCompletionRate(ss: seq<Student>, ps: seq<Payout>): (rate: int)
    ensures TotalEnrollments(ss) == 0 ==> rate == 0
    ensures rate >= 0
    ensures var e, c := TotalEnrollments(ss), CountWithStatus(ps, Completed);
      e > 0 ==> 2 * rate * e - e <= 200 * c < 2 * rate * e + e
  {
    var e := TotalEnrollments(ss);
    if e > 0 then
      var rate := RoundRatio(100 * CountWithStatus(ps, Completed), e);
      assert 0 * e < (2 * rate + 1) * e;
      CancelPositiveFactor(0, 2 * rate + 1, e);
      rate
    else 0
  }

  /** Nothing caps the rate at 100: payouts for students without an
      enrolment (the store creates them for unknown student addresses)
      push it past 100 percent. */
  lemma DashboardRateCanExceedHundred()
    ensures var s := Student("1", "A", "X", [Enrollment("T", "C", InProgress, None)], 0, "d");
      var p := Payout("1", "T", "Y", UnknownStudent, "Z", "C", 1, Completed, "now", None);
      DashboardCompletionRate([s], [p, p]) == 200
  {
    var s := Student("1", "A", "X", [Enrollment("T", "C", InProgress, None)], 0, "d");
    var p := Payout("1", "T", "Y", UnknownStudent, "Z", "C", 1, Completed, "now", None);
    assert TotalEnrollments([s]) == 1;
    assert CountWithStatus([p, p], Completed) == 2;
    RoundRatioUnique(200, 1, 200);
  }

  datatype DashboardStats = DashboardStats(
    activeTeachers: nat,
    totalTeachers: nat,
    totalStudents: nat,
    totalEnrollments: nat,
    totalEarnings: int,     // tenths of an STX, completed payouts only
    pendingPayouts: int,    // tenths of an STX
    completionRate: int,
    completedPayouts: nat)

  /** The values on the four stats cards. */
  function Stats(ts: seq<Teacher>, ss: seq<Student>, ps: seq<Payout>): (s: DashboardStats)
    ensures s.activeTeachers == ActiveTeacherCount(ts) && s.totalEnrollments == TotalEnrollments(ss)
    ensures s.totalEarnings == SumWithStatus(ps, Completed) && s.pendingPayouts == SumWithStatus(ps, Pending)
    ensures s.completedPayouts == CountWithStatus(ps, Completed)
    ensures s.completionRate == DashboardCompletionRate(ss, ps)
    ensures s.activeTeachers <= s.totalTeachers == |ts|
    ensures s.totalStudents == |ss|
    ensures s.completedPayouts <= |ps|
    ensures s.completedPayouts == 0 ==> s.totalEarnings == 0
    ensures s.totalEnrollments == 0 ==> s.completionRate == 0
  {
    DashboardStats(ActiveTeacherCount(ts), |ts|, |ss|, TotalEnrollments(ss),
                   SumWithStatus(ps, Completed), SumWithStatus(ps, Pending),
                   DashboardCompletionRate(ss, ps), CountWithStatus(ps, Completed))
  }

  /** One line of the recent completions list. */
  datatype CompletionRow = CompletionRow(student: string, teacher: string, course: string,
                                         payout: int, status: PayoutStatus, time: string)

  function RowOf(p: Payout): CompletionRow
  {
    CompletionRow(p.student, p.teacher, p.course, p.amount, p.status, p.timestamp)
  }

  /** `recentCompletions`: the five newest payouts, in order, as rows. */
  function RecentCompletions(ps: seq<Payout>): (rows: seq<CompletionRow>)
    ensures |rows| == Min(5, |ps|)
    ensures forall i :: 0 <= i < |rows| ==> rows[i] == RowOf(ps[i])
  {
    var recent := Take(ps, 5);
    seq(|recent|, i requires 0 <= i < |recent| => RowOf(recent[i]))
  }

  // ---------------------------------------------------------------------
  // Top teachers

  predicate EarningsDescending(ts: seq<Teacher>)
  {
    forall i, j :: 0 <= i < j < |ts| ==> ts[i].totalEarnings >= ts[j].totalEarnings
  }

  /** One entry of the top teachers list (the mock rating is left out). */
  datatype TopTeacher = TopTeacher(name: string, completions: nat, earnings: int)

  function Summary(t: Teacher): TopTeacher
  {
    TopTeacher(t.name, t.studentsCompleted, t.totalEarnings)
  }

  /** Exchanges two neighbouring entries. */
  method SwapWithPrevious(a: array<Teacher>, j: int)
    requires 0 < j < a.Length
    modifies a
    ensures a[j - 1] == old(a[j]) && a[j] == old(a[j - 1])
    ensures forall m :: 0 <= m < a.Length && m != j - 1 && m != j ==> a[m] == old(a[m])
    ensures multiset(a[..]) == multiset(old(a[..]))
  {
    a[j - 1], a[j] := a[j], a[j - 1];
  }

  /** Moves `a[i]` left past every entry that earned less, extending the
      descending prefix `a[..i]` to `a[..i + 1]`. */
  method InsertByEarnings(a: array<Teacher>, i: int)
    requires 0 <= i < a.Length
    requires EarningsDescending(a[..i])
    modifies a
    ensures EarningsDescending(a[..i + 1])
    ensures forall m :: i < m < a.Length ==> a[m] == old(a[m])
    ensures multiset(a[..]) == multiset(old(a[..]))
  {
    var j := i;
    while j > 0 && a[j - 1].totalEarnings < a[j].totalEarnings
      invariant 0 <= j <= i
      invariant forall p, q :: 0 <= p < q <= i && p != j && q != j ==> a[p].totalEarnings >= a[q].totalEarnings
      invariant forall q :: j < q <= i ==> a[j].totalEarnings > a[q].totalEarnings
      invariant forall m :: i < m < a.Length ==> a[m] == old(a[m])
      invariant multiset(a[..]) == multiset(old(a[..]))
    {
      SwapWithPrevious(a, j);
      j := j - 1;
    }
  }

  /** `teachers.sort((a, b) => b.totalEarnings - a.totalEarnings)`, done in
      place, here by insertion. */
  method SortByEarnings(a: array<Teacher>)
    modifies a
    ensures EarningsDescending(a[..])
    ensures multiset(a[..]) == multiset(old(a[..]))
  {
    var i := 0;
    while i < a.Length
      invariant 0 <= i <= a.Length
      invariant EarningsDescending(a[..i])
      invariant multiset(a[..]) == multiset(old(a[..]))
    {
      InsertByEarnings(a, i);
      i := i + 1;
    }
    assert a[..a.Length] == a[..];
  }

  /** `topTeachers`: sorts the store's teachers by earnings, highest first
      (reordering the store's list itself, as the source's in-place sort
      does), and lists the first three. */
  method TopTeachers(store: AppStore) returns (top: seq<TopTeacher>)
    modifies store
    ensures multiset(store.teachers) == multiset(old(store.teachers))
    ensures EarningsDescending(store.teachers)
    ensures |top| == Min(3, |store.teachers|)
    ensures forall i :: 0 <= i < |top| ==> top[i] == Summary(store.teachers[i])
    ensures forall i, k :: 0 <= i < |top| && |top| <= k < |store.teachers| ==>
              top[i].earnings >= store.teachers[k].totalEarnings
    ensures store.students == old(store.students) && store.payouts == old(store.payouts)
    ensures store.isWalletConnected == old(store.isWalletConnected) && store.walletAddress == old(store.walletAddress)
    ensures store.isLoading == old(store.isLoading)
  {
    var ts := store.teachers;
    var a := new Teacher[|ts|](i requires 0 <= i < |ts| => ts[i]);
    assert a[..] == ts;
    SortByEarnings(a);
    store.teachers := a[..];
    var first := Take(store.teachers, 3);
    top := seq(|first|, i requires 0 <= i < |first| => Summary(first[i]));
  }
}
