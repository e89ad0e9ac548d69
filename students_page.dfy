/** The logic of the Students page (`Students.tsx`): the search filter and
    the guard chain in front of the store's `recordCompletion`. */
module StudentsPage {
  import opened Basics
  import opened Ledger
  import opened Store

  datatype CompletionForm = CompletionForm(teacherAddress: string, studentAddress: string, courseName: string)

  const EmptyCompletionForm: CompletionForm := CompletionForm("", "", "")

  /** Which toast the handler shows. */
  datatype CompletionNotice = MissingFields | TeacherNotFound | InsufficientFunds | CompletionRecorded

  predicate HasEmptyField(f: CompletionForm)
  {
    f.teacherAddress == "" || f.studentAddress == "" || f.courseName == ""
  }

  predicate StudentMatches(term: string, s: Student)
  {
    MatchesTerm(s.name, term) || MatchesTerm(s.address, term)
  }

  /** `filteredStudents`: the students whose name or address contains the
      term, ignoring case, in their order. */
  function FilterStudents(ss: seq<Student>, term: string): (r: seq<Student>)
    ensures forall i :: 0 <= i < |r| ==> r[i] in ss && StudentMatches(term, r[i])
    ensures forall i :: 0 <= i < |ss| && StudentMatches(term, ss[i]) ==> ss[i] in r
    ensures IsSubsequence(r, ss)
    ensures forall i :: 0 <= i < |ss| ==>
      multiset(r)[ss[i]] == if StudentMatches(term, ss[i]) then multiset(ss)[ss[i]] else 0
  {
    FilterCounts(ss, s => StudentMatches(term, s));
    Filter(ss, s => StudentMatches(term, s))
  }

  /** An empty search box lists every student. */
  lemma EmptySearchKeepsAllStudents(ss: seq<Student>)
    ensures FilterStudents(ss, "") == ss
  {
    forall i | 0 <= i < |ss|
      ensures StudentMatches("", ss[i])
    {
      EmptyTermMatches(ss[i].name);
    }
  }

  /** The search ignores the case of the term. */
  lemma StudentSearchIgnoresTermCase(ss: seq<Student>, term: string)
    ensures FilterStudents(ss, Lower(term)) == FilterStudents(ss, term)
  {
    forall i | 0 <= i < |ss|
      ensures StudentMatches(Lower(term), ss[i]) == StudentMatches(term, ss[i])
    {
      MatchesTermIgnoresTermCase(ss[i].name, term);
      MatchesTermIgnoresTermCase(ss[i].address, term);
    }
    FilterCongruent(ss, s => StudentMatches(Lower(term), s), s => StudentMatches(term, s));
  }

  class StudentsView {
    const store: AppStore
    var completion: CompletionForm
    var isCompletionDialogOpen: bool

    constructor (store: AppStore)
      ensures this.store == store && completion == EmptyCompletionForm && !isCompletionDialogOpen
    {
      this.store := store;
      completion, isCompletionDialogOpen := EmptyCompletionForm, false;
    }

    /** `handleRecordCompletion`: the store is called only when every field
        is filled in, a teacher has the given address, and the first such
        teacher (the one the store will debit) holds at least 0.1 STX;
        then the form is cleared and the dialog closed. */
    method HandleRecordCompletion(stamp: Stamp) returns (notice: CompletionNotice)
      modifies this, store
      ensures notice == MissingFields <==> HasEmptyField(old(completion))
      ensures notice == TeacherNotFound <==>
        !HasEmptyField(old(completion)) && FindTeacher(old(store.teachers), old(completion).teacherAddress).None?
      ensures notice == InsufficientFunds <==>
        !HasEmptyField(old(completion)) && FindTeacher(old(store.teachers), old(completion).teacherAddress).Some? &&
        FindTeacher(old(store.teachers), old(completion).teacherAddress).value.balance < PayoutAmount
      ensures notice != CompletionRecorded ==>
        && store.teachers == old(store.teachers) && store.students == old(store.students)
        && store.payouts == old(store.payouts)
        && completion == old(completion) && isCompletionDialogOpen == old(isCompletionDialogOpen)
      ensures notice == CompletionRecorded ==>
        var f := old(completion);
        var t := FindTeacher(old(store.teachers), f.teacherAddress).value;
        && t.balance >= PayoutAmount
        && store.teachers == ReplaceById(old(store.teachers), t.id, PayForCompletion(t))
        && store.students == UpdateStudents(old(store.students), f.studentAddress, f.courseName, t.name, stamp.today)
        && store.payouts == [CompletionPayout(t, f.teacherAddress, StudentDisplayName(old(store.students), f.studentAddress),
                                              f.studentAddress, f.courseName, stamp)] + old(store.payouts)
        && completion == EmptyCompletionForm && !isCompletionDialogOpen
      ensures NonNegativeBalances(old(store.teachers)) ==> NonNegativeBalances(store.teachers)
      ensures store.isWalletConnected == old(store.isWalletConnected) && store.walletAddress == old(store.walletAddress)
      ensures store.isLoading == old(store.isLoading)
    {
      if completion.teacherAddress == "" || completion.studentAddress == "" || completion.courseName == "" {
        return MissingFields;
      }
      var teacher := FindTeacher(store.teachers, completion.teacherAddress);
      if teacher.None? {
        return TeacherNotFound;
      }
      if teacher.value.balance < PayoutAmount {
        return InsufficientFunds;
      }
      ghost var before := store.teachers;
      store.RecordCompletion(completion.teacherAddress, completion.studentAddress, completion.courseName, stamp);
      if NonNegativeBalances(before) {
        GuardedPaymentKeepsBalancesNonNegative(before, old(completion).teacherAddress);
      }
      completion := EmptyCompletionForm;
      isCompletionDialogOpen := false;
      notice := CompletionRecorded;
    }
  }
}
