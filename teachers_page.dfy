/** The logic of the Teachers page (`Teachers.tsx`): the search filter and
    the guards in front of the store's `registerTeacher` and
    `addFundsToTeacher`.

    The page's amount boxes hold text that the store later reads as a
    number; here a box holds `None` when its text is empty and otherwise the
    amount it stands for, in tenths of an STX. */
module TeachersPage {
  import opened Basics
  import opened Ledger
  import opened Store

  datatype TeacherForm = TeacherForm(name: string, address: string, subject: string, balance: Option<int>)

  const EmptyTeacherForm: TeacherForm := TeacherForm("", "", "", None)

  /** Which toast the registration handler shows. */
  datatype RegisterNotice = RegisterMissingFields | TeacherRegistered

  /** Which toast the funding handler shows; `NoSuchTeacher` is the silent return. */
  datatype FundingNotice = InvalidAmount | NoSuchTeacher | FundsAdded

  predicate HasEmptyField(f: TeacherForm)
  {
    f.name == "" || f.address == "" || f.subject == "" || f.balance.None?
  }

  predicate TeacherMatches(term: string, t: Teacher)
  {
    MatchesTerm(t.name, term) || MatchesTerm(t.subject, term)
  }

  /** `filteredTeachers`: the teachers whose name or subject contains the
      term, ignoring case, in their order. */
  function FilterTeachers(ts: seq<Teacher>, term: string): (r: seq<Teacher>)
    ensures forall i :: 0 <= i < |r| ==> r[i] in ts && TeacherMatches(term, r[i])
    ensures forall i :: 0 <= i < |ts| && TeacherMatches(term, ts[i]) ==> ts[i] in r
    ensures IsSubsequence(r, ts)
    ensures forall i :: 0 <= i < |ts| ==>
      multiset(r)[ts[i]] == if TeacherMatches(term, ts[i]) then multiset(ts)[ts[i]] else 0
  {
    FilterCounts(ts, t => TeacherMatches(term, t));
    Filter(ts, t => TeacherMatches(term, t))
  }

  /** An empty search box lists every teacher. */
  lemma EmptySearchKeepsAllTeachers(ts: seq<Teacher>)
    ensures FilterTeachers(ts, "") == ts
  {
    forall i | 0 <= i < |ts|
      ensures TeacherMatches("", ts[i])
    {
      EmptyTermMatches(ts[i].name);
    }
  }

  /** The search ignores the case of the term. */
  lemma TeacherSearchIgnoresTermCase(ts: seq<Teacher>, term: string)
    ensures FilterTeachers(ts, Lower(term)) == FilterTeachers(ts, term)
  {
    forall i | 0 <= i < |ts|
      ensures TeacherMatches(Lower(term), ts[i]) == TeacherMatches(term, ts[i])
    {
      MatchesTermIgnoresTermCase(ts[i].name, term);
      MatchesTermIgnoresTermCase(ts[i].subject, term);
    }
    FilterCongruent(ts, t => TeacherMatches(Lower(term), t), t => TeacherMatches(term, t));
  }

  class TeachersView {
    const store: AppStore
    var newTeacher: TeacherForm
    var fundingAmount: Option<int>
    var selectedTeacherId: Option<string>
    var isRegisterDialogOpen: bool
    var isFundingDialogOpen: bool

    constructor (store: AppStore)
      ensures this.store == store && newTeacher == EmptyTeacherForm
      ensures fundingAmount == None && selectedTeacherId == None
      ensures !isRegisterDialogOpen && !isFundingDialogOpen
    {
      this.store := store;
      newTeacher, fundingAmount, selectedTeacherId := EmptyTeacherForm, None, None;
      isRegisterDialogOpen, isFundingDialogOpen := false, false;
    }

    /** `handleRegisterTeacher`: with every field filled in, registers the
        four fields once and clears the form; otherwise changes nothing. */
    method HandleRegisterTeacher(stamp: Stamp) returns (notice: RegisterNotice)
      modifies this, store
      ensures notice == RegisterMissingFields <==> HasEmptyField(old(newTeacher))
      ensures notice == RegisterMissingFields ==>
        && store.teachers == old(store.teachers)
        && newTeacher == old(newTeacher) && isRegisterDialogOpen == old(isRegisterDialogOpen)
      ensures notice == TeacherRegistered ==>
        var f := old(newTeacher);
        && store.teachers == old(store.teachers) + [NewTeacher(f.name, f.address, f.subject, f.balance.value, stamp)]
        && newTeacher == EmptyTeacherForm && !isRegisterDialogOpen
      ensures store.students == old(store.students) && store.payouts == old(store.payouts)
      ensures store.isWalletConnected == old(store.isWalletConnected) && store.walletAddress == old(store.walletAddress)
      ensures store.isLoading == old(store.isLoading)
      ensures fundingAmount == old(fundingAmount) && selectedTeacherId == old(selectedTeacherId)
      ensures isFundingDialogOpen == old(isFundingDialogOpen)
    {
      if newTeacher.name == "" || newTeacher.address == "" || newTeacher.subject == "" || newTeacher.balance.None? {
        return RegisterMissingFields;
      }
      store.RegisterTeacher(newTeacher.name, newTeacher.address, newTeacher.subject, newTeacher.balance.value, stamp);
      newTeacher := EmptyTeacherForm;
      isRegisterDialogOpen := false;
      notice := TeacherRegistered;
    }

    /** `handleAddFunds`: needs a selected teacher id (the empty id counts as
        none) and a non-empty amount; returns silently when no teacher has
        that id; otherwise funds it and clears the selection. */
    method HandleAddFunds() returns (notice: FundingNotice)
      modifies this, store
      ensures notice == InvalidAmount <==>
        old(selectedTeacherId).None? || old(selectedTeacherId).value == "" || old(fundingAmount).None?
      ensures notice == NoSuchTeacher <==>
        notice != InvalidAmount &&
        forall i :: 0 <= i < |old(store.teachers)| ==> old(store.teachers)[i].id != old(selectedTeacherId).value
      ensures notice != FundsAdded ==>
        && store.teachers == old(store.teachers)
        && fundingAmount == old(fundingAmount) && selectedTeacherId == old(selectedTeacherId)
        && isFundingDialogOpen == old(isFundingDialogOpen)
      ensures notice == FundsAdded ==>
        && store.teachers == AddFunds(old(store.teachers), old(selectedTeacherId).value, old(fundingAmount).value)
        && fundingAmount == None && selectedTeacherId == None && !isFundingDialogOpen
      ensures store.students == old(store.students) && store.payouts == old(store.payouts)
      ensures store.isWalletConnected == old(store.isWalletConnected) && store.walletAddress == old(store.walletAddress)
      ensures store.isLoading == old(store.isLoading)
      ensures newTeacher == old(newTeacher) && isRegisterDialogOpen == old(isRegisterDialogOpen)
    {
      if selectedTeacherId.None? || selectedTeacherId.value == "" || fundingAmount.None? {
        return InvalidAmount;
      }
      var id := selectedTeacherId.value;
      var teacher := Find(store.teachers, (t: Teacher) => t.id == id);
      if teacher.None? {
        return NoSuchTeacher;
      }
      store.AddFundsToTeacher(id, fundingAmount.value);
      fundingAmount, selectedTeacherId := None, None;
      isFundingDialogOpen := false;
      notice := FundsAdded;
    }
  }
}
