/** The application store of `useAppStore.ts`: the wallet flags and the
    three ledger collections, as fields that its actions replace. */
module Store {
  import opened Basics
  import opened Ledger

  /** The fixed address the simulated wallet connection ends with. */
  const MockWalletAddress: string := "ST1MOCKWALLET123456789ABCDEFGHIJKLMNOPQRST"

  class AppStore {
    var isWalletConnected: bool
    var walletAddress: Option<string>
    var isLoading: bool
    var teachers: seq<Teacher>
    var students: seq<Student>
    var payouts: seq<Payout>

    /** The store as the module creates it: disconnected, idle, seeded; the
        seeded payout is stamped with the creation time `now`. */
    constructor (now: string)
      ensures !isWalletConnected && walletAddress == None && !isLoading
      ensures teachers == SeedTeachers() && students == SeedStudents() && payouts == SeedPayouts(now)
    {
      isWalletConnected, walletAddress, isLoading := false, None, false;
      teachers, students, payouts := SeedTeachers(), SeedStudents(), SeedPayouts(now);
    }

    /** First half of `connectWallet`, before the simulated delay. */
    method BeginConnectWallet()
      modifies this
      ensures isLoading
      ensures isWalletConnected == old(isWalletConnected) && walletAddress == old(walletAddress)
      ensures teachers == old(teachers) && students == old(students) && payouts == old(payouts)
    {
      isLoading := true;
    }

    /** Second half of `connectWallet`, after the delay. */
    method FinishConnectWallet()
      modifies this
      ensures isWalletConnected && walletAddress == Some(MockWalletAddress) && !isLoading
      ensures teachers == old(teachers) && students == old(students) && payouts == old(payouts)
    {
      isWalletConnected, walletAddress, isLoading := true, Some(MockWalletAddress), false;
    }

    /** `connectWallet` with the delay elided: it always succeeds. */
    method ConnectWallet()
      modifies this
      ensures isWalletConnected && walletAddress == Some(MockWalletAddress) && !isLoading
      ensures teachers == old(teachers) && students == old(students) && payouts == old(payouts)
    {
      BeginConnectWallet();
      FinishConnectWallet();
    }

    method DisconnectWallet()
      modifies this
      ensures !isWalletConnected && walletAddress == None
      ensures isLoading == old(isLoading)
      ensures teachers == old(teachers) && students == old(students) && payouts == old(payouts)
    {
      isWalletConnected, walletAddress := false, None;
    }

    /** `registerTeacher`: appends one teacher, with no check that the
        address is new. */
    method RegisterTeacher(name: string, address: string, subject: string, balance: int, stamp: Stamp)
      modifies this
      ensures |teachers| == |old(teachers)| + 1 && teachers[..|old(teachers)|] == old(teachers)
      ensures teachers[|old(teachers)|] == NewTeacher(name, address, subject, balance, stamp)
      ensures students == old(students) && payouts == old(payouts)
      ensures isWalletConnected == old(isWalletConnected) && walletAddress == old(walletAddress)
      ensures isLoading == old(isLoading)
    {
      var newTeacher := NewTeacher(name, address, subject, balance, stamp);
      teachers := teachers + [newTeacher];
    }

    /** `addFundsToTeacher`. */
    method AddFundsToTeacher(teacherId: string, amount: int)
      modifies this
      ensures teachers == AddFunds(old(teachers), teacherId, amount)
      ensures students == old(students) && payouts == old(payouts)
      ensures isWalletConnected == old(isWalletConnected) && walletAddress == old(walletAddress)
      ensures isLoading == old(isLoading)
    {
      teachers := AddFunds(teachers, teacherId, amount);
    }

    /** `recordCompletion`: nothing happens for an unknown teacher address;
        otherwise one state replacement pays the first teacher at that
        address, records the course for every student at the student
        address, and prepends the payout. */
    method RecordCompletion(teacherAddress: string, studentAddress: string, courseName: string, stamp: Stamp)
      modifies this
      ensures FindTeacher(old(teachers), teacherAddress).None? ==>
        teachers == old(teachers) && students == old(students) && payouts == old(payouts)
      ensures FindTeacher(old(teachers), teacherAddress).Some? ==>
        var t := FindTeacher(old(teachers), teacherAddress).value;
        && teachers == ReplaceById(old(teachers), t.id, PayForCompletion(t))
        && students == UpdateStudents(old(students), studentAddress, courseName, t.name, stamp.today)
        && payouts == [CompletionPayout(t, teacherAddress, StudentDisplayName(old(students), studentAddress),
                                        studentAddress, courseName, stamp)] + old(payouts)
      ensures isWalletConnected == old(isWalletConnected) && walletAddress == old(walletAddress)
      ensures isLoading == old(isLoading)
    {
      var teacher := FindTeacher(teachers, teacherAddress);
      if teacher.None? {
        return;
      }
      var t := teacher.value;
      var newPayout := CompletionPayout(t, teacherAddress, StudentDisplayName(students, studentAddress),
                                        studentAddress, courseName, stamp);
      var updatedTeacher := PayForCompletion(t);
      var updatedStudents := UpdateStudents(students, studentAddress, courseName, t.name, stamp.today);
      teachers, students, payouts := ReplaceById(teachers, t.id, updatedTeacher), updatedStudents, [newPayout] + payouts;
    }

    /** `getTeacherByAddress`: the first teacher at `address`, if any. */
    function GetTeacherByAddress(address: string): (r: Option<Teacher>)
      reads this
      ensures r.None? <==> forall i :: 0 <= i < |teachers| ==> teachers[i].address != address
      ensures r.Some? ==> exists i :: 0 <= i < |teachers| && teachers[i] == r.value && teachers[i].address == address
                             && forall j :: 0 <= j < i ==> teachers[j].address != address
    {
      FindTeacher(teachers, address)
    }

    /** `getStudentByAddress`: the first student at `address`, if any. */
    function GetStudentByAddress(address: string): (r: Option<Student>)
      reads this
      ensures r.None? <==> forall i :: 0 <= i < |students| ==> students[i].address != address
      ensures r.Some? ==> exists i :: 0 <= i < |students| && students[i] == r.value && students[i].address == address
                             && forall j :: 0 <= j < i ==> students[j].address != address
    {
      FindStudent(students, address)
    }
  }
}
