# Teacher payout ledger: a Dafny model

This project models the in-memory ledger of a dashboard for performance-based
teacher payments. The store (`useAppStore.ts`) holds teachers, students and
payouts. Its actions register a teacher, fund a teacher, and record a course
completion. Recording a completion debits the teacher 0.1 STX and credits
their earnings. It bumps their completion count and completion rate, marks
the course completed for the student, and prepends an immutable payout record.
The pages around the store add guard chains in front of those actions,
case-insensitive search filters, and aggregate statistics.

Layout, one module per source component:

- `basics.dfy` (`Basics`): `Option`, `Math.round` of a ratio, ASCII lower-casing,
  `includes`, and the array operations `find`, `filter` and `slice(0, n)`.
- `ledger.dfy` (`Ledger`): the record types of `useAppStore.ts`, its seed data,
  and the pure `find`/`map`/`some` transformations inside the actions, with
  their lemmas.
- `store.dfy` (`Store`): class `AppStore`. Its fields are the wallet flags and
  `seq` fields for the three collections. Its methods replace those fields as
  the actions do.
- `students_page.dfy`, `teachers_page.dfy`: the page state (the form contents
  and the dialog flags) as classes. Their handler methods call the store, and
  the search filters are functions.
- `payouts_page.dfy`, `dashboard.dfy`: counts, totals, rates and recent lists
  as functions. The dashboard's in-place `sort` of the store's teacher array is
  an array insertion sort.

Abstractions used throughout:

- Amounts are integers counted in tenths of an STX: "10.0" is 100 and "0.1" is 1.
- The form text boxes that hold an amount are `Option<int>`. `None` means the
  box is empty.
- `Date.now()` ids, today's date, timestamps and the `Math.random` hash arrive
  as a `Stamp` parameter.
- The `toast` a handler shows is its returned notice value.

Behaviour of the code that the model keeps:

- A new payout is prepended, not appended.
- Every student at the student address is updated, not only one.
- The displayed student name also falls back to "Unknown Student" when the
  matching student's name is the empty string, because `||` treats "" as false.
- The teacher update replaces every teacher whose id equals the found
  teacher's id, not only the found one (`PaymentCopiesOverSharedId`).
- `totalCompletions` is not kept equal to the number of completed courses: it
  rises even when an already-completed course is recorded again
  (`SeedRecompletionKeepsCourseCount`).

## Model

| member | source | states |
|---|---|---|
| `Basics.RoundRatio` | frontend/src/components/Dashboard.tsx:32 | `Math.round(p/q)`: the result is the integer nearest to p/q, with a half rounded up |
| `Basics.Find` | frontend/src/store/useAppStore.ts:207 | `find` gives none exactly when no element passes the test, and otherwise the element at the first index that passes |
| `Basics.LowerChar` | frontend/src/pages/Students.tsx:34 | `toLowerCase` on one character: an upper-case ASCII letter becomes its lower-case letter; every other character is unchanged |
| `Basics.Lower` | frontend/src/pages/Students.tsx:34 | `toLowerCase`: same length, each character lower-cased; the result has no upper-case letter |
| `Basics.LowerIdempotent` | frontend/src/pages/Students.tsx:34 | lower-casing twice is the same as lower-casing once |
| `Basics.ContainsIffOccurs` | frontend/src/pages/Students.tsx:34-35 | `includes` holds exactly when the needle occurs at some offset of the text |
| `Basics.EmptyTermMatches` | frontend/src/pages/Payouts.tsx:48-50 | the case-insensitive match of the search boxes accepts every field for the empty term |
| `Basics.MatchesTermIgnoresTermCase` | frontend/src/pages/Teachers.tsx:37-38 | lower-casing the term before the case-insensitive match changes nothing |
| `Basics.Filter` | frontend/src/pages/Payouts.tsx:47-51 | `filter` keeps only passing elements and every passing one, as an order-preserving subsequence, and keeps everything when every element passes |
| `Basics.FilterCounts` | frontend/src/pages/Payouts.tsx:47-51 | `filter` keeps each passing element exactly as many times as it occurs, and drops every failing one |
| `Basics.Take` | frontend/src/components/Dashboard.tsx:81 | `slice(0, n)`: the first min(n, length) elements, in order |
| `Ledger.FindTeacher` | frontend/src/store/useAppStore.ts:207 | none iff no teacher has the address; otherwise the first teacher with exactly that address |
| `Ledger.FindStudent` | frontend/src/store/useAppStore.ts:217 | none iff no student has the address; otherwise the first student with exactly that address |
| `Ledger.StudentDisplayName` | frontend/src/store/useAppStore.ts:217 | the first matching student's name when it is non-empty; "Unknown Student" when there is no match or the first match's name is empty; never empty |
| `Ledger.NewTeacher` | frontend/src/store/useAppStore.ts:180-188 | the registered teacher has the supplied name, address, subject and balance, earnings 0, completions 0, rate 0, and is active |
| `Ledger.AddFunds` | frontend/src/store/useAppStore.ts:195-203 | same length; each teacher with the id gains `amount` in balance and nothing else; every other teacher is unchanged |
| `Ledger.AddFundsUnknownId` | frontend/src/store/useAppStore.ts:197-201 | funding an id that no teacher has leaves the teachers identical |
| `Ledger.AddFundsInverse` | frontend/src/store/useAppStore.ts:199 | adding `amount` and then `-amount` restores the list exactly |
| `Ledger.CompletionRate` | frontend/src/store/useAppStore.ts:234 | round(100·n/(n+5)), always within 0..100 |
| `Ledger.PayForCompletion` | frontend/src/store/useAppStore.ts:227-234 | completions +1, earnings +0.1, balance −0.1 with no floor, rate recomputed for the new count (0..100), identity fields unchanged |
| `Ledger.ReplaceById` | frontend/src/store/useAppStore.ts:269 | same length; each position with the id holds the updated teacher; the others are unchanged |
| `Ledger.CourseExists` | frontend/src/store/useAppStore.ts:246-248 | `some`: true exactly when some entry is for that course under that teacher |
| `Ledger.MarkCompleted` | frontend/src/store/useAppStore.ts:241 | a matched entry keeps its course and teacher and becomes completed with today's date |
| `Ledger.UpdateCourses` | frontend/src/store/useAppStore.ts:239-257 | matching (course, teacher) entries are marked completed today; other entries are unchanged; one completed entry is appended iff none matched, so the length grows by 0 or 1 |
| `Ledger.UpdateCoursesRecordsCompletion` | frontend/src/store/useAppStore.ts:239-257 | afterwards the course is listed, and every entry for it is completed with today's date |
| `Ledger.UpdateCoursesIdempotent` | frontend/src/store/useAppStore.ts:239-257 | recording the same course twice on one day gives the same list as recording it once |
| `Ledger.CompleteForStudent` | frontend/src/store/useAppStore.ts:259-263 | the student's total rises by one, and the course list is the updated one; identity fields are unchanged |
| `Ledger.UpdateStudents` | frontend/src/store/useAppStore.ts:237-266 | same count; every student at the address gets the completion; students at other addresses are untouched |
| `Ledger.UpdateStudentsUnknownAddress` | frontend/src/store/useAppStore.ts:238-265 | an address no student has leaves the students identical |
| `Ledger.UpdateStudentsCourseGrowth` | frontend/src/store/useAppStore.ts:239-262 | each course list grows by at most one entry, and non-matching entries keep their place and value |
| `Ledger.CompletionPayout` | frontend/src/store/useAppStore.ts:213-224 | payout of 0.1, completed, carrying the teacher's name and address, the student name, the student address and the course |
| `Ledger.GuardedPaymentKeepsBalancesNonNegative` | frontend/src/store/useAppStore.ts:207-231 | if all balances are ≥ 0 and the first teacher at the address has ≥ 0.1, then all balances are still ≥ 0 after the debit |
| `Ledger.UnguardedPaymentCanOverdraw` | frontend/src/store/useAppStore.ts:231 | the debit alone has no floor: a zero balance goes negative |
| `Ledger.PaymentRaisesOnlyTheFoundTeacher` | frontend/src/store/useAppStore.ts:269 | with distinct ids, only the found teacher changes, and its completion count rises by exactly one |
| `Ledger.PaymentCopiesOverSharedId` | frontend/src/store/useAppStore.ts:269 | with a shared id, the other teacher is overwritten by a copy of the paid one |
| `Ledger.SeedTeachers` | frontend/src/store/useAppStore.ts:79-116 | three active teachers with distinct ids and addresses, non-negative balances, rates within 0..100, and earnings of 0.1 STX per completion |
| `Ledger.SeedStudents` | frontend/src/store/useAppStore.ts:118-141 | two students with distinct ids and addresses, each with one completed course (dated) and one in progress (undated) |
| `Ledger.SeedPayouts` | frontend/src/store/useAppStore.ts:143-156 | one completed payout of 0.1 STX, stamped now, from the first seed teacher to the first seed student for her completed course |
| `Ledger.SeedRecompletionKeepsCourseCount` | frontend/src/store/useAppStore.ts:118-141 | in the seed data, recording Alice's completed course again keeps her two entries, re-dates the entry, and raises her total from 3 to 4 |
| `Store.AppStore.constructor` | frontend/src/store/useAppStore.ts:72-156 | the store starts disconnected and idle, with the seed teachers, students and payout |
| `Store.AppStore.BeginConnectWallet` | frontend/src/store/useAppStore.ts:160 | sets the loading flag and changes nothing else |
| `Store.AppStore.FinishConnectWallet` | frontend/src/store/useAppStore.ts:165-169 | connected, the mock address, not loading; the ledger is unchanged |
| `Store.AppStore.ConnectWallet` | frontend/src/store/useAppStore.ts:159-170 | always ends connected, with the mock address and not loading |
| `Store.AppStore.DisconnectWallet` | frontend/src/store/useAppStore.ts:172-177 | not connected and no address; the rest is unchanged |
| `Store.AppStore.RegisterTeacher` | frontend/src/store/useAppStore.ts:179-193 | appends exactly one teacher at the end, earlier teachers unchanged, with no duplicate-address check |
| `Store.AppStore.AddFundsToTeacher` | frontend/src/store/useAppStore.ts:195-203 | the teachers become `AddFunds` of the old teachers; students and payouts are unchanged |
| `Store.AppStore.RecordCompletion` | frontend/src/store/useAppStore.ts:205-273 | an unknown teacher address changes nothing; otherwise the first teacher is paid (by id), students are updated, and the payout is prepended, with the old list as its tail |
| `Store.AppStore.GetTeacherByAddress` | frontend/src/store/useAppStore.ts:275-277 | the first teacher whose address is exactly the argument, or none |
| `Store.AppStore.GetStudentByAddress` | frontend/src/store/useAppStore.ts:279-281 | the first student whose address is exactly the argument, or none |
| `StudentsPage.FilterStudents` | frontend/src/pages/Students.tsx:33-36 | the order-preserving subsequence of students whose lowercased name or address contains the lowercased term, each matching student kept as often as it occurs |
| `StudentsPage.EmptySearchKeepsAllStudents` | frontend/src/pages/Students.tsx:33-36 | an empty term keeps every student |
| `StudentsPage.StudentSearchIgnoresTermCase` | frontend/src/pages/Students.tsx:33-36 | lowercasing the term first gives the same result |
| `StudentsPage.StudentsView.constructor` | frontend/src/pages/Students.tsx:25-30 | the form starts empty and the dialog closed |
| `StudentsPage.StudentsView.HandleRecordCompletion` | frontend/src/pages/Students.tsx:38-80 | no store change when a field is empty, when no teacher has the address, or when the first such teacher has < 0.1; otherwise exactly the store's completion and a cleared form; non-negative balances stay non-negative |
| `TeachersPage.FilterTeachers` | frontend/src/pages/Teachers.tsx:36-39 | the order-preserving subsequence of teachers whose lowercased name or subject contains the lowercased term, each matching teacher kept as often as it occurs |
| `TeachersPage.EmptySearchKeepsAllTeachers` | frontend/src/pages/Teachers.tsx:36-39 | an empty term keeps every teacher |
| `TeachersPage.TeacherSearchIgnoresTermCase` | frontend/src/pages/Teachers.tsx:36-39 | lowercasing the term first gives the same result |
| `TeachersPage.TeachersView.constructor` | frontend/src/pages/Teachers.tsx:24-33 | empty form, no amount, no selection, dialogs closed |
| `TeachersPage.TeachersView.HandleRegisterTeacher` | frontend/src/pages/Teachers.tsx:41-70 | no store change if any of the four fields is empty; otherwise exactly one teacher with those fields is appended and the form is reset |
| `TeachersPage.TeachersView.HandleAddFunds` | frontend/src/pages/Teachers.tsx:72-95 | no change without a selected id or an amount, or when no teacher has the id; otherwise the teachers are funded and the selection is cleared |
| `PayoutsPage.CountWithStatus` | frontend/src/pages/Payouts.tsx:34-36 | the count is at most the number of payouts, and is zero iff no payout has the status |
| `PayoutsPage.SumWithStatus` | frontend/src/pages/Payouts.tsx:26-32 | the total sums payouts of one status only: it is 0 when none has it, and ≥ 0 when amounts are |
| `PayoutsPage.StatusCountsPartition` | frontend/src/pages/Payouts.tsx:34-36 | the completed, pending and failed counts sum to the number of payouts |
| `PayoutsPage.SumOfUniformAmounts` | frontend/src/pages/Payouts.tsx:26-28 | when all payouts of a status have one amount, the total is that amount times the count |
| `PayoutsPage.PrependPayoutTotals` | frontend/src/pages/Payouts.tsx:26-36 | a new payout changes only its own status's total (by its amount) and count (by one) |
| `PayoutsPage.AveragePerCompletion` | frontend/src/pages/Payouts.tsx:44 | "0.0" with no completed payouts; otherwise total/count rounded to the nearest tenth |
| `PayoutsPage.AverageOfFixedPayouts` | frontend/src/pages/Payouts.tsx:44 | when every completed payout is 0.1, the average is 0.1 (0 when there are none) |
| `PayoutsPage.ComputeAnalytics` | frontend/src/pages/Payouts.tsx:38-45 | total and pending amounts are the completed and pending sums; the success, failed and pending counts are those statuses' counts and add up to the payout count; the average is completed total over completed count; empty categories show zero |
| `PayoutsPage.FilterPayouts` | frontend/src/pages/Payouts.tsx:47-51 | the order-preserving subsequence of payouts whose teacher, student or course contains the term, ignoring case, each matching payout kept as often as it occurs |
| `PayoutsPage.EmptySearchKeepsAllPayouts` | frontend/src/pages/Payouts.tsx:47-51 | an empty term keeps every payout |
| `PayoutsPage.StatusVariant` | frontend/src/pages/Payouts.tsx:66-77 | completed→default, failed→destructive, anything else (pending included)→secondary |
| `PayoutsPage.StatusVariantOfStatus` | frontend/src/pages/Payouts.tsx:66-77 | each of the three statuses gets its own variant: default, secondary, destructive |
| `PayoutsPage.RecentActivity` | frontend/src/pages/Payouts.tsx:255 | the first min(5, length) payouts in order |
| `PayoutsPage.RecordedPayoutIsMostRecent` | frontend/src/pages/Payouts.tsx:255 | a newly prepended payout heads the list, followed by the previous first four |
| `Dashboard.ActiveTeacherCount` | frontend/src/components/Dashboard.tsx:38 | at most the number of teachers, and equal to it iff all are active |
| `Dashboard.RegisteringAddsActiveTeacher` | frontend/src/components/Dashboard.tsx:38 | appending an active teacher raises the active count by exactly one |
| `Dashboard.TotalEnrollments` | frontend/src/components/Dashboard.tsx:30 | the sum of the lengths of all students' course lists; zero when every list is empty |
| `Dashboard.CompletionEnrollmentGrowth` | frontend/src/components/Dashboard.tsx:30 | a completion never lowers the enrolment sum, and raises it by at most one per student |
| `Dashboard.DashboardCompletionRate` | frontend/src/components/Dashboard.tsx:29-33 | 0 with no enrolments; otherwise round(100·completed/enrolments), never negative |
| `Dashboard.DashboardRateCanExceedHundred` | frontend/src/components/Dashboard.tsx:31-33 | the rate is not capped: two completed payouts over one enrolment show 200 |
| `Dashboard.Stats` | frontend/src/components/Dashboard.tsx:21-64 | each card value is its aggregate: active-teacher count (≤ total), enrolment sum, completed and pending sums, completed count and the dashboard rate; earnings are 0 without completed payouts and the rate is 0 without enrolments |
| `Dashboard.RecentCompletions` | frontend/src/components/Dashboard.tsx:67-76 | the first min(5, length) payouts, in order, each mapped to its row |
| `Dashboard.SortByEarnings` | frontend/src/components/Dashboard.tsx:80 | the array ends in non-increasing earnings order and is a permutation of itself |
| `Dashboard.TopTeachers` | frontend/src/components/Dashboard.tsx:79-87 | the store's teachers are permuted into non-increasing earnings order; at most 3 entries are listed, each earning at least every teacher left out |

## Left out

- Rendering: JSX, styling, dialogs as UI, toast texts, routing and icons (`getStatusIcon` included) have no stateable behaviour. Only the dialog-open flags are kept.
- The presentation-only files `Hero.tsx`, `stats-card.tsx`, `Index.tsx` and `Navigation.tsx` are not part of this model. Navigation's `catch` branch cannot run, since `connectWallet` never fails.
- The 1.5-second wallet delay and anything that interleaves with it: `connectWallet` is two steps, `BeginConnectWallet` and `FinishConnectWallet`.
- Decimal strings: `parseFloat`, `toString` and `toFixed` are not modelled. Amounts are exact tenths, so floating-point drift is absent. Amount text that is not a number is outside the model.
- `Basics.RoundRatio`: applies `Math.round` to the exact ratio, not to the floating-point quotient that the source rounds.
- `Dashboard.DashboardCompletionRate`: because the ratio is exact, a displayed rate can differ from the source. With 23 completed payouts over 40 enrolments, the source computes (23 / 40) * 100 in double precision as 57.49999999999999 and shows 57; the model gives 58.
- Generated values (ids, dates, timestamps, the transaction hash, the dashboard's mock rating) are parameters or dropped. Id uniqueness is not assumed.
- The success-rate percentage (Payouts.tsx line 209) is left out because it divides by zero when there are no completed or failed payouts. The progress-bar widths are left out because they are floating-point display values.
- `toLowerCase` is modelled on ASCII letters only; no other Unicode case mapping is modelled.
- Zustand internals (`create`, `set`, `get`, subscriptions) are left out. The dashboard's in-place sort is modelled as a change to the store's teacher list, but the fact that it notifies no subscriber is not.
- `Dashboard.SortByEarnings`: does not state that teachers with equal earnings keep their relative order. JavaScript's `sort` is stable, and insertion sort happens to be stable too, but the contract does not say so.
- `Dashboard.TopTeachers`: the same stability omission applies; the mock rating field of each entry is dropped.
- Student initials and shortened addresses are display formatting only.
