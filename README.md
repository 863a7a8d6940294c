# yeumeasy equipment lending, modelled in Dafny

yeumeasy is a single-page app for lending equipment (routers, switches,
cables, notebooks) to students. Every page keeps its lists in browser
storage. The model covers the five pages that hold the logic:

- **Borrow page:** a cart of equipment lines. `addToCart` merges lines per
  equipment id, `updateCartAmount` clips a line to the stock, and
  `removeItem` drops a line. `validateBorrow` checks the request in a fixed
  order and re-checks every cart line against the live stock. `submitBorrow`
  prepends a BORROWED record, takes the stock off the shelf and empties the
  cart.
- **Borrow history page:** the searchable list of borrows. The return form
  is prefilled with what each line still has out. `setReturnQty` edits it.
  `applyReturn` refuses any line asked to return more than it has out;
  otherwise it raises the returned amounts, sets RETURNED exactly when every
  line is fully back, and restocks by equipment id. `deleteBorrow` removes a
  record without restocking.
- **Reports page:** the borrow timeline, one bucket per day or per month
  over a window of labels built by stepping a date. There is also the
  "most borrowed" ranking: per equipment, the number of borrows naming it
  and the total units, sorted by units with a stable sort and cut to the
  top N.
- **Equipment page** and **Users page:** list, search, create, edit,
  delete and reset-to-sample. The users form refuses a student id that
  another user already has.

Page state is modelled as classes whose `seq` fields the methods reassign:
`Borrowing.BorrowPage`, `ReturnHistory.HistoryPage`,
`EquipmentAdmin.EquipmentPage` and `UserAdmin.UsersPage`. Loops are methods
proved against specification functions. The remaining logic is functions
with lemmas.

Across pages, `Lifecycle` proves conservation: for every equipment id, the
stock on the shelf plus the units still out on borrows is unchanged by a
borrow and by a return. `Scenarios` proves five concrete walks through the
app.

Modules:

| module | file |
|---|---|
| `Text`: JS `trim`, ASCII `toLowerCase`, `includes`, string `<` | text.dfy |
| `Common`: find, filter, replace by id, per-id sums | common.dfy |
| `Entities`: the stored records | entities.dfy |
| `Borrowing` | borrowing.dfy |
| `ReturnHistory` | history.dfy |
| `Calendar`: the proleptic Gregorian calendar and date labels | calendar.dfy |
| `Timeline`: the first report | timeline.dfy |
| `Ranking`: the second report | ranking.dfy |
| `EquipmentAdmin` | equipment_admin.dfy |
| `UserAdmin` | user_admin.dfy |
| `Lifecycle` | lifecycle.dfy |
| `Scenarios` | scenarios.dfy |

## Model

| member | source | states |
|---|---|---|
| Text.BlankIffAllSpace | yeumeasy-frontend/src/pages/Equipment.jsx:66-67 | `!s.trim()` holds exactly when every character of s is white space |
| Text.Lower | yeumeasy-frontend/src/pages/Equipment.jsx:39-44 | lower-casing keeps the length and maps each character; A–Z go to a–z and others are unchanged |
| Text.Includes | yeumeasy-frontend/src/pages/Equipment.jsx:43-44 | `hay.includes(needle)` holds exactly when needle occurs at some position of hay |
| Text.IncludesEmpty | yeumeasy-frontend/src/pages/Users.jsx:27-36 | every string includes the empty string |
| Text.LessTrichotomy | yeumeasy-frontend/src/pages/Reports.jsx:41-45 | JS string `<` is a strict total order: exactly one of a < b, a == b, b < a |
| Text.LessTransitive | yeumeasy-frontend/src/pages/Reports.jsx:41-45 | JS string `<` is transitive |
| Common.Find | yeumeasy-frontend/src/pages/Borrow.jsx:68 | `find` by id is None exactly when no element has the id; otherwise it gives an element with that id |
| Common.Without | yeumeasy-frontend/src/pages/Users.jsx:79 | `filter(r => r.id !== id)` keeps exactly the elements whose id differs: every element kept was there before, and every element with another id is kept |
| Common.WithoutConcat | yeumeasy-frontend/src/pages/Users.jsx:79 | deleting by id distributes over concatenation, so the elements kept stay in their order |
| Common.WithoutUnique | yeumeasy-frontend/src/pages/Equipment.jsx:89 | with unique ids, removing the id of element k leaves the others in order |
| Common.Replace | yeumeasy-frontend/src/pages/Equipment.jsx:82 | `map(r => r.id === id ? y : r)` keeps the length, puts y at every position with the id and leaves the rest |
| Common.ReplaceInPlace | yeumeasy-frontend/src/pages/Equipment.jsx:82 | with unique ids, replacing by y's id writes y at y's index only, and ids stay unique |
| Common.FilterMembers | yeumeasy-frontend/src/pages/Equipment.jsx:40-48 | x is in `s.filter(p)` exactly when x is in s and p(x) holds |
| Borrowing.CheckAdd | yeumeasy-frontend/src/pages/Borrow.jsx:66-74 | addToCart refuses, in this order: nothing selected, unknown equipment, a non-finite or non-positive amount, equipment not AVAILABLE, an amount above the stock (reporting the stock left); each refusal is given exactly when the checks before it pass and it fails; otherwise it accepts that equipment and amount |
| Borrowing.MergeLine | yeumeasy-frontend/src/pages/Borrow.jsx:76-84 | a new equipment id is appended as a line; an existing line grows by qty unless the sum exceeds the stock, when the cart is unchanged; other lines are untouched |
| Borrowing.MergeKeepsLinesUnique | yeumeasy-frontend/src/pages/Borrow.jsx:76-84 | merging never creates a second line for the same equipment |
| Borrowing.UpdateLine | yeumeasy-frontend/src/pages/Borrow.jsx:93-107 | unknown equipment or a non-finite or non-positive value leaves the cart unchanged; otherwise the line's amount becomes min(value, stock) and other lines are untouched |
| Borrowing.RemoveLine | yeumeasy-frontend/src/pages/Borrow.jsx:89-91 | no line of that equipment is left; an absent id changes nothing; with unique lines exactly that line goes and the others keep their order |
| Borrowing.LineError | yeumeasy-frontend/src/pages/Borrow.jsx:118-123 | a cart line passes the re-check exactly when its equipment exists, is AVAILABLE and has at least the line's amount; a failure is always one of the three line errors |
| Borrowing.CartError | yeumeasy-frontend/src/pages/Borrow.jsx:118-123 | the cart passes exactly when every line passes; otherwise the error is that of the first failing line |
| Borrowing.RequestError | yeumeasy-frontend/src/pages/Borrow.jsx:109-125 | the checks run in order (users, borrower, borrow date, due date, due date not before borrow date, non-empty cart); each error is reported exactly when every earlier check passes and it fails; once they all pass the result is the cart re-check `CartError`; the request passes exactly when all checks pass |
| Borrowing.ValidateBorrow | yeumeasy-frontend/src/pages/Borrow.jsx:109-125 | the early-return loop over the cart returns exactly `RequestError` |
| Borrowing.NewDetails | yeumeasy-frontend/src/pages/Borrow.jsx:139-145 | one detail line per cart line, in cart order, with the borrow's id, the line's equipment and amount, and nothing returned |
| Borrowing.NewBorrow | yeumeasy-frontend/src/pages/Borrow.jsx:133-147 | the new record is BORROWED and carries the given ids, user, dates, creation time and the cart's lines |
| Borrowing.TakeStock | yeumeasy-frontend/src/pages/Borrow.jsx:150-154 | each row loses the amount of the first cart line for its id; rows not in the cart are unchanged |
| Borrowing.TakeStockNonNegative | yeumeasy-frontend/src/pages/Borrow.jsx:118-123 | with unique equipment ids, a cart that passed the re-check never drives a stock below zero |
| Borrowing.CartOkPassesRecheck | yeumeasy-frontend/src/pages/Borrow.jsx:66-123 | a cart built through the page's own operations (unique lines, positive amounts within AVAILABLE stock) passes the re-check |
| Borrowing.MergeKeepsCartOk | yeumeasy-frontend/src/pages/Borrow.jsx:74-84 | an accepted add keeps the cart well formed; the "no clipping" guard at line 80 is what keeps the merged line within stock |
| Borrowing.UpdateKeepsCartOk | yeumeasy-frontend/src/pages/Borrow.jsx:101-106 | the `min` clip keeps an edited line positive and within stock |
| Borrowing.RemoveKeepsCartOk | yeumeasy-frontend/src/pages/Borrow.jsx:89-91 | removing a line keeps the cart well formed |
| Borrowing.BorrowPage.constructor | yeumeasy-frontend/src/pages/Borrow.jsx:29-43 | the page opens on the stored lists with an empty cart |
| Borrowing.BorrowPage.AddToCart | yeumeasy-frontend/src/pages/Borrow.jsx:66-87 | it reports exactly the refusal of `CheckAdd`, leaving the cart unchanged; otherwise the cart becomes `MergeLine` of the old cart; the cart stays well formed |
| Borrowing.BorrowPage.RemoveItem | yeumeasy-frontend/src/pages/Borrow.jsx:89-91 | the cart becomes `RemoveLine` of the old cart and stays well formed |
| Borrowing.BorrowPage.UpdateCartAmount | yeumeasy-frontend/src/pages/Borrow.jsx:93-107 | the cart becomes `UpdateLine` of the old cart and stays well formed |
| Borrowing.BorrowPage.SubmitBorrow | yeumeasy-frontend/src/pages/Borrow.jsx:127-161 | the error is exactly `RequestError`, and on error nothing changes; otherwise the new borrow is prepended, the stock is taken and the cart emptied |
| ReturnHistory.PrefillAmount | yeumeasy-frontend/src/pages/BorrowHistory.jsx:57-58 | the proposed amount is max(amount − returned, 0): what is still out when something is, 0 otherwise |
| ReturnHistory.Prefill | yeumeasy-frontend/src/pages/BorrowHistory.jsx:55-59 | the map has an entry for every line's equipment and no other keys, and no entry is negative |
| ReturnHistory.PrefillEntry | yeumeasy-frontend/src/pages/BorrowHistory.jsx:56-59 | with one line per equipment, each line's entry is that line's prefill amount |
| ReturnHistory.PrefillLoop | yeumeasy-frontend/src/pages/BorrowHistory.jsx:55-59 | the loop builds exactly `Prefill` |
| ReturnHistory.SetQty | yeumeasy-frontend/src/pages/BorrowHistory.jsx:77-81 | a finite non-negative value is stored under that id; anything else leaves the map unchanged; other keys are untouched; entries stay non-negative |
| ReturnHistory.OverReturn | yeumeasy-frontend/src/pages/BorrowHistory.jsx:87-94 | None exactly when no line is asked to return more than it has out; otherwise the first such line's equipment id |
| ReturnHistory.CheckReturn | yeumeasy-frontend/src/pages/BorrowHistory.jsx:87-94 | the early-return loop returns exactly `OverReturn` |
| ReturnHistory.ReturnLines | yeumeasy-frontend/src/pages/BorrowHistory.jsx:100-106 | every line's returned amount grows by its equipment's map entry (0 when absent); everything else on the line is kept |
| ReturnHistory.ReturnBorrow | yeumeasy-frontend/src/pages/BorrowHistory.jsx:97-118 | the record keeps its id, user, dates and creation time; it is RETURNED exactly when every returned amount reaches the line's amount |
| ReturnHistory.ReturnBorrows | yeumeasy-frontend/src/pages/BorrowHistory.jsx:97-118 | records with the active id are returned with the map; all others are unchanged |
| ReturnHistory.Restock | yeumeasy-frontend/src/pages/BorrowHistory.jsx:121-125 | each row gains its id's map entry; rows without a non-zero entry are unchanged |
| ReturnHistory.ReturnStaysBounded | yeumeasy-frontend/src/pages/BorrowHistory.jsx:87-106 | after a return that passed validation, every line has 0 ≤ returned ≤ amount, and no returned amount went down |
| ReturnHistory.ReturnedIffNothingOut | yeumeasy-frontend/src/pages/BorrowHistory.jsx:109-116 | for bounded lines, the record is RETURNED exactly when no line has anything still out |
| ReturnHistory.PrefillReturnsAll | yeumeasy-frontend/src/pages/BorrowHistory.jsx:50-118 | confirming the prefilled form passes validation, brings every line fully back and makes the record RETURNED |
| ReturnHistory.ReturnKeepsAllBounded | yeumeasy-frontend/src/pages/BorrowHistory.jsx:87-118 | with unique borrow ids, a validated return keeps every stored line bounded |
| ReturnHistory.UserName | yeumeasy-frontend/src/pages/BorrowHistory.jsx:32 | the name shown is the full name of the user with that id when there is one with a non-empty name, and "-" otherwise |
| ReturnHistory.AlertName | yeumeasy-frontend/src/pages/BorrowHistory.jsx:91 | the alert shows the name of the equipment with that id when there is one with a non-empty name, and "Unknown" otherwise |
| ReturnHistory.HistoryView | yeumeasy-frontend/src/pages/BorrowHistory.jsx:35-48 | a record is listed exactly when it is stored and matches both the status filter and the query (user name, borrow id or any line's equipment name); a blank query with ALL lists everything |
| ReturnHistory.HistoryPage.constructor | yeumeasy-frontend/src/pages/BorrowHistory.jsx:17-27 | the page opens on the stored lists with the return form closed and empty |
| ReturnHistory.HistoryPage.OpenReturnModal | yeumeasy-frontend/src/pages/BorrowHistory.jsx:50-64 | an unknown borrow changes nothing; otherwise the form opens on that borrow with `Prefill` of its lines |
| ReturnHistory.HistoryPage.CloseModal | yeumeasy-frontend/src/pages/BorrowHistory.jsx:66-70 | the form closes, with no active borrow and an empty map |
| ReturnHistory.HistoryPage.SetReturnQty | yeumeasy-frontend/src/pages/BorrowHistory.jsx:77-81 | the map becomes `SetQty` of the old map and stays non-negative |
| ReturnHistory.HistoryPage.ApplyReturn | yeumeasy-frontend/src/pages/BorrowHistory.jsx:83-131 | with no active borrow nothing happens; an over-return is refused, naming the first offending line, and nothing changes; otherwise the borrows become `ReturnBorrows`, the equipment `Restock` and the form closes; with unique ids, bounded lines stay bounded |
| ReturnHistory.HistoryPage.DeleteBorrow | yeumeasy-frontend/src/pages/BorrowHistory.jsx:133-136 | once confirmed, records with that id are removed and the equipment is not touched |
| Calendar.NextDay | yeumeasy-frontend/src/pages/Reports.jsx:141 | `setDate(getDate() + 1)` gives a valid date strictly after d, across month and year ends |
| Calendar.OrdinalOrder | yeumeasy-frontend/src/pages/Reports.jsx:141 | the day number orders dates exactly as the calendar does |
| Calendar.DayAfter | yeumeasy-frontend/src/pages/Reports.jsx:141 | stepping k days moves the day number by exactly k |
| Calendar.FormatOrder | yeumeasy-frontend/src/pages/Reports.jsx:41-45 | for four-digit years, YYYY-MM-DD labels compare as strings exactly as the dates compare, and equal labels mean equal dates |
| Calendar.NextMonth | yeumeasy-frontend/src/pages/Reports.jsx:170-174 | `setMonth(getMonth() + 1)` on the first of a month gives the next month, December rolling to January |
| Calendar.MonthLabelOrder | yeumeasy-frontend/src/pages/Reports.jsx:179 | for four-digit years, YYYY-MM labels compare as strings exactly as the months compare |
| Calendar.MonthOfDate | yeumeasy-frontend/src/pages/Reports.jsx:35-39 | the first seven characters of a date's label are its month's label |
| Timeline.ToDateOnly | yeumeasy-frontend/src/pages/Reports.jsx:9-13 | an empty value gives ""; otherwise the first min(length, 10) characters |
| Timeline.Ym | yeumeasy-frontend/src/pages/Reports.jsx:35-39 | an empty value gives ""; otherwise the first min(length, 7) characters |
| Timeline.DateOfTimestamp | yeumeasy-frontend/src/pages/Reports.jsx:9-13 | an ISO timestamp is cut to the label of its date |
| Timeline.MonthKeyOfDate | yeumeasy-frontend/src/pages/Reports.jsx:177-178 | the month key of a date label is that date's month label |
| Timeline.InRangeDates | yeumeasy-frontend/src/pages/Reports.jsx:41-45 | `InRange` (`inRange`: false for an empty value, otherwise start ≤ s ≤ end as strings) holds on date labels exactly when start ≤ d ≤ end as dates |
| Timeline.DayAxis | yeumeasy-frontend/src/pages/Reports.jsx:139-144 | the day loop builds one zero bucket per label from start to end |
| Timeline.DayLabelsIncrease | yeumeasy-frontend/src/pages/Reports.jsx:141-143 | the day axis is strictly increasing as strings |
| Timeline.DayLabelsExact | yeumeasy-frontend/src/pages/Reports.jsx:139-144 | a date's label is on the day axis exactly when start ≤ date ≤ end |
| Timeline.MonthAxis | yeumeasy-frontend/src/pages/Reports.jsx:165-174 | the month loop builds one zero bucket per month from start to end |
| Timeline.MonthLabelsIncrease | yeumeasy-frontend/src/pages/Reports.jsx:170-174 | the month axis is strictly increasing as strings |
| Timeline.MonthLabelsExact | yeumeasy-frontend/src/pages/Reports.jsx:165-174 | a month's label is on the month axis exactly when start ≤ month ≤ end |
| Timeline.CountInto | yeumeasy-frontend/src/pages/Reports.jsx:146-151 | counting keeps the labels, raises each bucket by the keys that are accepted and land on it, and raises the total by the number of keys that hit some bucket |
| Timeline.CountsOnAxis | yeumeasy-frontend/src/pages/Reports.jsx:148 | on an axis of distinct labels that all pass the range test, each bucket counts exactly the keys equal to its label, and the hits are the keys on the axis |
| Timeline.DayTimeline | yeumeasy-frontend/src/pages/Reports.jsx:134-157 | the DAY report is one bucket per day counting the borrows dated that day, and its total is the number of borrows dated within the window |
| Timeline.MonthTimeline | yeumeasy-frontend/src/pages/Reports.jsx:159-187 | the MONTH report is one bucket per month counting the borrows of that month, and its total is the number of borrows in the window |
| Timeline.BorrowTimeline | yeumeasy-frontend/src/pages/Reports.jsx:133-193 | DAY mode gives the day report and MONTH mode the month report up to the month of the end day; in both, `Total` of the buckets (`totalBorrowInRange`) is the number of borrows dated within the window |
| Ranking.TallyBorrows | yeumeasy-frontend/src/pages/Reports.jsx:204-217 | the nested loop with its per-borrow seen-set builds exactly `Tally` |
| Ranking.TallyMeaning | yeumeasy-frontend/src/pages/Reports.jsx:204-217 | the stats have one entry per equipment id named on some line; its times is the number of borrows naming it (once per borrow) and its total is the sum of its lines' amounts |
| Ranking.FieldMap | yeumeasy-frontend/src/pages/Reports.jsx:118-128 | the lookup has an entry for every equipment id and no other keys |
| Ranking.FieldMapUnique | yeumeasy-frontend/src/pages/Reports.jsx:118-128 | with unique ids, each id maps to its row's field |
| Ranking.IndexBy | yeumeasy-frontend/src/pages/Reports.jsx:118-128 | the loop builds exactly `FieldMap` |
| Ranking.OrElse | yeumeasy-frontend/src/pages/Reports.jsx:221-222 | `m[id] \|\| fallback`: the looked-up value when present and non-empty, the fallback ("Unknown", "-") otherwise |
| Ranking.MakeRows | yeumeasy-frontend/src/pages/Reports.jsx:219-225 | one row per stat, in order, with its id, times and total and the looked-up name and category |
| Ranking.SortSorted | yeumeasy-frontend/src/pages/Reports.jsx:227 | sorting yields rows by non-increasing total that are a permutation of the input |
| Ranking.SortStable | yeumeasy-frontend/src/pages/Reports.jsx:227 | the sort is stable: rows with equal totals keep their relative order |
| Ranking.Take | yeumeasy-frontend/src/pages/Reports.jsx:228 | `slice(0, n)` is the first min(n, length) rows |
| Ranking.TopBorrowed | yeumeasy-frontend/src/pages/Reports.jsx:203-229 | the ranking built by loops is exactly `TopRows` |
| Ranking.TopRowsMeaning | yeumeasy-frontend/src/pages/Reports.jsx:203-229 | the ranking has min(topN, number of equipment ids borrowed) rows by non-increasing total; each row is an id that was borrowed, with its times and units |
| Ranking.TopRowsStable | yeumeasy-frontend/src/pages/Reports.jsx:219-227 | among rows with equal totals, the ranking keeps the order of first appearance in the stats |
| EquipmentAdmin.Validate | yeumeasy-frontend/src/pages/Equipment.jsx:65-71 | the form passes exactly when name and category are not blank and the quantity is a finite number ≥ 0; a blank name is reported first, then a blank category |
| EquipmentAdmin.Clean | yeumeasy-frontend/src/pages/Equipment.jsx:77 | the cleaned row, opened again for editing, gives back the form with the row's id: every field is carried over and the quantity is the parsed number |
| EquipmentAdmin.CleanRowOk | yeumeasy-frontend/src/pages/Equipment.jsx:77 | the cleaned row of a passing form passes the same checks and carries the given id |
| EquipmentAdmin.SaveKeepsRowsOk | yeumeasy-frontend/src/pages/Equipment.jsx:79-83 | prepending a checked row to checked rows, or replacing one with it, keeps every row checked |
| EquipmentAdmin.EquipmentView | yeumeasy-frontend/src/pages/Equipment.jsx:38-49 | a row is listed exactly when it is stored, its name or category includes the trimmed lower-cased query, and its status matches the status filter |
| EquipmentAdmin.BlankShowsAll | yeumeasy-frontend/src/pages/Equipment.jsx:38-49 | a blank query with ALL lists every row, in order |
| EquipmentAdmin.EquipmentPage.constructor | yeumeasy-frontend/src/pages/Equipment.jsx:9-34 | the page opens on the stored rows, or on the sample rows when nothing is stored |
| EquipmentAdmin.EquipmentPage.OpenCreate | yeumeasy-frontend/src/pages/Equipment.jsx:51-55 | create mode, a blank form with quantity 1 and AVAILABLE, modal open |
| EquipmentAdmin.EquipmentPage.OpenEdit | yeumeasy-frontend/src/pages/Equipment.jsx:57-61 | edit mode, the form a copy of the row, modal open |
| EquipmentAdmin.EquipmentPage.Close | yeumeasy-frontend/src/pages/Equipment.jsx:63 | the modal closes |
| EquipmentAdmin.EquipmentPage.EditForm | yeumeasy-frontend/src/pages/Equipment.jsx:163-190 | the name, category, quantity and status inputs change those fields of the form and never its id |
| EquipmentAdmin.Saved | yeumeasy-frontend/src/pages/Equipment.jsx:77-83 | create puts in front a row that reads back as the form with the fresh id and keeps every old row after it; edit keeps the length, every row with the form's id reads back as the form, and every other row is unchanged |
| EquipmentAdmin.SavedKeepsInvariants | yeumeasy-frontend/src/pages/Equipment.jsx:73-83 | a save of a form that passed `validate` keeps every row checked, and keeps ids unique when a created row's id is new |
| EquipmentAdmin.EquipmentPage.OnSave | yeumeasy-frontend/src/pages/Equipment.jsx:73-85 | the error is exactly `Validate` of the form, and on error nothing changes; otherwise the rows become `Saved` of the old rows (a new row in front on create, the edited row in place on edit) and the modal closes; checked rows stay checked and unique ids stay unique |
| EquipmentAdmin.EquipmentPage.OnDelete | yeumeasy-frontend/src/pages/Equipment.jsx:87-90 | once confirmed, rows with that id are removed and the others keep their order |
| EquipmentAdmin.EquipmentPage.OnResetMock | yeumeasy-frontend/src/pages/Equipment.jsx:92-95 | once confirmed, the rows become the sample rows |
| EquipmentAdmin.DeleteRemovesOne | yeumeasy-frontend/src/pages/Equipment.jsx:87-90 | with unique ids, deleting row k's id removes exactly row k and ids stay unique |
| UserAdmin.Validate | yeumeasy-frontend/src/pages/Users.jsx:53-62 | the form passes exactly when name and student id are not blank and no other user has that student id; a blank name is reported first, then a blank student id |
| UserAdmin.OwnStudentIdPasses | yeumeasy-frontend/src/pages/Users.jsx:57-59 | with unique student ids, a user's own student id is never reported as taken |
| UserAdmin.CreateKeepsStudentIdsUnique | yeumeasy-frontend/src/pages/Users.jsx:57-70 | a created user that passed the duplicate check keeps student ids unique |
| UserAdmin.EditKeepsStudentIdsUnique | yeumeasy-frontend/src/pages/Users.jsx:57-72 | an edit that passed the duplicate check keeps student ids unique when user ids are unique |
| UserAdmin.Saved | yeumeasy-frontend/src/pages/Users.jsx:68-73 | create puts the form with the fresh id in front and keeps every old user after it; edit keeps the length, every user with the form's id becomes the form, and every other user is unchanged |
| UserAdmin.SavedKeepsUnique | yeumeasy-frontend/src/pages/Users.jsx:53-75 | a save that passed the duplicate check keeps student ids unique, and a fresh id keeps user ids unique |
| UserAdmin.UserView | yeumeasy-frontend/src/pages/Users.jsx:27-37 | a user is listed exactly when stored and their name, student id or phone includes the trimmed lower-cased query |
| UserAdmin.BlankShowsAll | yeumeasy-frontend/src/pages/Users.jsx:28-29 | a blank query lists every user, in order |
| UserAdmin.UsersPage.constructor | yeumeasy-frontend/src/pages/Users.jsx:9-21 | the page opens on the stored users, or on the sample users when nothing is stored |
| UserAdmin.UsersPage.OpenCreate | yeumeasy-frontend/src/pages/Users.jsx:39-43 | create mode, a blank form, modal open |
| UserAdmin.UsersPage.OpenEdit | yeumeasy-frontend/src/pages/Users.jsx:45-49 | edit mode, the form a copy of the user, modal open |
| UserAdmin.UsersPage.Close | yeumeasy-frontend/src/pages/Users.jsx:51 | the modal closes |
| UserAdmin.UsersPage.EditForm | yeumeasy-frontend/src/pages/Users.jsx:139-157 | the name, student id and phone inputs change those fields of the form and never its id |
| UserAdmin.UsersPage.OnSave | yeumeasy-frontend/src/pages/Users.jsx:64-75 | the error is exactly `Validate`, and on error nothing changes; otherwise the rows become `Saved` and the modal closes; unique student ids stay unique |
| UserAdmin.UsersPage.OnDelete | yeumeasy-frontend/src/pages/Users.jsx:77-80 | once confirmed, users with that id are removed and the others keep their order |
| UserAdmin.UsersPage.OnResetMock | yeumeasy-frontend/src/pages/Users.jsx:82-85 | once confirmed, the rows become the sample users |
| UserAdmin.DeleteRemovesOne | yeumeasy-frontend/src/pages/Users.jsx:77-80 | with unique ids, deleting user k's id removes exactly user k |
| Lifecycle.SubmitConserves | yeumeasy-frontend/src/pages/Borrow.jsx:127-157 | for every equipment id, shelf stock plus units out on borrows is the same after a validated borrow as before |
| Lifecycle.ReturnConserves | yeumeasy-frontend/src/pages/BorrowHistory.jsx:83-129 | for an equipment id whose return entry is zero, or names existing equipment and a line of the borrow, shelf stock plus units out is the same after the return as before |
| Scenarios.BorrowAccepted | yeumeasy-frontend/src/pages/Borrow.jsx:109-125 | borrowing 3 of a Router with stock 5 passes validation |
| Scenarios.BorrowTakesStock | yeumeasy-frontend/src/pages/Borrow.jsx:133-154 | that borrow leaves 2 on the shelf and records one BORROWED line of 3 with nothing returned |
| Scenarios.FullReturnRestocks | yeumeasy-frontend/src/pages/BorrowHistory.jsx:83-125 | returning all 3 makes the borrow RETURNED and puts the shelf back to 5 |
| Scenarios.BorrowRefusedForStock | yeumeasy-frontend/src/pages/Borrow.jsx:118-122 | asking for 10 of a Router with stock 5 is refused as not enough stock, naming "Router" |
| Scenarios.ReturnRefusedForExcess | yeumeasy-frontend/src/pages/BorrowHistory.jsx:87-94 | returning 5 of a line with 3 out is refused at that line |
| Scenarios.TwiceBorrowedRanks | yeumeasy-frontend/src/pages/Reports.jsx:204-217 | two borrows of 2 and 3 units of one item count as 2 borrows and 5 units |

## Left out

- Persistence: `load`/`save` in `yeumeasy-frontend/src/utils/storage.js` and the `useEffect` hooks that call them. A page's constructor takes the stored list as an `Option` (None means nothing stored); saving is not modelled.
- `uid()`: every fresh id is a parameter (`freshId`, `borrowId`, `detailIds`, the seed ids). The model does not assume ids are fresh; lemmas that need freshness require it.
- `alert` and `confirm`: alerts become returned error values, and `confirm` becomes a `confirmed` parameter. Alert texts are not modelled; each error is a datatype constructor.
- The clock: `todayISO`, `daysAgoISO`, `monthsAgoYM` and `new Date().toISOString()` become inputs (the window's start and end, `createdAt`). The app's clock is left out because it is I/O.
- Time zones in the DAY report. `todayISO` is taken in UTC and `daysAgoISO` in local time, and `new Date("YYYY-MM-DD")` parses as UTC midnight while the loop reads local fields. The model steps calendar dates with no time zone.
- Borrowing.RequestError: the due-date check `new Date(dueDate) < new Date(borrowDate)` is modelled as a string comparison of the two date inputs. That agrees with the date comparison for the `YYYY-MM-DD` values the date inputs produce (`Calendar.FormatOrder`), but not for arbitrary strings.
- Timeline.DayTimeline, Timeline.MonthTimeline, Timeline.BorrowTimeline: require four-digit years in the window, because only then do labels order as strings the way dates do.
- Object key order: `Object.entries` lists integer-like keys first in numeric order. The timeline and ranking keep insertion order, which differs only if a label or an equipment id looks like an array index.
- Numbers: `Num` is a finite integer or not-finite. Fractional quantities and amounts, `Number("")` being 0, and the `|| 0` defaults for missing fields are not modelled; stored amounts and quantities are integers.
- Unicode: `toLowerCase` is modelled on ASCII letters only, so other scripts are compared unchanged. That agrees with the source for Thai text, which has no case. `trim` removes the ECMAScript white-space and line-terminator characters. Strings are sequences of Unicode scalar values, so `Text.Less` orders by code point where JS `<` orders by UTF-16 code unit; the two differ only for characters above U+FFFF.
- Lifecycle.ReturnConserves: requires the equipment of each non-zero map entry to exist and the borrow to have one line per equipment. Restocking a deleted item adds nothing, and a borrow with two lines of one item would count each map entry twice; the source keeps neither case out.
- ReturnHistory.HistoryPage.ApplyReturn: updates every stored borrow with the active id. Bounds are preserved only when borrow ids are unique.
- BarChart, the summary counts, the page layouts and the presentational components (`DataTable`, `FormField`, `Modal`, `StatusBadge`) are presentation only.
- The dropdown resets of the Borrow page's `useEffect` (lines 61-64) only choose a default selection; `equipId` is an input of `AddToCart`.
- Borrowing.BorrowPage.AddToCart: the reset of the amount input to 1 after an add (Borrow.jsx:86) is not modelled, because the typed amount is a parameter of the method rather than a field of the page.
