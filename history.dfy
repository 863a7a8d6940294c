/**
 * The borrow history page: the list of borrows with its search, the return
 * form that records how many units of each line came back and restocks the
 * shelf, and deleting a borrow from the history.
 */
module ReturnHistory {
  import opened Common
  import opened Text
  import opened Entities

  /** The amount the return form proposes for a line: what is still out, never negative. */
  function PrefillAmount(d: Detail): (r: int)
    ensures r >= 0
    ensures r >= Outstanding(d)
    ensures Outstanding(d) > 0 ==> r == Outstanding(d)
    ensures Outstanding(d) <= 0 ==> r == 0
  {
    var remaining := d.amount - d.returnedAmount;
    if remaining > 0 then remaining else 0
  }

  /**
   * The return map the form opens with, keyed by equipment id; when two
   * lines share an equipment id the later line's entry wins.
   */
  function Prefill(details: seq<Detail>): (m: map<string, int>)
    ensures forall k :: k in m ==> m[k] >= 0
    ensures forall i :: 0 <= i < |details| ==> details[i].equipmentId in m
    ensures forall k :: k in m ==> exists i :: 0 <= i < |details| && details[i].equipmentId == k
  {
    if details == [] then map[]
    else
      var last := details[|details| - 1];
      var m := Prefill(details[..|details| - 1]);
      assert forall i :: 0 <= i < |details| - 1 ==> details[..|details| - 1][i] == details[i];
      m[last.equipmentId := PrefillAmount(last)]
  }

  /** With one line per equipment, each line's entry is exactly what it still has out. */
  lemma {:induction false} PrefillEntry(details: seq<Detail>, i: nat)
    requires Unique(details, DetailKey) && i < |details|
    ensures Prefill(details)[details[i].equipmentId] == PrefillAmount(details[i])
    decreases |details|
  {
    if i < |details| - 1 {
      var init := details[..|details| - 1];
      assert init[i] == details[i];
      assert DetailKey(details[i]) != DetailKey(details[|details| - 1]);
      PrefillEntry(init, i);
    }
  }

  /** `openReturnModal`'s loop: one entry per line, in line order. */
  method PrefillLoop(details: seq<Detail>) returns (init: map<string, int>)
    ensures init == Prefill(details)
  {
    init := map[];
    var i := 0;
    while i < |details|
      invariant 0 <= i <= |details|
      invariant init == Prefill(details[..i])
    {
      assert details[..i + 1][..i] == details[..i];
      init := init[details[i].equipmentId := PrefillAmount(details[i])];
      i := i + 1;
    }
    assert details[..i] == details;
  }

  /** `setReturnQty`: a negative or non-finite input is ignored. */
  function SetQty(m: map<string, int>, equipmentId: string, value: Num): (r: map<string, int>)
    ensures value.Finite? && value.n >= 0 ==> equipmentId in r && r[equipmentId] == value.n
    ensures !(value.Finite? && value.n >= 0) ==> r == m
    ensures forall k :: k != equipmentId ==> (k in r <==> k in m) && (k in m ==> r[k] == m[k])
    ensures (forall k :: k in m ==> m[k] >= 0) ==> forall k :: k in r ==> r[k] >= 0
  {
    if value.NotFinite? || value.n < 0 then m else m[equipmentId := value.n]
  }

  /** No entry of the return map is negative. */
  predicate NonNegative(m: map<string, int>) {
    forall k :: k in m ==> m[k] >= 0
  }

  /** The equipment id of the first line asked to return more than it still has out. */
  function OverReturn(details: seq<Detail>, m: map<string, int>): (r: Option<string>)
    ensures r.None? <==>
      forall i :: 0 <= i < |details| ==> GetOrZero(m, details[i].equipmentId) <= Outstanding(details[i])
    ensures r.Some? ==> exists i :: (0 <= i < |details| && details[i].equipmentId == r.value
      && GetOrZero(m, details[i].equipmentId) > Outstanding(details[i])
      && (forall j :: 0 <= j < i ==> GetOrZero(m, details[j].equipmentId) <= Outstanding(details[j])))
  {
    if details == [] then None
    else if GetOrZero(m, details[0].equipmentId) > Outstanding(details[0]) then Some(details[0].equipmentId)
    else
      var rest := details[1..];
      var r := OverReturn(rest, m);
      if r.Some? then
        var i :| 0 <= i < |rest| && rest[i].equipmentId == r.value
          && GetOrZero(m, rest[i].equipmentId) > Outstanding(rest[i])
          && (forall j :: 0 <= j < i ==> GetOrZero(m, rest[j].equipmentId) <= Outstanding(rest[j]));
        assert forall j :: 0 <= j < i + 1 ==> GetOrZero(m, details[j].equipmentId) <= Outstanding(details[j]) by {
          forall j | 0 <= j < i + 1 ensures GetOrZero(m, details[j].equipmentId) <= Outstanding(details[j]) {
            if j > 0 {
              assert details[j] == rest[j - 1];
            }
          }
        }
        assert details[i + 1] == rest[i];
        r
      else
        assert forall j :: 0 <= j < |details| ==> GetOrZero(m, details[j].equipmentId) <= Outstanding(details[j]) by {
          forall j | 0 <= j < |details| ensures GetOrZero(m, details[j].equipmentId) <= Outstanding(details[j]) {
            if j > 0 {
              assert details[j] == rest[j - 1];
            }
          }
        }
        r
  }

  /** `applyReturn`'s validation loop: stops at the first over-returned line. */
  method CheckReturn(details: seq<Detail>, m: map<string, int>) returns (r: Option<string>)
    ensures r == OverReturn(details, m)
  {
    var i := 0;
    while i < |details|
      invariant 0 <= i <= |details|
      invariant OverReturn(details[i..], m) == OverReturn(details, m)
    {
      assert details[i..][1..] == details[i + 1..];
      if GetOrZero(m, details[i].equipmentId) > Outstanding(details[i]) {
        return Some(details[i].equipmentId);
      }
      i := i + 1;
    }
    return None;
  }

  /** `returned_amount` of every line raised by that line's entry of the return map. */
  function ReturnLines(details: seq<Detail>, m: map<string, int>): (r: seq<Detail>)
    ensures |r| == |details|
    ensures forall i :: 0 <= i < |details| ==>
      r[i] == details[i].(returnedAmount := details[i].returnedAmount + GetOrZero(m, details[i].equipmentId))
  {
    seq(|details|, i requires 0 <= i < |details| =>
      details[i].(returnedAmount := details[i].returnedAmount + GetOrZero(m, details[i].equipmentId)))
  }

  /** `every(d => returned_amount >= amount)` */
  predicate AllReturned(details: seq<Detail>) {
    forall i :: 0 <= i < |details| ==> details[i].returnedAmount >= details[i].amount
  }

  /** One borrow after the return: new lines, and RETURNED exactly when every line is back. */
  function ReturnBorrow(b: Borrow, m: map<string, int>): (r: Borrow)
    ensures r.id == b.id && r.userId == b.userId && r.borrowDate == b.borrowDate
    ensures r.dueDate == b.dueDate && r.createdAt == b.createdAt
    ensures r.details == ReturnLines(b.details, m)
    ensures r.status == Returned <==> AllReturned(r.details)
  {
    var lines := ReturnLines(b.details, m);
    b.(status := if AllReturned(lines) then Returned else Borrowed, details := lines)
  }

  /** Every borrow with the given id gets the return; the others are untouched. */
  function ReturnBorrows(borrows: seq<Borrow>, id: string, m: map<string, int>): (r: seq<Borrow>)
    ensures |r| == |borrows|
    ensures forall i :: 0 <= i < |borrows| && borrows[i].id != id ==> r[i] == borrows[i]
    ensures forall i :: 0 <= i < |borrows| && borrows[i].id == id ==> r[i] == ReturnBorrow(borrows[i], m)
  {
    seq(|borrows|, i requires 0 <= i < |borrows| =>
      if borrows[i].id == id then ReturnBorrow(borrows[i], m) else borrows[i])
  }

  /** Every equipment row gets back the units the return map names for its id. */
  function Restock(equipment: seq<Equipment>, m: map<string, int>): (r: seq<Equipment>)
    ensures |r| == |equipment|
    ensures forall i :: 0 <= i < |equipment| ==>
      r[i] == equipment[i].(quantity := equipment[i].quantity + GetOrZero(m, equipment[i].id))
  {
    seq(|equipment|, i requires 0 <= i < |equipment| =>
      var rq := GetOrZero(m, equipment[i].id);
      if rq == 0 then equipment[i] else equipment[i].(quantity := equipment[i].quantity + rq))
  }

  /**
   * An accepted return keeps every line within its bounds and never lowers
   * what a line records as returned.
   */
  lemma ReturnStaysBounded(b: Borrow, m: map<string, int>)
    requires BorrowBounded(b) && NonNegative(m)
    requires OverReturn(b.details, m).None?
    ensures BorrowBounded(ReturnBorrow(b, m))
    ensures forall i :: 0 <= i < |b.details| ==>
      b.details[i].returnedAmount <= ReturnBorrow(b, m).details[i].returnedAmount <= b.details[i].amount
  {
    var r := ReturnBorrow(b, m);
    forall i | 0 <= i < |b.details|
      ensures DetailBounded(r.details[i])
      ensures b.details[i].returnedAmount <= r.details[i].returnedAmount
    {
      var k := b.details[i].equipmentId;
      assert GetOrZero(m, k) >= 0 by {
        if k in m {
          assert m[k] >= 0;
        }
      }
    }
  }

  /**
   * For bounded lines, a borrow is RETURNED after the return exactly when
   * nothing is left out on any line.
   */
  lemma ReturnedIffNothingOut(b: Borrow, m: map<string, int>)
    requires BorrowBounded(ReturnBorrow(b, m))
    ensures ReturnBorrow(b, m).status == Returned <==>
      forall i :: 0 <= i < |b.details| ==> Outstanding(ReturnBorrow(b, m).details[i]) == 0
  {
    var r := ReturnBorrow(b, m);
    assert forall i :: 0 <= i < |b.details| ==> DetailBounded(r.details[i]);
  }

  /**
   * Confirming the form as it opens, on a borrow with one line per equipment,
   * returns everything still out: the borrow becomes RETURNED.
   */
  lemma {:induction false} PrefillReturnsAll(b: Borrow)
    requires BorrowBounded(b) && Unique(b.details, DetailKey)
    ensures OverReturn(b.details, Prefill(b.details)).None?
    ensures ReturnBorrow(b, Prefill(b.details)).status == Returned
    ensures forall i :: 0 <= i < |b.details| ==>
      ReturnBorrow(b, Prefill(b.details)).details[i].returnedAmount == b.details[i].amount
  {
    var m := Prefill(b.details);
    forall i | 0 <= i < |b.details|
      ensures GetOrZero(m, b.details[i].equipmentId) == Outstanding(b.details[i])
    {
      PrefillEntry(b.details, i);
    }
  }

  /** The status filter of the history list: ALL, BORROWED or RETURNED. */
  datatype StatusFilter = AllStatuses | OnlyStatus(status: BorrowStatus)

  /** `getUserName`: the borrower's full name, "-" when unknown or empty. */
  function UserName(users: seq<User>, id: string): (r: string)
    ensures r != ""
    ensures Find(users, UserKey, id).Some? && Find(users, UserKey, id).value.fullName != "" ==>
      r == Find(users, UserKey, id).value.fullName
    ensures Find(users, UserKey, id).None? || Find(users, UserKey, id).value.fullName == "" ==> r == "-"
  {
    match Find(users, UserKey, id)
    case None => "-"
    case Some(u) => if u.fullName == "" then "-" else u.fullName
  }

  /** The equipment name a line is searched by, "" when the equipment is gone. */
  function LineName(equipment: seq<Equipment>, d: Detail): string {
    match FindEquipment(equipment, d.equipmentId)
    case None => ""
    case Some(e) => e.name
  }

  /** The text match of the history search, for an already trimmed, lower-cased query s. */
  predicate MatchesText(b: Borrow, users: seq<User>, equipment: seq<Equipment>, s: string) {
    s == ""
    || Includes(Lower(UserName(users, b.userId)), s)
    || Includes(Lower(b.id), s)
    || exists i :: 0 <= i < |b.details| && Includes(Lower(LineName(equipment, b.details[i])), s)
  }

  predicate MatchesStatus(b: Borrow, filter: StatusFilter) {
    filter.AllStatuses? || b.status == filter.status
  }

  predicate Shown(b: Borrow, users: seq<User>, equipment: seq<Equipment>, q: string, filter: StatusFilter) {
    MatchesStatus(b, filter) && MatchesText(b, users, equipment, Lower(Trim(q)))
  }

  /** The rows the history table lists, in their stored order. */
  function HistoryView(borrows: seq<Borrow>, users: seq<User>, equipment: seq<Equipment>,
                       q: string, filter: StatusFilter): (r: seq<Borrow>)
    ensures forall b :: b in r <==> b in borrows && Shown(b, users, equipment, q, filter)
    ensures IsBlank(q) && filter == AllStatuses ==> r == borrows
  {
    var p := b => Shown(b, users, equipment, q, filter);
    FilterMembers(borrows, p);
    assert IsBlank(q) && filter == AllStatuses ==> forall j :: 0 <= j < |borrows| ==> p(borrows[j]) by {
      if IsBlank(q) {
        assert Lower(Trim(q)) == "";
      }
    }
    Filter(borrows, p)
  }

  /** What pressing "save" on the return form did. */
  datatype ReturnOutcome =
    | NoActiveBorrow                   // the borrow was not found: nothing happens
    | OverReturned(equipmentName: string)  // an alert names the line; nothing is saved
    | Recorded

  /** The name the over-return alert shows: "Unknown" for missing or unnamed equipment. */
  function AlertName(equipment: seq<Equipment>, equipmentId: string): (r: string)
    ensures r != ""
    ensures FindEquipment(equipment, equipmentId).Some? && FindEquipment(equipment, equipmentId).value.name != "" ==>
      r == FindEquipment(equipment, equipmentId).value.name
    ensures FindEquipment(equipment, equipmentId).None? || FindEquipment(equipment, equipmentId).value.name == "" ==>
      r == "Unknown"
  {
    match FindEquipment(equipment, equipmentId)
    case None => "Unknown"
    case Some(e) => if e.name == "" then "Unknown" else e.name
  }

  /** Every stored borrow keeps its lines within bounds. */
  ghost predicate AllBounded(borrows: seq<Borrow>) {
    forall i :: 0 <= i < |borrows| ==> BorrowBounded(borrows[i])
  }

  class HistoryPage {
    const users: seq<User>
    var equipment: seq<Equipment>
    var borrows: seq<Borrow>
    var open: bool                  // whether the return form is showing
    var activeBorrowId: string
    var returnMap: map<string, int>

    /** The return form's entries are never negative. */
    ghost predicate Valid()
      reads this
    {
      NonNegative(returnMap)
    }

    constructor (users: seq<User>, equipment: seq<Equipment>, borrows: seq<Borrow>)
      ensures Valid()
      ensures this.users == users && this.equipment == equipment && this.borrows == borrows
      ensures !open && activeBorrowId == "" && returnMap == map[]
    {
      this.users := users;
      this.equipment := equipment;
      this.borrows := borrows;
      open := false;
      activeBorrowId := "";
      returnMap := map[];
    }

    /** The rows the table shows for query q and the status filter. */
    function Filtered(q: string, filter: StatusFilter): seq<Borrow>
      reads this
    {
      HistoryView(borrows, users, equipment, q, filter)
    }

    /** `openReturnModal`: prefill the form with what each line still has out. */
    method OpenReturnModal(borrowId: string)
      requires Valid()
      modifies this`returnMap, this`activeBorrowId, this`open
      ensures Valid()
      ensures Find(borrows, BorrowKey, borrowId).None? ==>
        returnMap == old(returnMap) && activeBorrowId == old(activeBorrowId) && open == old(open)
      ensures Find(borrows, BorrowKey, borrowId).Some? ==>
        returnMap == Prefill(Find(borrows, BorrowKey, borrowId).value.details)
        && activeBorrowId == borrowId && open
    {
      var b := Find(borrows, BorrowKey, borrowId);
      if b.None? {
        return;
      }
      returnMap := PrefillLoop(b.value.details);
      activeBorrowId := borrowId;
      open := true;
    }

    /** `closeModal` */
    method CloseModal()
      modifies this`returnMap, this`activeBorrowId, this`open
      ensures Valid()
      ensures !open && activeBorrowId == "" && returnMap == map[]
    {
      open := false;
      activeBorrowId := "";
      returnMap := map[];
    }

    /** `setReturnQty` */
    method SetReturnQty(equipmentId: string, value: Num)
      requires Valid()
      modifies this`returnMap
      ensures Valid()
      ensures returnMap == SetQty(old(returnMap), equipmentId, value)
    {
      returnMap := SetQty(returnMap, equipmentId, value);
    }

    /**
     * `applyReturn`: reject any line asked to return more than it has out;
     * otherwise raise the lines of the active borrow, set its status, restock
     * the shelf by equipment id and close the form.
     */
    method ApplyReturn() returns (outcome: ReturnOutcome)
      requires Valid()
      modifies this`equipment, this`borrows, this`returnMap, this`activeBorrowId, this`open
      ensures Valid()
      ensures outcome.NoActiveBorrow? <==> Find(old(borrows), BorrowKey, old(activeBorrowId)).None?
      ensures !outcome.Recorded? ==>
        equipment == old(equipment) && borrows == old(borrows) && returnMap == old(returnMap)
        && activeBorrowId == old(activeBorrowId) && open == old(open)
      ensures outcome.OverReturned? ==>
        var over := OverReturn(Find(old(borrows), BorrowKey, old(activeBorrowId)).value.details, old(returnMap));
        over.Some? && outcome.equipmentName == AlertName(old(equipment), over.value)
      ensures outcome.Recorded? <==>
        Find(old(borrows), BorrowKey, old(activeBorrowId)).Some?
        && OverReturn(Find(old(borrows), BorrowKey, old(activeBorrowId)).value.details, old(returnMap)).None?
      ensures outcome.Recorded? ==>
        borrows == ReturnBorrows(old(borrows), old(activeBorrowId), old(returnMap))
        && equipment == Restock(old(equipment), old(returnMap))
        && !open && activeBorrowId == "" && returnMap == map[]
      ensures outcome.Recorded? && old(AllBounded(borrows) && Unique(borrows, BorrowKey)) ==>
        AllBounded(borrows)
    {
      var active := Find(borrows, BorrowKey, activeBorrowId);
      if active.None? {
        return NoActiveBorrow;
      }
      var over := CheckReturn(active.value.details, returnMap);
      if over.Some? {
        return OverReturned(AlertName(equipment, over.value));
      }
      ghost var before := borrows;
      borrows := ReturnBorrows(borrows, activeBorrowId, returnMap);
      equipment := Restock(equipment, returnMap);
      if AllBounded(before) && Unique(before, BorrowKey) {
        ReturnKeepsAllBounded(before, activeBorrowId, returnMap);
      }
      CloseModal();
      return Recorded;
    }

    /** `deleteBorrow`: drop the borrow from the history; no stock comes back. */
    method DeleteBorrow(id: string, confirmed: bool)
      modifies this`borrows
      ensures confirmed ==> borrows == Without(old(borrows), BorrowKey, id)
      ensures !confirmed ==> borrows == old(borrows)
    {
      if confirmed {
        borrows := Without(borrows, BorrowKey, id);
      }
    }
  }

  /**
   * With unique borrow ids, the only borrow the return touches is the one
   * validated, so every stored line stays bounded.
   */
  lemma ReturnKeepsAllBounded(borrows: seq<Borrow>, id: string, m: map<string, int>)
    requires NonNegative(m) && AllBounded(borrows) && Unique(borrows, BorrowKey)
    requires Find(borrows, BorrowKey, id).Some?
    requires OverReturn(Find(borrows, BorrowKey, id).value.details, m).None?
    ensures AllBounded(ReturnBorrows(borrows, id, m))
  {
    var r := ReturnBorrows(borrows, id, m);
    forall i | 0 <= i < |borrows| && borrows[i].id == id
      ensures BorrowBounded(r[i])
    {
      FindUnique(borrows, BorrowKey, i);
      ReturnStaysBounded(borrows[i], m);
    }
  }
}
