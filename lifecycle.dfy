/**
 * Stock accounting across the pages. For every equipment id, the units on
 * the shelf plus the units still out on borrow lines stay the same when the
 * Borrow page submits a borrow and when the history page records a return.
 */
module Lifecycle {
  import opened Common
  import opened Entities
  import opened Borrowing
  import opened ReturnHistory

  function Quantity(e: Equipment): int { e.quantity }

  function LineAmount(l: CartLine): int { l.amount }

  /** Units of the equipment on the shelf. */
  function Shelf(equipment: seq<Equipment>, id: string): int {
    SumFor(equipment, EquipmentKey, id, Quantity)
  }

  /** Units of the equipment still out on the borrows' lines. */
  function Out(borrows: seq<Borrow>, id: string): int {
    if borrows == [] then 0
    else SumFor(borrows[0].details, DetailKey, id, Outstanding) + Out(borrows[1..], id)
  }

  /** Every unit of the equipment the system accounts for. */
  function Owned(equipment: seq<Equipment>, borrows: seq<Borrow>, id: string): int {
    Shelf(equipment, id) + Out(borrows, id)
  }

  /** Replacing one borrow changes what is out by the difference of its lines. */
  lemma {:induction false} OutUpdate(borrows: seq<Borrow>, k: nat, y: Borrow, id: string)
    requires k < |borrows|
    ensures Out(borrows[k := y], id) ==
      Out(borrows, id) - SumFor(borrows[k].details, DetailKey, id, Outstanding)
      + SumFor(y.details, DetailKey, id, Outstanding)
  {
    if k == 0 {
      assert borrows[k := y][1..] == borrows[1..];
    } else {
      assert borrows[k := y][1..] == borrows[1..][k - 1 := y];
      OutUpdate(borrows[1..], k - 1, y, id);
    }
  }

  /** The lines of a new borrow have out exactly what the cart asked for. */
  lemma {:induction false} NewLinesOut(ds: seq<Detail>, cart: seq<CartLine>, id: string)
    requires |ds| == |cart|
    requires forall i :: 0 <= i < |cart| ==>
      ds[i].equipmentId == cart[i].equipmentId && ds[i].amount == cart[i].amount && ds[i].returnedAmount == 0
    ensures SumFor(ds, DetailKey, id, Outstanding) == SumFor(cart, LineKey, id, LineAmount)
  {
    if cart != [] {
      NewLinesOut(ds[1..], cart[1..], id);
    }
  }

  /**
   * `submitBorrow` moves units from the shelf onto the new borrow's lines:
   * for a cart that passed the re-check (so every line's equipment is on
   * the list), one line per equipment and one row per id, nothing is lost.
   */
  lemma SubmitConserves(equipment: seq<Equipment>, borrows: seq<Borrow>, cart: seq<CartLine>,
                        borrowId: string, detailIds: seq<string>, userId: string,
                        borrowDate: string, dueDate: string, createdAt: string, id: string)
    requires |detailIds| == |cart|
    requires Unique(equipment, EquipmentKey) && Unique(cart, LineKey)
    requires CartError(cart, equipment).None?
    ensures Owned(TakeStock(equipment, cart),
                  [NewBorrow(borrowId, detailIds, userId, borrowDate, dueDate, cart, createdAt)] + borrows, id)
            == Owned(equipment, borrows, id)
  {
    var nb := NewBorrow(borrowId, detailIds, userId, borrowDate, dueDate, cart, createdAt);
    var after := TakeStock(equipment, cart);
    assert ([nb] + borrows)[1..] == borrows;
    NewLinesOut(nb.details, cart, id);
    var k := IndexOf(cart, LineKey, id);
    if k < |cart| {
      SumForUnique(cart, LineKey, k, LineAmount);
      assert LineError(cart[k], equipment).None?;
      SumForShift(equipment, after, EquipmentKey, id, Quantity, -cart[k].amount);
    } else {
      SumForAbsent(cart, LineKey, id, LineAmount);
      SumForShift(equipment, after, EquipmentKey, id, Quantity, 0);
    }
  }

  /**
   * `applyReturn` moves units from the borrow's lines back onto the shelf:
   * when the return names only equipment that is on the list and on the
   * borrow, borrow ids and the borrow's lines are one per id, and equipment
   * rows are one per id, nothing is lost.
   */
  lemma ReturnConserves(equipment: seq<Equipment>, borrows: seq<Borrow>, borrowId: string,
                        m: map<string, int>, id: string)
    requires Unique(equipment, EquipmentKey) && Unique(borrows, BorrowKey)
    requires Find(borrows, BorrowKey, borrowId).Some?
    requires Unique(Find(borrows, BorrowKey, borrowId).value.details, DetailKey)
    requires GetOrZero(m, id) != 0 ==>
      FindEquipment(equipment, id).Some?
      && Find(Find(borrows, BorrowKey, borrowId).value.details, DetailKey, id).Some?
    ensures Owned(Restock(equipment, m), ReturnBorrows(borrows, borrowId, m), id) == Owned(equipment, borrows, id)
  {
    var g := GetOrZero(m, id);
    SumForShift(equipment, Restock(equipment, m), EquipmentKey, id, Quantity, g);
    var k := IndexOf(borrows, BorrowKey, borrowId);
    var b := borrows[k];
    var y := ReturnBorrow(b, m);
    assert ReturnBorrows(borrows, borrowId, m) == borrows[k := y] by {
      forall j | 0 <= j < |borrows| && j != k ensures borrows[j].id != borrowId {
        assert BorrowKey(borrows[j]) != BorrowKey(borrows[k]);
      }
    }
    OutUpdate(borrows, k, y, id);
    SumForShift(b.details, y.details, DetailKey, id, Outstanding, -g);
  }
}
