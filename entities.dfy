/**
 * The records the pages keep in the browser store: users, equipment, borrows
 * with their detail lines, and the lines of the cart on the Borrow page.
 */
module Entities {
  import opened Common

  datatype EquipmentStatus = Available | Maintenance | Disposed

  datatype Equipment = Equipment(
    id: string,
    name: string,
    category: string,
    quantity: int,        // units currently on the shelf
    status: EquipmentStatus)

  datatype User = User(id: string, fullName: string, studentId: string, phone: string)

  datatype BorrowStatus = Borrowed | Returned

  /** One equipment line of a borrow: how many were taken and how many came back. */
  datatype Detail = Detail(
    id: string,
    borrowId: string,
    equipmentId: string,
    amount: int,
    returnedAmount: int)

  datatype Borrow = Borrow(
    id: string,
    userId: string,
    borrowDate: string,   // "YYYY-MM-DD"
    dueDate: string,      // "YYYY-MM-DD"
    status: BorrowStatus,
    details: seq<Detail>,
    createdAt: string)    // an ISO timestamp supplied by the caller

  datatype CartLine = CartLine(equipmentId: string, amount: int)

  function EquipmentKey(e: Equipment): string { e.id }
  function UserKey(u: User): string { u.id }
  function BorrowKey(b: Borrow): string { b.id }
  function LineKey(l: CartLine): string { l.equipmentId }
  function DetailKey(d: Detail): string { d.equipmentId }

  /** `equipment.find((e) => e.id === id)` */
  function FindEquipment(equipment: seq<Equipment>, id: string): Option<Equipment> {
    Find(equipment, EquipmentKey, id)
  }

  /** What is still out on a detail line. */
  function Outstanding(d: Detail): int {
    d.amount - d.returnedAmount
  }

  /** A detail line never records more returned than was borrowed, nor a negative count. */
  predicate DetailBounded(d: Detail) {
    0 <= d.returnedAmount <= d.amount
  }

  predicate BorrowBounded(b: Borrow) {
    forall i :: 0 <= i < |b.details| ==> DetailBounded(b.details[i])
  }
}
