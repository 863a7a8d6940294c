/**
 * The Borrow page: assembling a cart of equipment lines, validating a borrow
 * request, and committing it (one BORROWED record, stock taken off the shelf,
 * cart emptied).
 */
module Borrowing {
  import opened Common
  import opened Text
  import opened Entities

  // ---------------------------------------------------------------------
  // Cart assembly
  // ---------------------------------------------------------------------

  /** Why `addToCart` refused, in the order it checks. */
  datatype AddError = NothingSelected | EquipmentNotFound | AmountNotPositive | NotAvailable | NotEnough(left: int)

  /**
   * The checks `addToCart` makes before it touches the cart. On success it
   * yields the equipment and the amount to add.
   */
  function CheckAdd(equipment: seq<Equipment>, equipId: string, amount: Num): (r: Result<(Equipment, int), AddError>)
    ensures r == Err(NothingSelected) <==> equipId == ""
    ensures r == Err(EquipmentNotFound) <==> equipId != "" && FindEquipment(equipment, equipId).None?
    ensures r.Ok? <==>
      && equipId != ""
      && FindEquipment(equipment, equipId).Some?
      && amount.Finite? && amount.n > 0
      && FindEquipment(equipment, equipId).value.status == Available
      && amount.n <= FindEquipment(equipment, equipId).value.quantity
    ensures r == Err(AmountNotPositive) <==>
      && equipId != "" && FindEquipment(equipment, equipId).Some?
      && !(amount.Finite? && amount.n > 0)
    ensures r == Err(NotAvailable) <==>
      && equipId != "" && FindEquipment(equipment, equipId).Some?
      && amount.Finite? && amount.n > 0
      && FindEquipment(equipment, equipId).value.status != Available
    ensures (r.Err? && r.error.NotEnough?) <==>
      && equipId != "" && FindEquipment(equipment, equipId).Some?
      && amount.Finite? && amount.n > 0
      && FindEquipment(equipment, equipId).value.status == Available
      && amount.n > FindEquipment(equipment, equipId).value.quantity
    ensures r.Err? && r.error.NotEnough? ==> r.error.left == FindEquipment(equipment, equipId).value.quantity
    ensures r.Ok? ==> r.value.0 == FindEquipment(equipment, equipId).value && r.value.1 == amount.n
  {
    if equipId == "" then Err(NothingSelected)
    else match FindEquipment(equipment, equipId)
      case None => Err(EquipmentNotFound)
      case Some(eq) =>
        if !amount.Finite? || amount.n <= 0 then Err(AmountNotPositive)
        else if eq.status != Available then Err(NotAvailable)
        else if amount.n > eq.quantity then Err(NotEnough(eq.quantity))
        else Ok((eq, amount.n))
  }

  /** `cart.map((x) => x.equipment_id === id ? { ...x, amount } : x)` */
  function SetAmount(cart: seq<CartLine>, id: string, amount: int): (r: seq<CartLine>)
    ensures |r| == |cart|
    ensures forall i :: 0 <= i < |cart| ==> r[i].equipmentId == cart[i].equipmentId
    ensures forall i :: 0 <= i < |cart| && cart[i].equipmentId != id ==> r[i] == cart[i]
    ensures forall i :: 0 <= i < |cart| && cart[i].equipmentId == id ==> r[i].amount == amount
  {
    seq(|cart|, i requires 0 <= i < |cart| =>
      if cart[i].equipmentId == id then cart[i].(amount := amount) else cart[i])
  }

  /**
   * The updater `addToCart` hands to `setCart`: an equipment already in the
   * cart has its line increased, unless the new total would exceed the stock,
   * in which case the cart is left as it was (not clipped); a new equipment
   * gets one line at the end.
   */
  function MergeLine(cart: seq<CartLine>, id: string, qty: int, stock: int): (r: seq<CartLine>)
    ensures IndexOf(cart, LineKey, id) == |cart| ==> r == cart + [CartLine(id, qty)]
    ensures IndexOf(cart, LineKey, id) < |cart| ==> |r| == |cart|
    ensures forall i :: 0 <= i < |cart| && cart[i].equipmentId != id ==> r[i] == cart[i]
    ensures forall i :: 0 <= i < |cart| ==> r[i].equipmentId == cart[i].equipmentId
    ensures var k := IndexOf(cart, LineKey, id);
      k < |cart| && cart[k].amount + qty > stock ==> r == cart
    ensures var k := IndexOf(cart, LineKey, id);
      k < |cart| && cart[k].amount + qty <= stock ==> r[k].amount == cart[k].amount + qty
  {
    var k := IndexOf(cart, LineKey, id);
    if k < |cart| then
      var newAmount := cart[k].amount + qty;
      if newAmount > stock then cart else SetAmount(cart, id, newAmount)
    else
      cart + [CartLine(id, qty)]
  }

  /** Merging never creates a second line for the same equipment. */
  lemma MergeKeepsLinesUnique(cart: seq<CartLine>, id: string, qty: int, stock: int)
    requires Unique(cart, LineKey)
    ensures Unique(MergeLine(cart, id, qty, stock), LineKey)
  {
    var r := MergeLine(cart, id, qty, stock);
    if IndexOf(cart, LineKey, id) == |cart| {
      forall i, j | 0 <= i < j < |r| ensures LineKey(r[i]) != LineKey(r[j]) {
        if j == |cart| {
          assert r[i] == cart[i];
        }
      }
    }
  }

  /**
   * `updateCartAmount`: for known equipment and a positive request, every line
   * of that equipment is set to the request clipped to the stock; otherwise
   * nothing changes.
   */
  function UpdateLine(cart: seq<CartLine>, equipment: seq<Equipment>, id: string, value: Num): (r: seq<CartLine>)
    ensures |r| == |cart|
    ensures forall i :: 0 <= i < |cart| ==> r[i].equipmentId == cart[i].equipmentId
    ensures forall i :: 0 <= i < |cart| && cart[i].equipmentId != id ==> r[i] == cart[i]
    ensures FindEquipment(equipment, id).None? || !value.Finite? || value.n <= 0 ==> r == cart
    ensures FindEquipment(equipment, id).Some? && value.Finite? && value.n > 0 ==>
      forall i :: 0 <= i < |cart| && cart[i].equipmentId == id ==>
        r[i].amount <= value.n && r[i].amount <= FindEquipment(equipment, id).value.quantity &&
        (r[i].amount == value.n || r[i].amount == FindEquipment(equipment, id).value.quantity)
  {
    match FindEquipment(equipment, id)
    case None => cart
    case Some(eq) =>
      if !value.Finite? || value.n <= 0 then cart
      else
        var clamped := if value.n < eq.quantity then value.n else eq.quantity;
        SetAmount(cart, id, clamped)
  }

  /** `removeItem`: the lines of that equipment go, the others stay in order. */
  function RemoveLine(cart: seq<CartLine>, id: string): (r: seq<CartLine>)
    ensures forall i :: 0 <= i < |r| ==> r[i].equipmentId != id
    ensures Unique(cart, LineKey) ==> Unique(r, LineKey)
    ensures (forall i :: 0 <= i < |cart| ==> cart[i].equipmentId != id) ==> r == cart
    ensures Unique(cart, LineKey) && IndexOf(cart, LineKey, id) < |cart| ==>
      var k := IndexOf(cart, LineKey, id); r == cart[..k] + cart[k + 1..]
  {
    WithoutFacts(cart, id);
    Without(cart, LineKey, id)
  }

  lemma WithoutFacts(cart: seq<CartLine>, id: string)
    ensures Unique(cart, LineKey) ==> Unique(Without(cart, LineKey, id), LineKey)
    ensures (forall i :: 0 <= i < |cart| ==> cart[i].equipmentId != id) ==> Without(cart, LineKey, id) == cart
    ensures Unique(cart, LineKey) && IndexOf(cart, LineKey, id) < |cart| ==>
      var k := IndexOf(cart, LineKey, id); Without(cart, LineKey, id) == cart[..k] + cart[k + 1..]
  {
    if Unique(cart, LineKey) {
      WithoutKeepsUnique(cart, LineKey, id);
      var k := IndexOf(cart, LineKey, id);
      if k < |cart| {
        WithoutUnique(cart, LineKey, k);
      }
    }
    if forall i :: 0 <= i < |cart| ==> cart[i].equipmentId != id {
      WithoutAbsent(cart, LineKey, id);
    }
  }

  // ---------------------------------------------------------------------
  // Validation of a borrow request
  // ---------------------------------------------------------------------

  /** Why `validateBorrow` refused, in the order it checks. */
  datatype BorrowError =
    | NoUsers
    | NoBorrower
    | NoBorrowDate
    | NoDueDate
    | DueBeforeBorrow
    | EmptyCart
    | MissingEquipment
    | EquipmentUnavailable(name: string)
    | NotEnoughStock(name: string)

  /** The stock re-check of one cart line against the live equipment list. */
  function LineError(line: CartLine, equipment: seq<Equipment>): (r: Option<BorrowError>)
    ensures r.None? <==>
      && FindEquipment(equipment, line.equipmentId).Some?
      && FindEquipment(equipment, line.equipmentId).value.status == Available
      && line.amount <= FindEquipment(equipment, line.equipmentId).value.quantity
    ensures r.Some? ==> r.value.MissingEquipment? || r.value.EquipmentUnavailable? || r.value.NotEnoughStock?
  {
    match FindEquipment(equipment, line.equipmentId)
    case None => Some(MissingEquipment)
    case Some(eq) =>
      if eq.status != Available then Some(EquipmentUnavailable(eq.name))
      else if line.amount > eq.quantity then Some(NotEnoughStock(eq.name))
      else None
  }

  /** The error of the first cart line that fails its re-check, if any. */
  function CartError(cart: seq<CartLine>, equipment: seq<Equipment>): (r: Option<BorrowError>)
    ensures r.None? <==> forall i :: 0 <= i < |cart| ==> LineError(cart[i], equipment).None?
    ensures r.Some? ==> exists i :: (0 <= i < |cart| && r == LineError(cart[i], equipment) &&
      forall j :: 0 <= j < i ==> LineError(cart[j], equipment).None?)
    ensures r.Some? ==> r.value.MissingEquipment? || r.value.EquipmentUnavailable? || r.value.NotEnoughStock?
  {
    if cart == [] then None
    else if LineError(cart[0], equipment).Some? then
      LineError(cart[0], equipment)
    else
      var r := CartError(cart[1..], equipment);
      assert forall i :: 1 <= i < |cart| ==> cart[1..][i - 1] == cart[i];
      if r.Some? then
        var i :| 0 <= i < |cart[1..]| && r == LineError(cart[1..][i], equipment) &&
          forall j :: 0 <= j < i ==> LineError(cart[1..][j], equipment).None?;
        assert forall j :: 0 <= j < i + 1 ==> LineError(cart[j], equipment).None? by {
          forall j | 0 <= j < i + 1 ensures LineError(cart[j], equipment).None? {
            if j > 0 { assert cart[j] == cart[1..][j - 1]; }
          }
        }
        assert r == LineError(cart[i + 1], equipment);
        r
      else
        r
  }

  /**
   * `validateBorrow` as a specification: the first failing check among users,
   * borrower, both dates, date order, an empty cart and the per-line stock
   * re-check. Dates are "YYYY-MM-DD" strings, whose string order is their
   * calendar order.
   */
  function RequestError(userCount: nat, userId: string, borrowDate: string, dueDate: string,
                        cart: seq<CartLine>, equipment: seq<Equipment>): (r: Option<BorrowError>)
    ensures r.None? <==>
      && userCount > 0 && userId != "" && borrowDate != "" && dueDate != ""
      && !Less(dueDate, borrowDate) && cart != []
      && forall i :: 0 <= i < |cart| ==> LineError(cart[i], equipment).None?
    ensures r == Some(NoUsers) <==> userCount == 0
    ensures r == Some(NoBorrower) <==> userCount > 0 && userId == ""
    ensures r == Some(NoBorrowDate) <==> userCount > 0 && userId != "" && borrowDate == ""
    ensures r == Some(NoDueDate) <==> userCount > 0 && userId != "" && borrowDate != "" && dueDate == ""
    ensures r == Some(DueBeforeBorrow) <==>
      && userCount > 0 && userId != "" && borrowDate != "" && dueDate != ""
      && Less(dueDate, borrowDate)
    ensures r == Some(EmptyCart) <==>
      && userCount > 0 && userId != "" && borrowDate != "" && dueDate != ""
      && !Less(dueDate, borrowDate) && cart == []
    ensures (userCount > 0 && userId != "" && borrowDate != "" && dueDate != ""
             && !Less(dueDate, borrowDate) && cart != []) ==> r == CartError(cart, equipment)
  {
    if userCount == 0 then Some(NoUsers)
    else if userId == "" then Some(NoBorrower)
    else if borrowDate == "" then Some(NoBorrowDate)
    else if dueDate == "" then Some(NoDueDate)
    else if Less(dueDate, borrowDate) then Some(DueBeforeBorrow)
    else if cart == [] then Some(EmptyCart)
    else CartError(cart, equipment)
  }

  /** `validateBorrow`: the checks in order, with an early-return loop over the cart. */
  method ValidateBorrow(userCount: nat, userId: string, borrowDate: string, dueDate: string,
                        cart: seq<CartLine>, equipment: seq<Equipment>) returns (err: Option<BorrowError>)
    ensures err == RequestError(userCount, userId, borrowDate, dueDate, cart, equipment)
  {
    if userCount == 0 { return Some(NoUsers); }
    if userId == "" { return Some(NoBorrower); }
    if borrowDate == "" { return Some(NoBorrowDate); }
    if dueDate == "" { return Some(NoDueDate); }
    if Less(dueDate, borrowDate) { return Some(DueBeforeBorrow); }
    if |cart| == 0 { return Some(EmptyCart); }
    var i := 0;
    while i < |cart|
      invariant 0 <= i <= |cart|
      invariant CartError(cart[i..], equipment) == CartError(cart, equipment)
    {
      var lineErr := LineError(cart[i], equipment);
      if lineErr.Some? {
        return lineErr;
      }
      assert cart[i..][1..] == cart[i + 1..];
      i := i + 1;
    }
    return None;
  }

  // ---------------------------------------------------------------------
  // Commit
  // ---------------------------------------------------------------------

  /** The detail lines of a new borrow: one per cart line, in cart order, nothing returned yet. */
  function NewDetails(borrowId: string, detailIds: seq<string>, cart: seq<CartLine>): (ds: seq<Detail>)
    requires |detailIds| == |cart|
    ensures |ds| == |cart|
    ensures forall i :: 0 <= i < |cart| ==>
      ds[i].equipmentId == cart[i].equipmentId && ds[i].amount == cart[i].amount &&
      ds[i].returnedAmount == 0 && ds[i].borrowId == borrowId && ds[i].id == detailIds[i]
  {
    seq(|cart|, i requires 0 <= i < |cart| =>
      Detail(detailIds[i], borrowId, cart[i].equipmentId, cart[i].amount, 0))
  }

  /** The record `submitBorrow` prepends to the borrow list. */
  function NewBorrow(borrowId: string, detailIds: seq<string>, userId: string, borrowDate: string,
                     dueDate: string, cart: seq<CartLine>, createdAt: string): (b: Borrow)
    requires |detailIds| == |cart|
    ensures b.id == borrowId && b.userId == userId && b.status == Borrowed
    ensures b.borrowDate == borrowDate && b.dueDate == dueDate && b.createdAt == createdAt
    ensures b.details == NewDetails(borrowId, detailIds, cart)
  {
    Borrow(borrowId, userId, borrowDate, dueDate, Borrowed, NewDetails(borrowId, detailIds, cart), createdAt)
  }

  /**
   * The equipment list after a borrow: each row whose id has a cart line
   * loses that line's amount; every other row is unchanged.
   */
  function TakeStock(equipment: seq<Equipment>, cart: seq<CartLine>): (r: seq<Equipment>)
    ensures |r| == |equipment|
    ensures forall i :: 0 <= i < |equipment| ==>
      r[i].id == equipment[i].id && r[i].name == equipment[i].name &&
      r[i].category == equipment[i].category && r[i].status == equipment[i].status
    ensures forall i :: 0 <= i < |equipment| ==>
      match Find(cart, LineKey, equipment[i].id)
      case None => r[i] == equipment[i]
      case Some(line) => r[i].quantity == equipment[i].quantity - line.amount
  {
    seq(|equipment|, i requires 0 <= i < |equipment| =>
      match Find(cart, LineKey, equipment[i].id)
      case None => equipment[i]
      case Some(line) => equipment[i].(quantity := equipment[i].quantity - line.amount))
  }

  /** Every row has a non-negative stock. */
  predicate StockNonNegative(equipment: seq<Equipment>) {
    forall i :: 0 <= i < |equipment| ==> equipment[i].quantity >= 0
  }

  /**
   * Because every cart line passed its re-check, taking stock leaves no
   * row negative (rows with distinct ids).
   */
  lemma TakeStockNonNegative(equipment: seq<Equipment>, cart: seq<CartLine>)
    requires Unique(equipment, EquipmentKey)
    requires StockNonNegative(equipment)
    requires CartError(cart, equipment).None?
    ensures StockNonNegative(TakeStock(equipment, cart))
  {
    var r := TakeStock(equipment, cart);
    forall i | 0 <= i < |equipment| ensures r[i].quantity >= 0 {
      match Find(cart, LineKey, equipment[i].id)
      case None =>
      case Some(line) =>
        var k :| 0 <= k < |cart| && cart[k] == line;
        assert LineError(cart[k], equipment).None?;
        FindUnique(equipment, EquipmentKey, i);
    }
  }

  // ---------------------------------------------------------------------
  // The page state
  // ---------------------------------------------------------------------

  /**
   * What the page keeps of each cart line: one line per equipment, each line
   * refers to equipment on the list that is available, and asks for at least
   * one unit and at most what is on the shelf.
   */
  ghost predicate CartOk(cart: seq<CartLine>, equipment: seq<Equipment>) {
    && Unique(cart, LineKey)
    && forall i :: 0 <= i < |cart| ==> cart[i].amount > 0 && LineError(cart[i], equipment).None?
  }

  /** A cart the page keeps always passes the stock re-check of `validateBorrow`. */
  lemma CartOkPassesRecheck(cart: seq<CartLine>, equipment: seq<Equipment>)
    requires CartOk(cart, equipment)
    ensures CartError(cart, equipment).None?
  {
  }

  /** Adding to the cart keeps it well formed. */
  lemma MergeKeepsCartOk(cart: seq<CartLine>, equipment: seq<Equipment>, id: string, amount: Num)
    requires CartOk(cart, equipment)
    requires CheckAdd(equipment, id, amount).Ok?
    ensures CartOk(MergeLine(cart, id, amount.n, FindEquipment(equipment, id).value.quantity), equipment)
  {
    var eq := FindEquipment(equipment, id).value;
    var r := MergeLine(cart, id, amount.n, eq.quantity);
    MergeKeepsLinesUnique(cart, id, amount.n, eq.quantity);
    forall i | 0 <= i < |r| ensures r[i].amount > 0 && LineError(r[i], equipment).None? {
      if i < |cart| && cart[i].equipmentId != id {
        assert r[i] == cart[i];
      }
    }
  }

  /** Editing a line keeps the cart well formed: the clip keeps it within stock and positive. */
  lemma UpdateKeepsCartOk(cart: seq<CartLine>, equipment: seq<Equipment>, id: string, value: Num)
    requires CartOk(cart, equipment)
    ensures CartOk(UpdateLine(cart, equipment, id, value), equipment)
  {
    var r := UpdateLine(cart, equipment, id, value);
    forall i, j | 0 <= i < j < |r| ensures LineKey(r[i]) != LineKey(r[j]) {
      assert LineKey(cart[i]) != LineKey(cart[j]);
    }
    forall i | 0 <= i < |r| ensures r[i].amount > 0 && LineError(r[i], equipment).None? {
      if cart[i].equipmentId != id {
        assert r[i] == cart[i];
      } else {
        assert LineError(cart[i], equipment).None?;
      }
    }
  }

  /** Removing a line keeps the cart well formed. */
  lemma RemoveKeepsCartOk(cart: seq<CartLine>, equipment: seq<Equipment>, id: string)
    requires CartOk(cart, equipment)
    ensures CartOk(RemoveLine(cart, id), equipment)
  {
    var r := RemoveLine(cart, id);
    forall i | 0 <= i < |r| ensures r[i].amount > 0 && LineError(r[i], equipment).None? {
      assert r[i] in r;
    }
  }

  /**
   * The Borrow page: the users, equipment and borrows loaded from the store,
   * and the cart being assembled. The borrower, the dates, the selected
   * equipment and the amount typed are form inputs passed to each handler;
   * fresh ids and the creation timestamp come from the caller.
   */
  class BorrowPage {
    const users: seq<User>
    var equipment: seq<Equipment>
    var borrows: seq<Borrow>
    var cart: seq<CartLine>

    ghost predicate Valid()
      reads this
    {
      CartOk(cart, equipment)
    }

    constructor (users: seq<User>, equipment: seq<Equipment>, borrows: seq<Borrow>)
      ensures Valid()
      ensures this.users == users && this.equipment == equipment && this.borrows == borrows
      ensures cart == []
    {
      this.users := users;
      this.equipment := equipment;
      this.borrows := borrows;
      this.cart := [];
    }

    /** `addToCart` */
    method AddToCart(equipId: string, amount: Num) returns (err: Option<AddError>)
      requires Valid()
      modifies this`cart
      ensures Valid()
      ensures err.Some? <==> CheckAdd(equipment, equipId, amount).Err?
      ensures err.Some? ==> err.value == CheckAdd(equipment, equipId, amount).error && cart == old(cart)
      ensures err.None? ==>
        cart == MergeLine(old(cart), equipId, amount.n, FindEquipment(equipment, equipId).value.quantity)
    {
      var check := CheckAdd(equipment, equipId, amount);
      if check.Err? {
        return Some(check.error);
      }
      var (eq, qty) := check.value;
      MergeKeepsCartOk(cart, equipment, equipId, amount);
      cart := MergeLine(cart, equipId, qty, eq.quantity);
      return None;
    }

    /** `removeItem` */
    method RemoveItem(equipmentId: string)
      requires Valid()
      modifies this`cart
      ensures Valid()
      ensures cart == RemoveLine(old(cart), equipmentId)
    {
      RemoveKeepsCartOk(cart, equipment, equipmentId);
      cart := RemoveLine(cart, equipmentId);
    }

    /** `updateCartAmount` */
    method UpdateCartAmount(equipmentId: string, value: Num)
      requires Valid()
      modifies this`cart
      ensures Valid()
      ensures cart == UpdateLine(old(cart), equipment, equipmentId, value)
    {
      UpdateKeepsCartOk(cart, equipment, equipmentId, value);
      cart := UpdateLine(cart, equipment, equipmentId, value);
    }

    /**
     * `submitBorrow`: validate, then record the borrow, take the stock off
     * the shelf and empty the cart; on a validation error nothing changes.
     */
    method SubmitBorrow(userId: string, borrowDate: string, dueDate: string,
                        borrowId: string, detailIds: seq<string>, createdAt: string)
      returns (err: Option<BorrowError>)
      requires Valid()
      requires |detailIds| == |cart|
      modifies this`equipment, this`borrows, this`cart
      ensures Valid()
      ensures err == RequestError(|users|, userId, borrowDate, dueDate, old(cart), old(equipment))
      ensures err.Some? ==> equipment == old(equipment) && borrows == old(borrows) && cart == old(cart)
      ensures err.None? ==>
        && borrows == [NewBorrow(borrowId, detailIds, userId, borrowDate, dueDate, old(cart), createdAt)] + old(borrows)
        && equipment == TakeStock(old(equipment), old(cart))
        && cart == []
    {
      err := ValidateBorrow(|users|, userId, borrowDate, dueDate, cart, equipment);
      if err.Some? {
        return;
      }
      var borrow := NewBorrow(borrowId, detailIds, userId, borrowDate, dueDate, cart, createdAt);
      equipment := TakeStock(equipment, cart);
      borrows := [borrow] + borrows;
      cart := [];
    }
  }
}
