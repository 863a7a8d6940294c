/**
 * Worked examples of a borrow's life: a borrow that takes stock, its full
 * return, a borrow refused for lack of stock, a return refused for asking
 * too much back, and the ranking of one piece of equipment borrowed twice.
 */
module Scenarios {
  import opened Common
  import Text
  import opened Entities
  import opened Borrowing
  import opened ReturnHistory
  import opened Ranking

  function Router(quantity: int): Equipment {
    Equipment("E1", "Router", "Network", quantity, Available)
  }

  /** A borrow of three of five routers passes every check. */
  lemma BorrowAccepted()
    ensures RequestError(1, "U1", "2024-03-01", "2024-03-08", [CartLine("E1", 3)], [Router(5)]).None?
  {
    assert !Text.Less("2024-03-08", "2024-03-01") by {
      Text.LessConcat("2024-03-0", "8", "2024-03-0", "1");
    }
    assert FindEquipment([Router(5)], "E1") == Some(Router(5));
  }

  /** The three routers leave the shelf on a new BORROWED borrow with one line. */
  lemma BorrowTakesStock()
    ensures TakeStock([Router(5)], [CartLine("E1", 3)]) == [Router(2)]
    ensures var b := NewBorrow("B1", ["D1"], "U1", "2024-03-01", "2024-03-08", [CartLine("E1", 3)], "t");
      b.status == Borrowed && b.details == [Detail("D1", "B1", "E1", 3, 0)]
  {
    assert Find([CartLine("E1", 3)], LineKey, "E1") == Some(CartLine("E1", 3));
  }

  /** Returning all three makes the borrow RETURNED and puts the routers back. */
  lemma FullReturnRestocks()
    ensures var b := Borrow("B1", "U1", "2024-03-01", "2024-03-08", Borrowed, [Detail("D1", "B1", "E1", 3, 0)], "t");
      var m := map["E1" := 3];
      OverReturn(b.details, m).None?
      && ReturnBorrow(b, m).status == Returned
      && ReturnBorrow(b, m).details == [Detail("D1", "B1", "E1", 3, 3)]
      && Restock([Router(2)], m) == [Router(5)]
  {
  }

  /** Ten routers against five on the shelf are refused with the equipment's name. */
  lemma BorrowRefusedForStock()
    ensures RequestError(1, "U1", "2024-03-01", "2024-03-08", [CartLine("E1", 10)], [Router(5)])
            == Some(NotEnoughStock("Router"))
  {
    assert !Text.Less("2024-03-08", "2024-03-01") by {
      Text.LessConcat("2024-03-0", "8", "2024-03-0", "1");
    }
    assert FindEquipment([Router(5)], "E1") == Some(Router(5));
  }

  /** Asking five back from a line with three out is refused, naming that line. */
  lemma ReturnRefusedForExcess()
    ensures OverReturn([Detail("D1", "B1", "E1", 3, 0), Detail("D2", "B1", "E2", 1, 0)], map["E1" := 5, "E2" := 1])
            == Some("E1")
  {
  }

  /** Two borrows of the same equipment, of two and three units, rank it with times 2 and 5 units. */
  lemma TwiceBorrowedRanks()
    ensures Tally([Borrow("B1", "U1", "2024-03-01", "2024-03-08", Borrowed, [Detail("D1", "B1", "E1", 2, 0)], "t"),
                   Borrow("B2", "U1", "2024-03-02", "2024-03-09", Borrowed, [Detail("D2", "B2", "E1", 3, 0)], "t")])
            == [Stat("E1", 2, 5)]
  {
    var b1 := Borrow("B1", "U1", "2024-03-01", "2024-03-08", Borrowed, [Detail("D1", "B1", "E1", 2, 0)], "t");
    var b2 := Borrow("B2", "U1", "2024-03-02", "2024-03-09", Borrowed, [Detail("D2", "B2", "E1", 3, 0)], "t");
    assert [b1, b2][..1] == [b1];
    assert [b1][..0] == [];
    assert Tally([b1]) == [Stat("E1", 1, 2)];
  }
}
