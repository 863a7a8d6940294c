/**
 * Report 2 of the reports page, "most borrowed equipment": per equipment,
 * in how many borrows it appears and how many units were borrowed in total,
 * sorted by units (a stable sort) and cut to the top N.
 */
module Ranking {
  import opened Common
  import opened Entities

  /** `stats[equipment_id]`: borrows that include the equipment, and units borrowed. */
  datatype Stat = Stat(equipmentId: string, times: int, totalAmount: int)

  function StatKey(s: Stat): string { s.equipmentId }

  function Times(s: Stat): int { s.times }

  function Units(s: Stat): int { s.totalAmount }

  /** The stats have an entry for the equipment. */
  predicate Present(stats: seq<Stat>, id: string) {
    exists k :: 0 <= k < |stats| && stats[k].equipmentId == id
  }

  // ----- Building the stats -----

  /**
   * One detail line folded into the stats: a new equipment id is appended
   * with zero counts, the line's amount is added, and the borrow is counted
   * once for the equipment when `first` says this borrow has not counted it yet.
   */
  function AddLine(stats: seq<Stat>, d: Detail, first: bool): (r: seq<Stat>)
    ensures |r| >= |stats|
  {
    var k := IndexOf(stats, StatKey, d.equipmentId);
    var bump := if first then 1 else 0;
    if k == |stats| then stats + [Stat(d.equipmentId, bump, d.amount)]
    else stats[k := Stat(d.equipmentId, stats[k].times + bump, stats[k].totalAmount + d.amount)]
  }

  /** The lines of one borrow folded in order, with the ids this borrow has already counted. */
  function AddDetails(stats: seq<Stat>, details: seq<Detail>, seen: set<string>): seq<Stat>
    decreases |details|
  {
    if details == [] then stats
    else
      var d := details[0];
      AddDetails(AddLine(stats, d, d.equipmentId !in seen), details[1..], seen + {d.equipmentId})
  }

  /** The stats after all borrows, in the order their equipment ids were first met. */
  function Tally(borrows: seq<Borrow>): seq<Stat> {
    if borrows == [] then []
    else AddDetails(Tally(borrows[..|borrows| - 1]), borrows[|borrows| - 1].details, {})
  }

  /** `topBorrowed`'s nested loop over borrows and their lines. */
  method TallyBorrows(borrows: seq<Borrow>) returns (stats: seq<Stat>)
    ensures stats == Tally(borrows)
  {
    stats := [];
    var i := 0;
    while i < |borrows|
      invariant 0 <= i <= |borrows|
      invariant stats == Tally(borrows[..i])
    {
      assert borrows[..i + 1][..i] == borrows[..i];
      var details := borrows[i].details;
      var seen: set<string> := {};
      ghost var before := stats;
      var j := 0;
      while j < |details|
        invariant 0 <= j <= |details|
        invariant AddDetails(stats, details[j..], seen) == AddDetails(before, details, {})
      {
        assert details[j..][1..] == details[j + 1..];
        var d := details[j];
        stats := AddLine(stats, d, d.equipmentId !in seen);
        seen := seen + {d.equipmentId};
        j := j + 1;
      }
      i := i + 1;
    }
    assert borrows[..i] == borrows;
  }

  // ----- What the stats mean -----

  /** The borrow has a line for the equipment. */
  predicate HasLine(details: seq<Detail>, id: string) {
    exists i :: 0 <= i < |details| && details[i].equipmentId == id
  }

  /** Units of the equipment on the lines. */
  function LineUnits(details: seq<Detail>, id: string): int {
    if details == [] then 0
    else (if details[0].equipmentId == id then details[0].amount else 0) + LineUnits(details[1..], id)
  }

  /** In how many borrows the equipment appears. */
  function BorrowCount(borrows: seq<Borrow>, id: string): (r: nat)
    ensures r <= |borrows|
  {
    if borrows == [] then 0
    else BorrowCount(borrows[..|borrows| - 1], id) + (if HasLine(borrows[|borrows| - 1].details, id) then 1 else 0)
  }

  /** Units of the equipment borrowed over all borrows. */
  function UnitCount(borrows: seq<Borrow>, id: string): int {
    if borrows == [] then 0
    else UnitCount(borrows[..|borrows| - 1], id) + LineUnits(borrows[|borrows| - 1].details, id)
  }

  /** Some borrow has a line for the equipment. */
  predicate Borrowed(borrows: seq<Borrow>, id: string) {
    exists i :: 0 <= i < |borrows| && HasLine(borrows[i].details, id)
  }

  /** Folding one line keeps one entry per id, adds the id, and adds the line to that id's counts. */
  lemma AddLineEffect(stats: seq<Stat>, d: Detail, first: bool, id: string)
    requires Unique(stats, StatKey)
    ensures Unique(AddLine(stats, d, first), StatKey)
    ensures Present(AddLine(stats, d, first), id) <==> Present(stats, id) || id == d.equipmentId
    ensures SumFor(AddLine(stats, d, first), StatKey, id, Times) ==
      SumFor(stats, StatKey, id, Times) + (if id == d.equipmentId && first then 1 else 0)
    ensures SumFor(AddLine(stats, d, first), StatKey, id, Units) ==
      SumFor(stats, StatKey, id, Units) + (if id == d.equipmentId then d.amount else 0)
  {
    var k := IndexOf(stats, StatKey, d.equipmentId);
    var r := AddLine(stats, d, first);
    if k == |stats| {
      var y := Stat(d.equipmentId, if first then 1 else 0, d.amount);
      SumForAppend(stats, y, StatKey, id, Times);
      SumForAppend(stats, y, StatKey, id, Units);
      forall i, j | 0 <= i < j < |r| ensures StatKey(r[i]) != StatKey(r[j]) {
        if j == |stats| {
          assert r[i] == stats[i];
        }
      }
      if Present(r, id) {
        var m :| 0 <= m < |r| && r[m].equipmentId == id;
        if m < |stats| {
          assert r[m] == stats[m];
        }
      }
      if Present(stats, id) {
        var m :| 0 <= m < |stats| && stats[m].equipmentId == id;
        assert r[m] == stats[m];
      }
      assert r[|stats|] == y;
    } else {
      var y := Stat(d.equipmentId, stats[k].times + (if first then 1 else 0), stats[k].totalAmount + d.amount);
      SumForUpdate(stats, k, y, StatKey, id, Times);
      SumForUpdate(stats, k, y, StatKey, id, Units);
      assert forall m :: 0 <= m < |r| ==> r[m].equipmentId == stats[m].equipmentId;
    }
  }

  /** Folding a borrow's lines counts the borrow once for each equipment it has a line for. */
  lemma {:induction false} AddDetailsEffect(stats: seq<Stat>, details: seq<Detail>, seen: set<string>, id: string)
    requires Unique(stats, StatKey)
    ensures Unique(AddDetails(stats, details, seen), StatKey)
    ensures Present(AddDetails(stats, details, seen), id) <==> Present(stats, id) || HasLine(details, id)
    ensures SumFor(AddDetails(stats, details, seen), StatKey, id, Times) ==
      SumFor(stats, StatKey, id, Times) + (if HasLine(details, id) && id !in seen then 1 else 0)
    ensures SumFor(AddDetails(stats, details, seen), StatKey, id, Units) ==
      SumFor(stats, StatKey, id, Units) + LineUnits(details, id)
    decreases |details|
  {
    if details != [] {
      var d := details[0];
      var s1 := AddLine(stats, d, d.equipmentId !in seen);
      AddLineEffect(stats, d, d.equipmentId !in seen, id);
      AddDetailsEffect(s1, details[1..], seen + {d.equipmentId}, id);
      assert HasLine(details, id) <==> id == d.equipmentId || HasLine(details[1..], id) by {
        if HasLine(details, id) && id != d.equipmentId {
          var i :| 0 <= i < |details| && details[i].equipmentId == id;
          assert details[1..][i - 1] == details[i];
        }
        if HasLine(details[1..], id) {
          var i :| 0 <= i < |details[1..]| && details[1..][i].equipmentId == id;
          assert details[i + 1] == details[1..][i];
        }
      }
    }
  }

  /**
   * After all borrows there is one entry per equipment that was ever
   * borrowed, counting the borrows it appears in and the units borrowed.
   */
  lemma {:induction false} TallyMeaning(borrows: seq<Borrow>, id: string)
    ensures Unique(Tally(borrows), StatKey)
    ensures Present(Tally(borrows), id) <==> Borrowed(borrows, id)
    ensures SumFor(Tally(borrows), StatKey, id, Times) == BorrowCount(borrows, id)
    ensures SumFor(Tally(borrows), StatKey, id, Units) == UnitCount(borrows, id)
  {
    if borrows != [] {
      var init := borrows[..|borrows| - 1];
      var last := borrows[|borrows| - 1];
      TallyMeaning(init, id);
      AddDetailsEffect(Tally(init), last.details, {}, id);
      assert Borrowed(borrows, id) <==> Borrowed(init, id) || HasLine(last.details, id) by {
        if Borrowed(borrows, id) {
          var i :| 0 <= i < |borrows| && HasLine(borrows[i].details, id);
          if i < |borrows| - 1 {
            assert init[i] == borrows[i];
          }
        }
        if Borrowed(init, id) {
          var i :| 0 <= i < |init| && HasLine(init[i].details, id);
          assert borrows[i] == init[i];
        }
      }
    } else {
      SumForAbsent([], StatKey, id, Times);
      SumForAbsent([], StatKey, id, Units);
    }
  }

  // ----- The rows of the table -----

  datatype Row = Row(equipmentId: string, name: string, category: string, times: int, totalAmount: int)

  function Name(e: Equipment): string { e.name }

  function Category(e: Equipment): string { e.category }

  /** `{ [e.id]: field(e) }` built row by row: a later row with the same id overwrites. */
  function FieldMap(equipment: seq<Equipment>, field: Equipment -> string): (m: map<string, string>)
    ensures forall i :: 0 <= i < |equipment| ==> equipment[i].id in m
    ensures forall id :: id in m ==> exists i :: 0 <= i < |equipment| && equipment[i].id == id
  {
    if equipment == [] then map[]
    else
      var init := equipment[..|equipment| - 1];
      var last := equipment[|equipment| - 1];
      assert forall i :: 0 <= i < |init| ==> init[i] == equipment[i];
      FieldMap(init, field)[last.id := field(last)]
  }

  /** With one row per id, each id maps to its own row's field. */
  lemma {:induction false} FieldMapUnique(equipment: seq<Equipment>, field: Equipment -> string, i: nat)
    requires Unique(equipment, EquipmentKey) && i < |equipment|
    ensures FieldMap(equipment, field)[equipment[i].id] == field(equipment[i])
  {
    if i < |equipment| - 1 {
      var init := equipment[..|equipment| - 1];
      assert init[i] == equipment[i];
      assert EquipmentKey(equipment[i]) != EquipmentKey(equipment[|equipment| - 1]);
      FieldMapUnique(init, field, i);
    }
  }

  /** `equipNameById` / `equipCategoryById`: one pass over the equipment. */
  method IndexBy(equipment: seq<Equipment>, field: Equipment -> string) returns (m: map<string, string>)
    ensures m == FieldMap(equipment, field)
  {
    m := map[];
    var i := 0;
    while i < |equipment|
      invariant 0 <= i <= |equipment|
      invariant m == FieldMap(equipment[..i], field)
    {
      assert equipment[..i + 1][..i] == equipment[..i];
      m := m[equipment[i].id := field(equipment[i])];
      i := i + 1;
    }
    assert equipment[..i] == equipment;
  }

  /** `m[id] || fallback` */
  function OrElse(m: map<string, string>, id: string, fallback: string): (r: string)
    ensures fallback != "" ==> r != ""
    ensures id in m && m[id] != "" ==> r == m[id]
    ensures !(id in m && m[id] != "") ==> r == fallback
  {
    if id in m && m[id] != "" then m[id] else fallback
  }

  /** The table rows, one per stats entry, in the stats' order. */
  function MakeRows(stats: seq<Stat>, names: map<string, string>, categories: map<string, string>): (r: seq<Row>)
    ensures |r| == |stats|
    ensures forall k :: 0 <= k < |stats| ==>
      (r[k] == Row(stats[k].equipmentId, OrElse(names, stats[k].equipmentId, "Unknown"),
                   OrElse(categories, stats[k].equipmentId, "-"), stats[k].times, stats[k].totalAmount))
  {
    seq(|stats|, k requires 0 <= k < |stats| =>
      Row(stats[k].equipmentId, OrElse(names, stats[k].equipmentId, "Unknown"),
          OrElse(categories, stats[k].equipmentId, "-"), stats[k].times, stats[k].totalAmount))
  }

  // ----- The stable sort -----

  /** Place x before the first row with no more units than x: after larger totals, before equal ones. */
  function Insert(x: Row, s: seq<Row>): (r: seq<Row>)
    ensures |r| == |s| + 1
  {
    if s == [] || s[0].totalAmount <= x.totalAmount then [x] + s
    else [s[0]] + Insert(x, s[1..])
  }

  /** `list.sort((a, b) => b.total_amount - a.total_amount)`: stable, by units, largest first. */
  function SortByUnits(s: seq<Row>): (r: seq<Row>)
    ensures |r| == |s|
  {
    if s == [] then [] else Insert(s[0], SortByUnits(s[1..]))
  }

  predicate NonIncreasing(s: seq<Row>) {
    forall i, j :: 0 <= i < j < |s| ==> s[i].totalAmount >= s[j].totalAmount
  }

  /** Inserting below a bound keeps every row below it. */
  lemma {:induction false} InsertBelow(x: Row, s: seq<Row>, b: int)
    requires x.totalAmount <= b
    requires forall j :: 0 <= j < |s| ==> s[j].totalAmount <= b
    ensures forall j :: 0 <= j < |Insert(x, s)| ==> Insert(x, s)[j].totalAmount <= b
  {
    if s != [] && s[0].totalAmount > x.totalAmount {
      InsertBelow(x, s[1..], b);
      var t := Insert(x, s[1..]);
      assert forall j :: 0 <= j < |t| ==> ([s[0]] + t)[j + 1] == t[j];
    }
  }

  lemma {:induction false} InsertSorted(x: Row, s: seq<Row>)
    requires NonIncreasing(s)
    ensures NonIncreasing(Insert(x, s))
  {
    if s != [] && s[0].totalAmount > x.totalAmount {
      var t := Insert(x, s[1..]);
      InsertSorted(x, s[1..]);
      InsertBelow(x, s[1..], s[0].totalAmount);
      var r := [s[0]] + t;
      forall i, j | 0 <= i < j < |r| ensures r[i].totalAmount >= r[j].totalAmount {
        assert r[j] == t[j - 1];
        if i > 0 {
          assert r[i] == t[i - 1];
        }
      }
    }
  }

  lemma {:induction false} InsertPermutes(x: Row, s: seq<Row>)
    ensures multiset(Insert(x, s)) == multiset(s) + multiset{x}
  {
    if s != [] && s[0].totalAmount > x.totalAmount {
      InsertPermutes(x, s[1..]);
      assert s == [s[0]] + s[1..];
    }
  }

  /** The sort yields a non-increasing permutation of its input. */
  lemma {:induction false} SortSorted(s: seq<Row>)
    ensures NonIncreasing(SortByUnits(s))
    ensures multiset(SortByUnits(s)) == multiset(s)
  {
    if s != [] {
      SortSorted(s[1..]);
      InsertSorted(s[0], SortByUnits(s[1..]));
      InsertPermutes(s[0], SortByUnits(s[1..]));
      assert s == [s[0]] + s[1..];
    }
  }

  /** The rows with a given total, in their order. */
  function WithTotal(s: seq<Row>, t: int): seq<Row> {
    if s == [] then []
    else (if s[0].totalAmount == t then [s[0]] else []) + WithTotal(s[1..], t)
  }

  lemma {:induction false} InsertStable(x: Row, s: seq<Row>, t: int)
    ensures WithTotal(Insert(x, s), t) == WithTotal([x] + s, t)
  {
    if s == [] || s[0].totalAmount <= x.totalAmount {
    } else {
      InsertStable(x, s[1..], t);
      assert ([x] + s)[1..] == s;
      assert ([x] + s[1..])[1..] == s[1..];
      assert ([s[0]] + Insert(x, s[1..]))[1..] == Insert(x, s[1..]);
    }
  }

  /** Stability: rows with equal totals keep their relative order. */
  lemma {:induction false} SortStable(s: seq<Row>, t: int)
    ensures WithTotal(SortByUnits(s), t) == WithTotal(s, t)
  {
    if s != [] {
      SortStable(s[1..], t);
      InsertStable(s[0], SortByUnits(s[1..]), t);
      assert ([s[0]] + SortByUnits(s[1..]))[1..] == SortByUnits(s[1..]);
    }
  }

  /** `list.slice(0, n)` */
  function Take(s: seq<Row>, n: nat): (r: seq<Row>)
    ensures |r| == if n <= |s| then n else |s|
    ensures r == s[..|r|]
  {
    if n <= |s| then s[..n] else s
  }

  /** The rows `topBorrowed` lists: the stats as rows, sorted, cut to topN. */
  function TopRows(borrows: seq<Borrow>, equipment: seq<Equipment>, topN: nat): seq<Row> {
    Take(SortByUnits(MakeRows(Tally(borrows), FieldMap(equipment, Name), FieldMap(equipment, Category))), topN)
  }

  /** `topBorrowed` */
  method TopBorrowed(borrows: seq<Borrow>, equipment: seq<Equipment>, topN: nat) returns (top: seq<Row>)
    ensures top == TopRows(borrows, equipment, topN)
  {
    var stats := TallyBorrows(borrows);
    var names := IndexBy(equipment, Name);
    var categories := IndexBy(equipment, Category);
    var list := MakeRows(stats, names, categories);
    top := Take(SortByUnits(list), topN);
  }

  /**
   * What the top list says: at most topN rows, and fewer only when fewer
   * equipment were ever borrowed; largest totals first; every row counts
   * the borrows its equipment appears in and the units borrowed, and names
   * equipment that was borrowed.
   */
  lemma TopRowsMeaning(borrows: seq<Borrow>, equipment: seq<Equipment>, topN: nat)
    ensures |TopRows(borrows, equipment, topN)| == if topN <= |Tally(borrows)| then topN else |Tally(borrows)|
    ensures NonIncreasing(TopRows(borrows, equipment, topN))
    ensures forall r :: r in TopRows(borrows, equipment, topN) ==>
      Borrowed(borrows, r.equipmentId)
      && r.times == BorrowCount(borrows, r.equipmentId)
      && r.totalAmount == UnitCount(borrows, r.equipmentId)
  {
    var stats := Tally(borrows);
    var rows := MakeRows(stats, FieldMap(equipment, Name), FieldMap(equipment, Category));
    var sorted := SortByUnits(rows);
    var top := TopRows(borrows, equipment, topN);
    SortSorted(rows);
    forall r | r in top
      ensures Borrowed(borrows, r.equipmentId)
      ensures r.times == BorrowCount(borrows, r.equipmentId)
      ensures r.totalAmount == UnitCount(borrows, r.equipmentId)
    {
      var i :| 0 <= i < |top| && top[i] == r;
      assert sorted[i] == r;
      assert r in multiset(rows);
      var k :| 0 <= k < |rows| && rows[k] == r;
      TallyMeaning(borrows, r.equipmentId);
      SumForUnique(stats, StatKey, k, Times);
      SumForUnique(stats, StatKey, k, Units);
    }
  }

  /** The rows of the sorted list with equal units appear in the order their equipment was first borrowed. */
  lemma TopRowsStable(borrows: seq<Borrow>, equipment: seq<Equipment>, t: int)
    ensures WithTotal(SortByUnits(MakeRows(Tally(borrows), FieldMap(equipment, Name), FieldMap(equipment, Category))), t)
      == WithTotal(MakeRows(Tally(borrows), FieldMap(equipment, Name), FieldMap(equipment, Category)), t)
  {
    SortStable(MakeRows(Tally(borrows), FieldMap(equipment, Name), FieldMap(equipment, Category)), t);
  }
}
