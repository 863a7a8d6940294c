/**
 * Report 1 of the reports page, "borrows over time": the date helpers it
 * uses, the axis of day or month buckets it lays out, and the count of
 * borrows that fall into each bucket.
 */
module Timeline {
  import opened Common
  import opened Text
  import opened Calendar
  import opened Entities

  /** `toDateOnly`: "" for an empty value, otherwise the first ten characters (the date of a timestamp). */
  function ToDateOnly(x: string): (r: string)
    ensures x == "" ==> r == ""
    ensures |r| == if |x| < 10 then |x| else 10
    ensures r == x[..|r|]
  {
    if x == "" then ""
    else if Includes(x, "T") then Prefix(x, 10)
    else Prefix(x, 10)
  }

  /** `ym`: "" for an empty value, otherwise the first seven characters. */
  function Ym(s: string): (r: string)
    ensures s == "" ==> r == ""
    ensures |r| == if |s| < 7 then |s| else 7
    ensures r == s[..|r|]
  {
    if s == "" then "" else Prefix(s, 7)
  }

  /** `inRange`: false for an empty value, otherwise start <= s <= end as strings. */
  predicate InRange(s: string, start: string, end: string) {
    s != "" && !Less(s, start) && !Less(end, s)
  }

  /** The label of a date is exactly ten characters long. */
  lemma FormatLength(d: Date)
    requires ValidDate(d) && FourDigit(d.year)
    ensures |Format(d)| == 10
  {
    DecimalFour(d.year);
    Pad2Order(d.month, d.day);
  }

  /** The date part of a stored date or of a timestamp that starts with it is that date. */
  lemma DateOfTimestamp(d: Date, rest: string)
    requires ValidDate(d) && FourDigit(d.year)
    ensures ToDateOnly(Format(d) + rest) == Format(d)
  {
    FormatLength(d);
    assert (Format(d) + rest)[..10] == Format(d);
  }

  /** The month key of a stored date is the label of its month. */
  lemma MonthKeyOfDate(d: Date)
    requires ValidDate(d) && FourDigit(d.year)
    ensures Ym(ToDateOnly(Format(d))) == MonthLabel(YearMonth(d.year, d.month))
  {
    DateOfTimestamp(d, "");
    assert Format(d) + "" == Format(d);
    FormatLength(d);
    MonthOfDate(d);
  }

  /** For well-formed labels, the string test of `inRange` is the date test, ends included. */
  lemma InRangeDates(d: Date, start: Date, end: Date)
    requires ValidDate(d) && ValidDate(start) && ValidDate(end)
    requires FourDigit(d.year) && FourDigit(start.year) && FourDigit(end.year)
    ensures InRange(Format(d), Format(start), Format(end)) <==> !Before(d, start) && !Before(end, d)
  {
    FormatLength(d);
    FormatOrder(d, start);
    FormatOrder(end, d);
  }

  /** One bar of the chart: a day or month label and how many borrows fall in it. */
  datatype Bucket = Bucket(period: string, value: int)

  function Labels(data: seq<Bucket>): (r: seq<string>)
    ensures |r| == |data| && forall j :: 0 <= j < |data| ==> r[j] == data[j].period
  {
    seq(|data|, j requires 0 <= j < |data| => data[j].period)
  }

  /** `data.reduce((sum, d) => sum + d.value, 0)` */
  function Total(data: seq<Bucket>): int {
    if data == [] then 0 else Total(data[..|data| - 1]) + data[|data| - 1].value
  }

  /** Buckets that are all still at zero add up to zero. */
  lemma {:induction false} TotalZero(data: seq<Bucket>)
    requires forall j :: 0 <= j < |data| ==> data[j].value == 0
    ensures Total(data) == 0
  {
    if data != [] {
      TotalZero(data[..|data| - 1]);
    }
  }

  // ----- The axes -----

  /** The number of days from start to end, both included; 0 when end is before start. */
  function DaySpan(start: Date, end: Date): nat
    requires ValidDate(start) && ValidDate(end)
  {
    if Before(end, start) then 0
    else
      OrdinalOrder(end, start);
      Ordinal(end) - Ordinal(start) + 1
  }

  /** The labels of the first n days from start. */
  function DaysFrom(start: Date, n: nat): (r: seq<string>)
    requires ValidDate(start)
    ensures |r| == n
  {
    if n == 0 then [] else DaysFrom(start, n - 1) + [Format(DayAfter(start, n - 1))]
  }

  lemma {:induction false} DaysFromAt(start: Date, n: nat, k: nat)
    requires ValidDate(start) && k < n
    ensures DaysFrom(start, n)[k] == Format(DayAfter(start, k))
  {
    if k < n - 1 {
      DaysFromAt(start, n - 1, k);
    }
  }

  /** The DAY axis: the label of every day from start to end, in calendar order. */
  function DayLabels(start: Date, end: Date): (r: seq<string>)
    requires ValidDate(start) && ValidDate(end)
    ensures |r| == DaySpan(start, end)
  {
    DaysFrom(start, DaySpan(start, end))
  }

  /** A bucket at zero for every label: the object the page fills with `map[key] = 0`. */
  function Zeros(labels: seq<string>): (r: seq<Bucket>)
    ensures |r| == |labels|
    ensures forall j :: 0 <= j < |r| ==> r[j] == Bucket(labels[j], 0)
  {
    seq(|labels|, j requires 0 <= j < |labels| => Bucket(labels[j], 0))
  }

  /** Zero buckets carry the labels and add up to zero. */
  lemma ZerosFacts(labels: seq<string>)
    ensures Labels(Zeros(labels)) == labels
    ensures Total(Zeros(labels)) == 0
  {
    TotalZero(Zeros(labels));
  }

  /** Appending a label appends a zero bucket. */
  lemma ZerosAppend(labels: seq<string>, x: string)
    ensures Zeros(labels + [x]) == Zeros(labels) + [Bucket(x, 0)]
  {
    var a, b := Zeros(labels + [x]), Zeros(labels) + [Bucket(x, 0)];
    forall k | 0 <= k < |a| ensures a[k] == b[k] {
    }
  }

  /** The loop goes on exactly while fewer than DaySpan days have been laid out. */
  lemma DayLoopGuard(start: Date, end: Date, k: nat)
    requires ValidDate(start) && ValidDate(end)
    ensures !Before(end, DayAfter(start, k)) <==> k < DaySpan(start, end)
  {
    OrdinalOrder(end, DayAfter(start, k));
    OrdinalOrder(end, start);
  }

  /** The DAY axis loop: every day from start while it is not after end, each with count 0. */
  method DayAxis(start: Date, end: Date) returns (data: seq<Bucket>)
    requires ValidDate(start) && ValidDate(end)
    ensures data == Zeros(DayLabels(start, end))
  {
    data := [];
    var d := start;
    DayLoopGuard(start, end, 0);
    while !Before(end, d)
      invariant ValidDate(d) && d == DayAfter(start, |data|)
      invariant |data| <= DaySpan(start, end)
      invariant !Before(end, d) <==> |data| < DaySpan(start, end)
      invariant data == Zeros(DaysFrom(start, |data|))
      decreases DaySpan(start, end) - |data|
    {
      ZerosAppend(DaysFrom(start, |data|), Format(d));
      data := data + [Bucket(Format(d), 0)];
      d := NextDay(d);
      DayLoopGuard(start, end, |data|);
    }
  }

  /** With the page's range of n days ending at end, the axis has n buckets. */
  lemma DaySpanOfRange(start: Date, n: nat)
    requires ValidDate(start) && n >= 1
    ensures DaySpan(start, DayAfter(start, n - 1)) == n
  {
    OrdinalOrder(DayAfter(start, n - 1), start);
  }

  /** The days of the axis are listed in strictly increasing label order. */
  lemma DayLabelsIncrease(start: Date, end: Date, i: nat, j: nat)
    requires ValidDate(start) && ValidDate(end) && FourDigit(start.year) && FourDigit(end.year)
    requires i < j < DaySpan(start, end)
    ensures Less(DayLabels(start, end)[i], DayLabels(start, end)[j])
  {
    DayBetween(start, end, i);
    DayBetween(start, end, j);
    DaysFromAt(start, DaySpan(start, end), i);
    DaysFromAt(start, DaySpan(start, end), j);
    OrdinalOrder(DayAfter(start, i), DayAfter(start, j));
    FormatOrder(DayAfter(start, i), DayAfter(start, j));
  }

  /** Every day of the axis lies between start and end. */
  lemma DayBetween(start: Date, end: Date, k: nat)
    requires ValidDate(start) && ValidDate(end) && k < DaySpan(start, end)
    ensures !Before(DayAfter(start, k), start) && !Before(end, DayAfter(start, k))
    ensures FourDigit(start.year) && FourDigit(end.year) ==> FourDigit(DayAfter(start, k).year)
  {
    OrdinalOrder(DayAfter(start, k), start);
    OrdinalOrder(end, DayAfter(start, k));
    OrdinalOrder(end, start);
  }

  /** A date's label is on the DAY axis exactly when the date lies from start to end. */
  lemma DayLabelsExact(start: Date, end: Date, d: Date)
    requires ValidDate(start) && ValidDate(end) && ValidDate(d)
    requires FourDigit(start.year) && FourDigit(end.year) && FourDigit(d.year)
    ensures Format(d) in DayLabels(start, end) <==> !Before(d, start) && !Before(end, d)
  {
    if Format(d) in DayLabels(start, end) {
      DayLabelInRange(start, end, d);
    }
    if !Before(d, start) && !Before(end, d) {
      DayInRangeLabelled(start, end, d);
    }
  }

  /** A day whose label is on the axis lies between start and end. */
  lemma DayLabelInRange(start: Date, end: Date, d: Date)
    requires ValidDate(start) && ValidDate(end) && ValidDate(d)
    requires FourDigit(start.year) && FourDigit(end.year) && FourDigit(d.year)
    requires Format(d) in DayLabels(start, end)
    ensures !Before(d, start) && !Before(end, d)
  {
    var labels := DayLabels(start, end);
    var k :| 0 <= k < |labels| && labels[k] == Format(d);
    DaysFromAt(start, |labels|, k);
    DayBetween(start, end, k);
    FormatOrder(DayAfter(start, k), d);
  }

  /** A day between start and end has its label on the axis. */
  lemma DayInRangeLabelled(start: Date, end: Date, d: Date)
    requires ValidDate(start) && ValidDate(end) && ValidDate(d)
    requires FourDigit(start.year) && FourDigit(end.year) && FourDigit(d.year)
    requires !Before(d, start) && !Before(end, d)
    ensures Format(d) in DayLabels(start, end)
  {
    var labels := DayLabels(start, end);
    ReachedByDays(start, d);
    OrdinalOrder(end, d);
    OrdinalOrder(end, start);
    var k := Ordinal(d) - Ordinal(start);
    assert 0 <= k < |labels|;
    DaysFromAt(start, |labels|, k);
    assert labels[k] == Format(d);
  }

  /** The number of months from start to end, both included; 0 when end is before start. */
  function MonthSpan(start: YearMonth, end: YearMonth): nat {
    if MonthIndex(end) < MonthIndex(start) then 0 else MonthIndex(end) - MonthIndex(start) + 1
  }

  /** The labels of the first n months from start. */
  function MonthsFrom(start: YearMonth, n: nat): (r: seq<string>)
    requires ValidMonth(start)
    ensures |r| == n
  {
    if n == 0 then [] else MonthsFrom(start, n - 1) + [MonthLabel(MonthAfter(start, n - 1))]
  }

  lemma {:induction false} MonthsFromAt(start: YearMonth, n: nat, k: nat)
    requires ValidMonth(start) && k < n
    ensures MonthsFrom(start, n)[k] == MonthLabel(MonthAfter(start, k))
  {
    if k < n - 1 {
      MonthsFromAt(start, n - 1, k);
    }
  }

  /** The MONTH axis: the label of every month from start to end, in order. */
  function MonthLabels(start: YearMonth, end: YearMonth): (r: seq<string>)
    requires ValidMonth(start)
    ensures |r| == MonthSpan(start, end)
  {
    MonthsFrom(start, MonthSpan(start, end))
  }

  /** The MONTH axis loop: every month from start while it is not after end, each with count 0. */
  method MonthAxis(start: YearMonth, end: YearMonth) returns (data: seq<Bucket>)
    requires ValidMonth(start)
    ensures data == Zeros(MonthLabels(start, end))
  {
    data := [];
    var cur := start;
    while MonthIndex(cur) <= MonthIndex(end)
      invariant ValidMonth(cur) && cur == MonthAfter(start, |data|)
      invariant data != [] ==> MonthIndex(cur) <= MonthIndex(end) + 1
      invariant data == Zeros(MonthsFrom(start, |data|))
      decreases MonthIndex(end) + 1 - MonthIndex(cur)
    {
      ZerosAppend(MonthsFrom(start, |data|), MonthLabel(cur));
      data := data + [Bucket(MonthLabel(cur), 0)];
      cur := NextMonth(cur);
    }
  }

  /** The months of the axis are listed in strictly increasing label order. */
  lemma MonthLabelsIncrease(start: YearMonth, end: YearMonth, i: nat, j: nat)
    requires ValidMonth(start) && ValidMonth(end) && FourDigit(start.year) && FourDigit(end.year)
    requires i < j < MonthSpan(start, end)
    ensures Less(MonthLabels(start, end)[i], MonthLabels(start, end)[j])
  {
    MonthBetween(start, end, i);
    MonthBetween(start, end, j);
    MonthsFromAt(start, MonthSpan(start, end), i);
    MonthsFromAt(start, MonthSpan(start, end), j);
    MonthLabelOrder(MonthAfter(start, i), MonthAfter(start, j));
  }

  /** Every month of the axis lies between start and end. */
  lemma MonthBetween(start: YearMonth, end: YearMonth, k: nat)
    requires ValidMonth(start) && ValidMonth(end) && k < MonthSpan(start, end)
    ensures MonthIndex(start) <= MonthIndex(MonthAfter(start, k)) <= MonthIndex(end)
    ensures FourDigit(start.year) && FourDigit(end.year) ==> FourDigit(MonthAfter(start, k).year)
  {
    MonthIndexOrder(MonthAfter(start, k), start);
    MonthIndexOrder(end, MonthAfter(start, k));
  }

  /** A month's label is on the MONTH axis exactly when the month lies from start to end. */
  lemma MonthLabelsExact(start: YearMonth, end: YearMonth, m: YearMonth)
    requires ValidMonth(start) && ValidMonth(end) && ValidMonth(m)
    requires FourDigit(start.year) && FourDigit(end.year) && FourDigit(m.year)
    ensures MonthLabel(m) in MonthLabels(start, end) <==> MonthIndex(start) <= MonthIndex(m) <= MonthIndex(end)
  {
    var labels := MonthLabels(start, end);
    if MonthLabel(m) in labels {
      var k :| 0 <= k < |labels| && labels[k] == MonthLabel(m);
      MonthsFromAt(start, |labels|, k);
      MonthBetween(start, end, k);
      MonthLabelOrder(MonthAfter(start, k), m);
    }
    if MonthIndex(start) <= MonthIndex(m) <= MonthIndex(end) {
      var k := MonthIndex(m) - MonthIndex(start);
      MonthIndexOrder(MonthAfter(start, k), m);
      MonthsFromAt(start, |labels|, k);
    }
  }

  // ----- Counting -----

  function Same(s: string): string { s }

  /**
   * The bucket a key is counted in: the first bucket labelled with it when
   * the key passes the range test; |axis| when it is counted nowhere.
   */
  function Slot(axis: seq<string>, accept: string -> bool, key: string): (r: nat)
    ensures r <= |axis|
    ensures r < |axis| ==> accept(key) && axis[r] == key
    ensures accept(key) && key in axis ==> r < |axis|
  {
    if accept(key) then IndexOf(axis, Same, key) else |axis|
  }

  /** How many of the keys land in bucket j. */
  function CountAt(axis: seq<string>, accept: string -> bool, keys: seq<string>, j: nat): nat {
    if keys == [] then 0
    else CountAt(axis, accept, keys[..|keys| - 1], j) + (if Slot(axis, accept, keys[|keys| - 1]) == j then 1 else 0)
  }

  /** How many of the keys land in some bucket. */
  function Hits(axis: seq<string>, accept: string -> bool, keys: seq<string>): nat {
    if keys == [] then 0
    else Hits(axis, accept, keys[..|keys| - 1]) + (if Slot(axis, accept, keys[|keys| - 1]) < |axis| then 1 else 0)
  }

  /** Adding one to a single bucket adds one to the total. */
  lemma {:induction false} TotalBump(data: seq<Bucket>, j: nat)
    requires j < |data|
    ensures Total(data[j := data[j].(value := data[j].value + 1)]) == Total(data) + 1
  {
    var r := data[j := data[j].(value := data[j].value + 1)];
    if j < |data| - 1 {
      assert r[..|r| - 1] == data[..|data| - 1][j := data[j].(value := data[j].value + 1)];
      TotalBump(data[..|data| - 1], j);
    } else {
      assert r[..|r| - 1] == data[..|data| - 1];
    }
  }

  /**
   * The counting loop: for each key that passes the range test and names a
   * bucket, add one to that bucket.
   */
  method CountInto(data: seq<Bucket>, accept: string -> bool, keys: seq<string>) returns (r: seq<Bucket>)
    ensures Labels(r) == Labels(data)
    ensures forall j :: 0 <= j < |data| ==> r[j].value == data[j].value + CountAt(Labels(data), accept, keys, j)
    ensures Total(r) == Total(data) + Hits(Labels(data), accept, keys)
  {
    var axis := Labels(data);
    r := data;
    var i := 0;
    while i < |keys|
      invariant 0 <= i <= |keys|
      invariant Labels(r) == axis
      invariant forall j :: 0 <= j < |data| ==> r[j].value == data[j].value + CountAt(axis, accept, keys[..i], j)
      invariant Total(r) == Total(data) + Hits(axis, accept, keys[..i])
    {
      assert keys[..i + 1][..i] == keys[..i];
      var slot := Slot(axis, accept, keys[i]);
      if slot < |r| {
        TotalBump(r, slot);
        r := r[slot := r[slot].(value := r[slot].value + 1)];
      }
      i := i + 1;
    }
    assert keys[..i] == keys;
  }

  /** How many keys equal the label. */
  function CountEq(keys: seq<string>, name: string): nat {
    if keys == [] then 0
    else CountEq(keys[..|keys| - 1], name) + (if keys[|keys| - 1] == name then 1 else 0)
  }

  /** How many keys are labels of the axis. */
  function CountIn(keys: seq<string>, axis: seq<string>): (r: nat)
    ensures r <= |keys|
  {
    if keys == [] then 0
    else CountIn(keys[..|keys| - 1], axis) + (if keys[|keys| - 1] in axis then 1 else 0)
  }

  /**
   * On an axis of distinct labels that all pass the range test, bucket j
   * counts exactly the keys equal to its label, and the keys counted at all
   * are exactly those on the axis.
   */
  lemma {:induction false} CountsOnAxis(axis: seq<string>, accept: string -> bool, keys: seq<string>)
    requires Unique(axis, Same)
    requires forall j :: 0 <= j < |axis| ==> accept(axis[j])
    ensures forall j :: 0 <= j < |axis| ==> CountAt(axis, accept, keys, j) == CountEq(keys, axis[j])
    ensures Hits(axis, accept, keys) == CountIn(keys, axis)
  {
    if keys != [] {
      var key := keys[|keys| - 1];
      CountsOnAxis(axis, accept, keys[..|keys| - 1]);
      forall j | 0 <= j < |axis|
        ensures Slot(axis, accept, key) == j <==> key == axis[j]
      {
        if key == axis[j] {
          assert Same(axis[Slot(axis, accept, key)]) == Same(axis[j]);
        }
      }
    }
  }

  /** The chart the page shows: each label with the number of keys equal to it. */
  function Report(axis: seq<string>, keys: seq<string>): (r: seq<Bucket>)
    ensures Labels(r) == axis
  {
    seq(|axis|, j requires 0 <= j < |axis| => Bucket(axis[j], CountEq(keys, axis[j])))
  }

  /** The day each borrow is counted under. */
  function DayKeys(borrows: seq<Borrow>): (r: seq<string>)
    ensures |r| == |borrows|
    ensures forall i :: 0 <= i < |borrows| ==> r[i] == ToDateOnly(borrows[i].borrowDate)
  {
    seq(|borrows|, i requires 0 <= i < |borrows| => ToDateOnly(borrows[i].borrowDate))
  }

  /** The month each borrow is counted under. */
  function MonthKeys(borrows: seq<Borrow>): (r: seq<string>)
    ensures |r| == |borrows|
    ensures forall i :: 0 <= i < |borrows| ==> r[i] == Ym(ToDateOnly(borrows[i].borrowDate))
  {
    seq(|borrows|, i requires 0 <= i < |borrows| => Ym(ToDateOnly(borrows[i].borrowDate)))
  }

  /** Labels that strictly increase are distinct. */
  lemma IncreasingUnique(axis: seq<string>)
    requires forall i, j :: 0 <= i < j < |axis| ==> Less(axis[i], axis[j])
    ensures Unique(axis, Same)
  {
    forall i, j | 0 <= i < j < |axis| ensures Same(axis[i]) != Same(axis[j]) {
      LessIrreflexive(axis[i]);
    }
  }

  /** The DAY axis has distinct labels, each of which passes the page's range test. */
  lemma DayAxisFacts(start: Date, end: Date)
    requires ValidDate(start) && ValidDate(end) && FourDigit(start.year) && FourDigit(end.year)
    ensures Unique(DayLabels(start, end), Same)
    ensures forall j :: 0 <= j < DaySpan(start, end) ==> InRange(DayLabels(start, end)[j], Format(start), Format(end))
  {
    var labels := DayLabels(start, end);
    forall i, j | 0 <= i < j < |labels| ensures Less(labels[i], labels[j]) {
      DayLabelsIncrease(start, end, i, j);
    }
    IncreasingUnique(labels);
    forall j | 0 <= j < |labels| ensures InRange(labels[j], Format(start), Format(end)) {
      DaysFromAt(start, |labels|, j);
      DayBetween(start, end, j);
      InRangeDates(DayAfter(start, j), start, end);
    }
  }

  /** The MONTH axis has distinct labels, each of which passes the page's range test. */
  lemma MonthAxisFacts(start: YearMonth, end: YearMonth)
    requires ValidMonth(start) && ValidMonth(end) && FourDigit(start.year) && FourDigit(end.year)
    ensures Unique(MonthLabels(start, end), Same)
    ensures forall j :: 0 <= j < MonthSpan(start, end) ==>
      !Less(MonthLabels(start, end)[j], MonthLabel(start)) && !Less(MonthLabel(end), MonthLabels(start, end)[j])
  {
    var labels := MonthLabels(start, end);
    forall i, j | 0 <= i < j < |labels| ensures Less(labels[i], labels[j]) {
      MonthLabelsIncrease(start, end, i, j);
    }
    IncreasingUnique(labels);
    forall j | 0 <= j < |labels|
      ensures !Less(labels[j], MonthLabel(start)) && !Less(MonthLabel(end), labels[j])
    {
      MonthsFromAt(start, |labels|, j);
      MonthBetween(start, end, j);
      MonthLabelOrder(MonthAfter(start, j), start);
      MonthLabelOrder(end, MonthAfter(start, j));
    }
  }

  /** Counting from zero on such an axis yields the report, and its total counts the keys on the axis. */
  lemma CountedReport(labels: seq<string>, accept: string -> bool, keys: seq<string>, r: seq<Bucket>)
    requires Unique(labels, Same)
    requires forall j :: 0 <= j < |labels| ==> accept(labels[j])
    requires Labels(r) == labels
    requires forall j :: 0 <= j < |labels| ==> r[j].value == CountAt(labels, accept, keys, j)
    ensures r == Report(labels, keys)
    ensures Hits(labels, accept, keys) == CountIn(keys, labels)
  {
    CountsOnAxis(labels, accept, keys);
    var rep := Report(labels, keys);
    forall j | 0 <= j < |r| ensures r[j] == rep[j] {
      assert r[j].period == Labels(r)[j];
    }
  }

  /**
   * DAY mode: one bucket per day from start to end; each counts the borrows
   * whose date is that day, and the total is the number of borrows dated
   * within the range.
   */
  method DayTimeline(start: Date, end: Date, borrows: seq<Borrow>) returns (data: seq<Bucket>)
    requires ValidDate(start) && ValidDate(end) && FourDigit(start.year) && FourDigit(end.year)
    ensures data == Report(DayLabels(start, end), DayKeys(borrows))
    ensures Total(data) == CountIn(DayKeys(borrows), DayLabels(start, end))
  {
    var axis := DayAxis(start, end);
    ZerosFacts(DayLabels(start, end));
    var startDay, endDay := Format(start), Format(end);
    data := CountInto(axis, s => InRange(s, startDay, endDay), DayKeys(borrows));
    DayAxisFacts(start, end);
    CountedReport(DayLabels(start, end), s => InRange(s, startDay, endDay), DayKeys(borrows), data);
  }

  /**
   * MONTH mode: one bucket per month from start to end; each counts the
   * borrows dated in that month, and the total is the number of borrows
   * dated within the range of months.
   */
  method MonthTimeline(start: YearMonth, end: YearMonth, borrows: seq<Borrow>) returns (data: seq<Bucket>)
    requires ValidMonth(start) && ValidMonth(end) && FourDigit(start.year) && FourDigit(end.year)
    ensures data == Report(MonthLabels(start, end), MonthKeys(borrows))
    ensures Total(data) == CountIn(MonthKeys(borrows), MonthLabels(start, end))
  {
    var axis := MonthAxis(start, end);
    ZerosFacts(MonthLabels(start, end));
    var startYM, endYM := MonthLabel(start), MonthLabel(end);
    data := CountInto(axis, m => !Less(m, startYM) && !Less(endYM, m), MonthKeys(borrows));
    MonthAxisFacts(start, end);
    CountedReport(MonthLabels(start, end), m => !Less(m, startYM) && !Less(endYM, m), MonthKeys(borrows), data);
  }

  datatype AggMode = DayMode | MonthMode

  /**
   * `borrowTimeline`: the day range ends today, the month range ends in
   * today's month; the range starts are supplied by the clock.
   */
  method BorrowTimeline(mode: AggMode, startDay: Date, endDay: Date, startMonth: YearMonth, borrows: seq<Borrow>)
    returns (data: seq<Bucket>)
    requires ValidDate(startDay) && ValidDate(endDay) && ValidMonth(startMonth)
    requires FourDigit(startDay.year) && FourDigit(endDay.year) && FourDigit(startMonth.year)
    ensures mode == DayMode ==> data == Report(DayLabels(startDay, endDay), DayKeys(borrows))
    ensures mode == MonthMode ==>
      data == Report(MonthLabels(startMonth, YearMonth(endDay.year, endDay.month)), MonthKeys(borrows))
    ensures mode == DayMode ==> Total(data) == CountIn(DayKeys(borrows), DayLabels(startDay, endDay))
    ensures mode == MonthMode ==>
      Total(data) == CountIn(MonthKeys(borrows), MonthLabels(startMonth, YearMonth(endDay.year, endDay.month)))
  {
    if mode == DayMode {
      data := DayTimeline(startDay, endDay, borrows);
    } else {
      data := MonthTimeline(startMonth, YearMonth(endDay.year, endDay.month), borrows);
    }
  }
}
