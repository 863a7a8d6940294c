/**
 * Values shared by every page: optional and fallible results, numbers read
 * from form inputs, and the operations the pages perform on id-keyed lists
 * (`find`, `filter` by id, replace by id).
 */
module Common {

  datatype Option<T> = None | Some(value: T)

  datatype Result<T, E> = Ok(value: T) | Err(error: E)

  /**
   * What `Number(input)` yields for a form field: an integer, or a value for
   * which `Number.isFinite` is false (NaN, Infinity).
   */
  datatype Num = Finite(n: int) | NotFinite

  /** Whether a modal form creates a new row or edits an existing one. */
  datatype Mode = Create | Edit

  /** The value a missing map entry reads as, as in `Number(m[k] || 0)`. */
  function GetOrZero(m: map<string, int>, k: string): (r: int)
    ensures k in m ==> r == m[k]
    ensures k !in m ==> r == 0
  {
    if k in m then m[k] else 0
  }

  /** No two rows share a key. */
  ghost predicate Unique<T>(s: seq<T>, key: T -> string) {
    forall i, j :: 0 <= i < j < |s| ==> key(s[i]) != key(s[j])
  }

  /** `s.findIndex(x => key(x) === id)`, with |s| standing for "not found". */
  function IndexOf<T>(s: seq<T>, key: T -> string, id: string): (k: nat)
    ensures k <= |s|
    ensures k < |s| ==> key(s[k]) == id
    ensures forall j :: 0 <= j < k ==> key(s[j]) != id
  {
    if s == [] then 0
    else if key(s[0]) == id then 0
    else 1 + IndexOf(s[1..], key, id)
  }

  /** `s.find(x => key(x) === id)` */
  function Find<T>(s: seq<T>, key: T -> string, id: string): (r: Option<T>)
    ensures r.None? <==> forall j :: 0 <= j < |s| ==> key(s[j]) != id
    ensures r.Some? ==> key(r.value) == id && r.value in s
  {
    var k := IndexOf(s, key, id);
    if k < |s| then Some(s[k]) else None
  }

  /** When keys are unique, the row found for the key of s[i] is s[i] itself. */
  lemma FindUnique<T>(s: seq<T>, key: T -> string, i: nat)
    requires Unique(s, key) && i < |s|
    ensures Find(s, key, key(s[i])) == Some(s[i])
  {
  }

  /** `s.filter(x => key(x) !== id)` */
  function Without<T>(s: seq<T>, key: T -> string, id: string): (r: seq<T>)
    ensures forall j :: 0 <= j < |r| ==> key(r[j]) != id
    ensures forall j :: 0 <= j < |r| ==> r[j] in s
    ensures forall j :: 0 <= j < |s| && key(s[j]) != id ==> s[j] in r
    ensures |r| <= |s|
  {
    if s == [] then []
    else
      assert s == [s[0]] + s[1..];
      if key(s[0]) == id then Without(s[1..], key, id)
      else [s[0]] + Without(s[1..], key, id)
  }

  /** Deleting an id no row has leaves the list as it was. */
  lemma {:induction false} WithoutAbsent<T>(s: seq<T>, key: T -> string, id: string)
    requires forall j :: 0 <= j < |s| ==> key(s[j]) != id
    ensures Without(s, key, id) == s
  {
    if s != [] {
      WithoutAbsent(s[1..], key, id);
    }
  }

  /** Filtering commutes with concatenation, so the rows kept stay in their order. */
  lemma {:induction false} WithoutConcat<T>(s: seq<T>, t: seq<T>, key: T -> string, id: string)
    ensures Without(s + t, key, id) == Without(s, key, id) + Without(t, key, id)
  {
    if s == [] {
      assert s + t == t;
    } else {
      assert (s + t)[1..] == s[1..] + t;
      WithoutConcat(s[1..], t, key, id);
    }
  }

  /** With unique keys, deleting by the key of row k removes that row and nothing else. */
  lemma WithoutUnique<T>(s: seq<T>, key: T -> string, k: nat)
    requires Unique(s, key) && k < |s|
    ensures Without(s, key, key(s[k])) == s[..k] + s[k + 1..]
  {
    WithoutOnly(s, key, k);
  }

  lemma {:induction false} WithoutOnly<T>(s: seq<T>, key: T -> string, k: nat)
    requires k < |s|
    requires forall j :: 0 <= j < |s| && j != k ==> key(s[j]) != key(s[k])
    ensures Without(s, key, key(s[k])) == s[..k] + s[k + 1..]
  {
    var id := key(s[k]);
    if k == 0 {
      forall j | 0 <= j < |s[1..]| ensures key(s[1..][j]) != id {
        assert s[1..][j] == s[j + 1];
      }
      WithoutAbsent(s[1..], key, id);
    } else {
      var t := s[1..];
      forall j | 0 <= j < |t| && j != k - 1 ensures key(t[j]) != key(t[k - 1]) {
        assert t[j] == s[j + 1];
      }
      WithoutOnly(t, key, k - 1);
      assert t[k - 1] == s[k];
      assert s[..k] == [s[0]] + t[..k - 1];
      assert s[k + 1..] == t[k..];
    }
  }

  /** `s.filter(p)`: the rows satisfying p, in their order. */
  function Filter<T>(s: seq<T>, p: T -> bool): (r: seq<T>)
    ensures |r| <= |s|
    ensures forall j :: 0 <= j < |r| ==> p(r[j]) && r[j] in s
    ensures forall j :: 0 <= j < |s| && p(s[j]) ==> s[j] in r
    ensures (forall j :: 0 <= j < |s| ==> p(s[j])) ==> r == s
  {
    if s == [] then []
    else if p(s[0]) then [s[0]] + Filter(s[1..], p)
    else Filter(s[1..], p)
  }

  /** A row is kept exactly when it was in the list and satisfies p. */
  lemma {:induction false} FilterIn<T>(s: seq<T>, p: T -> bool, x: T)
    ensures x in Filter(s, p) <==> x in s && p(x)
  {
    if s != [] {
      FilterIn(s[1..], p, x);
      assert s == [s[0]] + s[1..];
    }
  }

  /** Filter keeps every row satisfying p and only those. */
  lemma FilterMembers<T>(s: seq<T>, p: T -> bool)
    ensures forall x :: x in Filter(s, p) <==> x in s && p(x)
  {
    forall x ensures x in Filter(s, p) <==> x in s && p(x) {
      FilterIn(s, p, x);
    }
  }

  /** The sum of f over the rows with the given key: with unique keys, that row's value, or 0. */
  function SumFor<T>(s: seq<T>, key: T -> string, id: string, f: T -> int): int {
    if s == [] then 0
    else (if key(s[0]) == id then f(s[0]) else 0) + SumFor(s[1..], key, id, f)
  }

  lemma {:induction false} SumForAbsent<T>(s: seq<T>, key: T -> string, id: string, f: T -> int)
    requires forall j :: 0 <= j < |s| ==> key(s[j]) != id
    ensures SumFor(s, key, id, f) == 0
  {
    if s != [] {
      assert forall j :: 0 <= j < |s[1..]| ==> s[1..][j] == s[j + 1];
      SumForAbsent(s[1..], key, id, f);
    }
  }

  lemma {:induction false} SumForAppend<T>(s: seq<T>, y: T, key: T -> string, id: string, f: T -> int)
    ensures SumFor(s + [y], key, id, f) == SumFor(s, key, id, f) + (if key(y) == id then f(y) else 0)
  {
    if s == [] {
      assert [y][1..] == [];
    } else {
      assert (s + [y])[1..] == s[1..] + [y];
      SumForAppend(s[1..], y, key, id, f);
    }
  }

  lemma {:induction false} SumForUpdate<T>(s: seq<T>, k: nat, y: T, key: T -> string, id: string, f: T -> int)
    requires k < |s|
    ensures SumFor(s[k := y], key, id, f) ==
      SumFor(s, key, id, f) - (if key(s[k]) == id then f(s[k]) else 0) + (if key(y) == id then f(y) else 0)
  {
    if k == 0 {
      assert s[k := y][1..] == s[1..];
    } else {
      assert s[k := y][1..] == s[1..][k - 1 := y];
      SumForUpdate(s[1..], k - 1, y, key, id, f);
    }
  }

  /** With unique keys, the sum for the key of row k is row k's value. */
  lemma {:induction false} SumForUnique<T>(s: seq<T>, key: T -> string, k: nat, f: T -> int)
    requires Unique(s, key) && k < |s|
    ensures SumFor(s, key, key(s[k]), f) == f(s[k])
  {
    var id := key(s[k]);
    if k == 0 {
      forall j | 0 <= j < |s[1..]| ensures key(s[1..][j]) != id {
        assert s[1..][j] == s[j + 1];
        assert key(s[0]) != key(s[j + 1]);
      }
      SumForAbsent(s[1..], key, id, f);
    } else {
      assert key(s[0]) != key(s[k]);
      assert s[1..][k - 1] == s[k];
      SumForUnique(s[1..], key, k - 1, f);
    }
  }

  /**
   * Rows keyed like s, where the row with the key moved its value by delta:
   * with unique keys the sum moves by delta when the key is present.
   */
  lemma SumForShift<T>(s: seq<T>, t: seq<T>, key: T -> string, id: string, f: T -> int, delta: int)
    requires Unique(s, key) && |t| == |s|
    requires forall i :: 0 <= i < |s| ==> key(t[i]) == key(s[i])
    requires forall i :: 0 <= i < |s| && key(s[i]) == id ==> f(t[i]) == f(s[i]) + delta
    ensures SumFor(t, key, id, f) == SumFor(s, key, id, f) + (if Find(s, key, id).Some? then delta else 0)
  {
    assert Unique(t, key) by {
      forall i, j | 0 <= i < j < |t| ensures key(t[i]) != key(t[j]) {
        assert key(s[i]) != key(s[j]);
      }
    }
    var k := IndexOf(s, key, id);
    if k < |s| {
      SumForUnique(s, key, k, f);
      SumForUnique(t, key, k, f);
    } else {
      SumForAbsent(s, key, id, f);
      SumForAbsent(t, key, id, f);
    }
  }

  /** `s.map(x => key(x) === id ? y : x)` */
  function Replace<T>(s: seq<T>, key: T -> string, id: string, y: T): (r: seq<T>)
    ensures |r| == |s|
    ensures forall j :: 0 <= j < |s| && key(s[j]) != id ==> r[j] == s[j]
    ensures forall j :: 0 <= j < |s| && key(s[j]) == id ==> r[j] == y
  {
    seq(|s|, j requires 0 <= j < |s| => if key(s[j]) == id then y else s[j])
  }

  /** Replacing a row by one with the same key keeps the keys unique. */
  lemma ReplaceKeepsUnique<T>(s: seq<T>, key: T -> string, id: string, y: T)
    requires Unique(s, key) && key(y) == id
    ensures Unique(Replace(s, key, id, y), key)
  {
    var r := Replace(s, key, id, y);
    forall i, j | 0 <= i < j < |r|
      ensures key(r[i]) != key(r[j])
    {
      if key(s[i]) == id {
        assert key(s[j]) != id;
      }
    }
  }

  /** A row whose key no row has, put in front, keeps the keys unique. */
  lemma PrependKeepsUnique<T>(x: T, s: seq<T>, key: T -> string)
    requires Unique(s, key)
    requires forall j :: 0 <= j < |s| ==> key(s[j]) != key(x)
    ensures Unique([x] + s, key)
  {
    var r := [x] + s;
    forall i, j | 0 <= i < j < |r| ensures key(r[i]) != key(r[j]) {
      assert r[j] == s[j - 1];
      if i > 0 {
        assert r[i] == s[i - 1];
      }
    }
  }

  /**
   * With unique keys, replacing by the key of y overwrites the one row with
   * that key in place, or changes nothing when no row has it.
   */
  lemma ReplaceInPlace<T>(s: seq<T>, key: T -> string, y: T)
    requires Unique(s, key)
    ensures var k := IndexOf(s, key, key(y));
      Replace(s, key, key(y), y) == if k < |s| then s[k := y] else s
    ensures Unique(Replace(s, key, key(y), y), key)
  {
    var k := IndexOf(s, key, key(y));
    ReplaceKeepsUnique(s, key, key(y), y);
    if k < |s| {
      assert forall j :: 0 <= j < |s| && j != k ==> key(s[j]) != key(y) by {
        forall j | 0 <= j < |s| && j != k ensures key(s[j]) != key(y) {
          assert key(s[j]) != key(s[k]);
        }
      }
      assert Replace(s, key, key(y), y) == s[k := y];
    } else {
      assert Replace(s, key, key(y), y) == s;
    }
  }

  /** Deleting rows keeps the keys unique. */
  lemma {:induction false} WithoutKeepsUnique<T>(s: seq<T>, key: T -> string, id: string)
    requires Unique(s, key)
    ensures Unique(Without(s, key, id), key)
  {
    if s != [] {
      WithoutKeepsUnique(s[1..], key, id);
      var rest := Without(s[1..], key, id);
      if key(s[0]) != id {
        var r := [s[0]] + rest;
        forall i, j | 0 <= i < j < |r| ensures key(r[i]) != key(r[j]) {
          if i == 0 {
            assert r[j] == rest[j - 1];
            assert r[j] in rest;
            var m :| 0 <= m < |s[1..]| && s[1..][m] == r[j];
            assert s[m + 1] == r[j];
          } else {
            assert r[i] == rest[i - 1] && r[j] == rest[j - 1];
          }
        }
      }
    }
  }
}
