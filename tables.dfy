/**
 * The database tables as the handlers use them through gorm, kept in memory:
 * a table is a sequence of rows in insertion order, and `key` extracts a
 * row's primary key.
 */
module Tables {
  import opened Wrappers

  /** Some row of the table has key `k`. */
  predicate HasKey<T>(rows: seq<T>, key: T -> string, k: string) {
    exists i :: 0 <= i < |rows| && key(rows[i]) == k
  }

  /** The index of the first row with key `k`. */
  function FirstIndex<T>(rows: seq<T>, key: T -> string, k: string): (r: Option<nat>)
    ensures r.Some? ==> r.value < |rows| && key(rows[r.value]) == k
    ensures r.Some? ==> forall j :: 0 <= j < r.value ==> key(rows[j]) != k
    ensures r.None? ==> forall j :: 0 <= j < |rows| ==> key(rows[j]) != k
    decreases |rows|
  {
    if rows == [] then None
    else if key(rows[0]) == k then Some(0)
    else match FirstIndex(rows[1..], key, k)
      case None => None
      case Some(i) => Some(i + 1)
  }

  /** `First(&row, "id = ?", k)`: the first row with that key, or ErrRecordNotFound (None). */
  function Lookup<T>(rows: seq<T>, key: T -> string, k: string): (r: Option<T>)
    ensures r.Some? ==> r.value in rows && key(r.value) == k
    ensures r.None? <==> !HasKey(rows, key, k)
  {
    match FirstIndex(rows, key, k)
    case None => None
    case Some(i) => Some(rows[i])
  }

  /**
   * `Save(&row)` for a row whose key is set: an UPDATE of every row with that
   * key, or an INSERT when no row has it.
   */
  function Upsert<T>(rows: seq<T>, key: T -> string, row: T): (r: seq<T>)
  {
    if HasKey(rows, key, key(row)) then
      seq(|rows|, i requires 0 <= i < |rows| => if key(rows[i]) == key(row) then row else rows[i])
    else rows + [row]
  }

  /** `Delete` by key: every row with key `k` goes, the others keep their order. */
  function Without<T>(rows: seq<T>, key: T -> string, k: string): (r: seq<T>)
    decreases |rows|
  {
    if rows == [] then []
    else Without(rows[..|rows| - 1], key, k) + (if key(rows[|rows| - 1]) == k then [] else [rows[|rows| - 1]])
  }

  /** Read your writes: after a save, the row found under its key is the row saved. */
  lemma SaveThenLookup<T>(rows: seq<T>, key: T -> string, row: T)
    ensures Lookup(Upsert(rows, key, row), key, key(row)) == Some(row)
  {
    var u := Upsert(rows, key, row);
    if HasKey(rows, key, key(row)) {
      var i :| 0 <= i < |rows| && key(rows[i]) == key(row);
      assert key(u[i]) == key(row);
    } else {
      assert forall j :: 0 <= j < |rows| ==> key(u[j]) != key(row);
      assert key(u[|rows|]) == key(row);
    }
  }

  /** A save leaves the row found under any other key as it was. */
  lemma SaveKeepsOthers<T>(rows: seq<T>, key: T -> string, row: T, k: string)
    requires k != key(row)
    ensures Lookup(Upsert(rows, key, row), key, k) == Lookup(rows, key, k)
  {
    var u := Upsert(rows, key, row);
    assert forall j :: 0 <= j < |rows| ==> (key(u[j]) == k <==> key(rows[j]) == k);
    assert forall j :: 0 <= j < |rows| && key(rows[j]) == k ==> u[j] == rows[j];
    var a, b := FirstIndex(u, key, k), FirstIndex(rows, key, k);
    if b.Some? {
      assert key(u[b.value]) == k;
    } else if a.Some? {
      assert a.value < |rows|;
    }
  }

  /** Saving a row twice leaves the table as saving the second version once. */
  lemma SaveTwice<T>(rows: seq<T>, key: T -> string, a: T, b: T)
    requires key(a) == key(b)
    ensures Upsert(Upsert(rows, key, a), key, b) == Upsert(rows, key, b)
  {
    SaveThenLookup(rows, key, a);
    var u := Upsert(rows, key, a);
    assert HasKey(u, key, key(b));
    var l, m := Upsert(u, key, b), Upsert(rows, key, b);
    if HasKey(rows, key, key(a)) {
      assert |l| == |m|;
      forall i | 0 <= i < |l| ensures l[i] == m[i] {
      }
    } else {
      assert u == rows + [a];
      assert forall i :: 0 <= i < |rows| ==> key(rows[i]) != key(a);
      assert |l| == |m|;
      forall i | 0 <= i < |l| ensures l[i] == m[i] {
        if i < |rows| {
          assert l[i] == u[i] == rows[i];
        }
      }
    }
  }

  /** Saving over a row just inserted under a fresh key replaces that row. */
  lemma SaveOverInsert<T>(rows: seq<T>, key: T -> string, a: T, b: T)
    requires key(a) == key(b) && !HasKey(rows, key, key(a))
    ensures Upsert(rows + [a], key, b) == rows + [b]
  {
    SaveTwice(rows, key, a, b);
    assert Upsert(rows, key, a) == rows + [a];
  }

  /** A save never removes a row and adds at most one. */
  lemma SaveSize<T>(rows: seq<T>, key: T -> string, row: T)
    ensures |Upsert(rows, key, row)| == if HasKey(rows, key, key(row)) then |rows| else |rows| + 1
  {
  }

  /** After a delete no row has the key, and every row with another key is kept. */
  lemma {:induction false} WithoutMembers<T>(rows: seq<T>, key: T -> string, k: string)
    ensures |Without(rows, key, k)| <= |rows|
    ensures forall j :: 0 <= j < |Without(rows, key, k)| ==> key(Without(rows, key, k)[j]) != k
    ensures forall x :: x in rows && key(x) != k ==> x in Without(rows, key, k)
    ensures forall x :: x in Without(rows, key, k) ==> x in rows
    decreases |rows|
  {
    if rows != [] {
      var init := rows[..|rows| - 1];
      WithoutMembers(init, key, k);
      assert rows == init + [rows[|rows| - 1]];
    }
  }

  /** Deleting then looking up the key finds nothing; other keys are found as before. */
  lemma {:induction false} DeleteThenLookup<T>(rows: seq<T>, key: T -> string, k: string, other: string)
    requires other != k
    ensures Lookup(Without(rows, key, k), key, k).None?
    ensures Lookup(Without(rows, key, k), key, other) == Lookup(rows, key, other)
    decreases |rows|
  {
    if rows != [] {
      var init := rows[..|rows| - 1];
      var last := rows[|rows| - 1];
      assert rows == init + [last];
      DeleteThenLookup(init, key, k, other);
      LookupAppend(init, key, last, other);
      var w := Without(init, key, k);
      if key(last) != k {
        assert Without(rows, key, k) == w + [last];
        LookupAppend(w, key, last, other);
        LookupAppend(w, key, last, k);
      } else {
        assert Without(rows, key, k) == w;
      }
    }
  }

  /** Appending a row changes a lookup only when no earlier row has the key. */
  lemma LookupAppend<T>(rows: seq<T>, key: T -> string, row: T, k: string)
    ensures Lookup(rows + [row], key, k) == if HasKey(rows, key, k) then Lookup(rows, key, k) else if key(row) == k then Some(row) else None
  {
    var u := rows + [row];
    assert u[|rows|] == row;
    assert forall j :: 0 <= j < |rows| ==> u[j] == rows[j];
    var a, b := FirstIndex(u, key, k), FirstIndex(rows, key, k);
    if b.Some? {
      assert key(u[b.value]) == k;
      assert a == b;
    } else {
      assert !HasKey(rows, key, k);
      if a.Some? {
        assert a.value == |rows|;
      }
    }
  }
}
