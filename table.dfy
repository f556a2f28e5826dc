/** A table as an insertion-ordered sequence of rows with a key function:
    lookup by primary key (session.get), replacement of the row with a given
    key, removal, a WHERE filter and an OFFSET/LIMIT window. */
module Table {
  import opened Results

  predicate HasKey<T, K(==)>(rows: seq<T>, key: T -> K, k: K) {
    exists i | 0 <= i < |rows| :: key(rows[i]) == k
  }

  /** No two rows share a key. */
  predicate UniqueKeys<T, K(==)>(rows: seq<T>, key: T -> K) {
    forall i, j | 0 <= i < j < |rows| :: key(rows[i]) != key(rows[j])
  }

  /** The position of the first row with key k, or |rows| when there is none. */
  function IndexOf<T, K(==)>(rows: seq<T>, key: T -> K, k: K): (i: nat)
    ensures i <= |rows|
    ensures i < |rows| ==> key(rows[i]) == k
    ensures forall j | 0 <= j < i :: key(rows[j]) != k
  {
    if rows == [] then 0
    else if key(rows[0]) == k then 0
    else 1 + IndexOf(rows[1..], key, k)
  }

  /** session.get(Model, k): the row with key k, if any. */
  function Get<T, K(==)>(rows: seq<T>, key: T -> K, k: K): (r: Option<T>)
    ensures r.Some? <==> HasKey(rows, key, k)
    ensures r.Some? ==> r.value in rows && key(r.value) == k
    ensures UniqueKeys(rows, key) ==> forall j | 0 <= j < |rows| && key(rows[j]) == k :: r == Some(rows[j])
  {
    var i := IndexOf(rows, key, k);
    if i < |rows| then Some(rows[i]) else None
  }

  /** The keys of a table with one more row: the old keys and the new row's. */
  lemma HasKeyAppend<T, K>(rows: seq<T>, row: T, key: T -> K)
    ensures forall k :: HasKey(rows + [row], key, k) <==> HasKey(rows, key, k) || key(row) == k
  {
    var all := rows + [row];
    forall k
      ensures HasKey(all, key, k) <==> HasKey(rows, key, k) || key(row) == k
    {
      if HasKey(rows, key, k) {
        var i :| 0 <= i < |rows| && key(rows[i]) == k;
        assert all[i] == rows[i];
      }
      if key(row) == k {
        assert all[|rows|] == row;
      }
      if HasKey(all, key, k) {
        var i :| 0 <= i < |all| && key(all[i]) == k;
        if i < |rows| {
          assert all[i] == rows[i];
        }
      }
    }
  }

  /** Appending a row keeps the keys unique exactly when its key is new. */
  lemma UniqueKeysAppend<T, K>(rows: seq<T>, row: T, key: T -> K)
    requires UniqueKeys(rows, key)
    ensures UniqueKeys(rows + [row], key) <==> !HasKey(rows, key, key(row))
  {
    var all := rows + [row];
    if HasKey(rows, key, key(row)) {
      var i :| 0 <= i < |rows| && key(rows[i]) == key(row);
      assert all[i] == rows[i] && all[|rows|] == row;
    } else {
      forall i, j | 0 <= i < j < |all|
        ensures key(all[i]) != key(all[j])
      {
        if j == |rows| {
          assert all[i] == rows[i];
        } else {
          assert all[i] == rows[i] && all[j] == rows[j];
        }
      }
    }
  }

  /** The table with the row whose key is key(row) replaced by row, in place. */
  function Replace<T, K(==,!new)>(rows: seq<T>, key: T -> K, row: T): (r: seq<T>)
    requires UniqueKeys(rows, key) && HasKey(rows, key, key(row))
    ensures |r| == |rows| && UniqueKeys(r, key)
    ensures forall i | 0 <= i < |rows| :: r[i] == if key(rows[i]) == key(row) then row else rows[i]
    ensures forall k :: HasKey(r, key, k) <==> HasKey(rows, key, k)
  {
    var i := IndexOf(rows, key, key(row));
    var r := rows[i := row];
    assert forall j | 0 <= j < |rows| :: key(r[j]) == key(rows[j]);
    r
  }

  /** The table without the row whose key is k; the other rows keep their order. */
  function Remove<T(==,!new), K(==,!new)>(rows: seq<T>, key: T -> K, k: K): (r: seq<T>)
    requires UniqueKeys(rows, key) && HasKey(rows, key, k)
    ensures |r| == |rows| - 1 && UniqueKeys(r, key)
    ensures forall x :: x in r <==> x in rows && key(x) != k
    ensures forall k' :: HasKey(r, key, k') <==> HasKey(rows, key, k') && k' != k
    ensures forall j | 0 <= j < |r| :: r[j] == if j < IndexOf(rows, key, k) then rows[j] else rows[j + 1]
  {
    var i := IndexOf(rows, key, k);
    var r := rows[..i] + rows[i + 1..];
    assert forall j | 0 <= j < |r| :: r[j] == if j < i then rows[j] else rows[j + 1];
    assert forall j | 0 <= j < |rows| && j != i :: rows[j] == if j < i then r[j] else r[j - 1];
    r
  }

  /** Removing a row keeps any other key of the table unique. */
  lemma RemoveKeepsUnique<T(!new), K(!new), L>(rows: seq<T>, key: T -> K, k: K, other: T -> L)
    requires UniqueKeys(rows, key) && HasKey(rows, key, k) && UniqueKeys(rows, other)
    ensures UniqueKeys(Remove(rows, key, k), other)
  {
    var r := Remove(rows, key, k);
    var n := IndexOf(rows, key, k);
    assert r == rows[..n] + rows[n + 1..];
    forall i, j | 0 <= i < j < |r|
      ensures other(r[i]) != other(r[j])
    {
      var i' := if i < n then i else i + 1;
      var j' := if j < n then j else j + 1;
      assert r[i] == rows[i'] && r[j] == rows[j'];
    }
  }

  /** WHERE p: the rows satisfying p, each as often as the table holds it,
      and none other. */
  function Where<T(==,!new)>(rows: seq<T>, p: T -> bool): (r: seq<T>)
    ensures |r| <= |rows|
    ensures forall x :: multiset(r)[x] == if p(x) then multiset(rows)[x] else 0
    ensures forall x :: x in r <==> x in rows && p(x)
  {
    if rows == [] then []
    else
      assert rows == [rows[0]] + rows[1..];
      if p(rows[0]) then [rows[0]] + Where(rows[1..], p)
      else Where(rows[1..], p)
  }

  /** WHERE keeps table order: filtering two stretches of rows and joining
      the results is filtering the joined rows. */
  lemma {:induction false} WhereConcat<T(!new)>(a: seq<T>, b: seq<T>, p: T -> bool)
    ensures Where(a + b, p) == Where(a, p) + Where(b, p)
  {
    if a == [] {
      assert a + b == b;
    } else {
      var c := a + b;
      assert c[0] == a[0] && c[1..] == a[1..] + b;
      WhereConcat(a[1..], b, p);
      if p(a[0]) {
        calc {
          Where(c, p);
          [a[0]] + Where(a[1..] + b, p);
          [a[0]] + (Where(a[1..], p) + Where(b, p));
          ([a[0]] + Where(a[1..], p)) + Where(b, p);
        }
      }
    }
  }

  /** OFFSET offset LIMIT limit: at most `limit` rows, starting at `offset`. */
  function Window<T>(rows: seq<T>, offset: nat, limit: nat): (r: seq<T>)
    ensures |r| == if offset >= |rows| then 0 else if limit < |rows| - offset then limit else |rows| - offset
    ensures forall i | 0 <= i < |r| :: r[i] == rows[offset + i]
    ensures forall x | x in r :: x in rows
  {
    if offset >= |rows| then []
    else if limit < |rows| - offset then rows[offset..offset + limit]
    else rows[offset..]
  }
}
