/** Rows and tables shared by every model of the store.

    Every Django model gets an implicit auto-increment primary key `id`; a table
    keeps its rows in insertion order together with the next value of its id
    sequence, which is never handed out twice (a deleted id is not reused). */
module Rows {

  /** A stored row: its primary key and the model's own fields. */
  datatype Row<T> = Row(id: nat, val: T)

  /** One database table: the rows in insertion order and the next id. */
  datatype Table<T> = Table(rows: seq<Row<T>>, nextId: nat)

  /** A freshly migrated table: no rows, and its sequence starts at 1. */
  function EmptyTable<T(==)>(): Table<T> {
    Table([], 1)
  }

  /** The primary keys present in a table. */
  function Ids<T(==)>(t: Table<T>): set<nat> {
    set r | r in t.rows :: r.id
  }

  /** The values of `key` present in a table. */
  function KeySet<T(==), K(==)>(t: Table<T>, key: T -> K): set<K> {
    set r | r in t.rows :: key(r.val)
  }

  /** Ids strictly increase along a sequence of rows. */
  predicate Ascending<T(==)>(s: seq<Row<T>>) {
    forall i, j :: 0 <= i < j < |s| ==> s[i].id < s[j].id
  }

  /** The table invariant of an id sequence: ids increase in insertion order and
      stay below the next value the sequence will hand out. */
  predicate WellFormed<T(==)>(t: Table<T>) {
    && Ascending(t.rows)
    && forall r :: r in t.rows ==> r.id < t.nextId
  }

  /** A unique constraint over `key`: two rows with the same key are one row. */
  predicate UniqueBy<T(==), K(==)>(t: Table<T>, key: T -> K) {
    forall x, y :: x in t.rows && y in t.rows && key(x.val) == key(y.val) ==> x.id == y.id
  }

  /** In a well-formed table a primary key names at most one row. */
  lemma IdsAreKeys<T>(t: Table<T>, x: Row<T>, y: Row<T>)
    requires WellFormed(t) && x in t.rows && y in t.rows && x.id == y.id
    ensures x == y
  {
    var i :| 0 <= i < |t.rows| && t.rows[i] == x;
    var j :| 0 <= j < |t.rows| && t.rows[j] == y;
  }

  /** In a well-formed table with a unique constraint on `key`, no two positions
      hold the same key. */
  lemma UniqueByPositions<T, K>(t: Table<T>, key: T -> K)
    requires WellFormed(t) && UniqueBy(t, key)
    ensures forall i, j :: 0 <= i < j < |t.rows| ==> key(t.rows[i].val) != key(t.rows[j].val)
  {
    forall i, j | 0 <= i < j < |t.rows|
      ensures key(t.rows[i].val) != key(t.rows[j].val)
    {
      assert t.rows[i] in t.rows && t.rows[j] in t.rows;
      assert t.rows[i].id < t.rows[j].id;
    }
  }

  /** INSERT: the new row takes the sequence's next id. */
  function Append<T(==)>(t: Table<T>, v: T): (r: Table<T>)
    ensures Row(t.nextId, v) in r.rows && |r.rows| == |t.rows| + 1
    ensures Ids(r) == Ids(t) + {t.nextId} && r.nextId > t.nextId
  {
    Table(t.rows + [Row(t.nextId, v)], t.nextId + 1)
  }

  lemma AppendWellFormed<T>(t: Table<T>, v: T)
    requires WellFormed(t)
    ensures WellFormed(Append(t, v))
    ensures Ids(Append(t, v)) == Ids(t) + {t.nextId}
    ensures forall x :: x in Append(t, v).rows <==> x in t.rows || x == Row(t.nextId, v)
  {
    var r := Append(t, v);
    assert forall x :: x in r.rows <==> x in t.rows || x == Row(t.nextId, v);
    forall i, j | 0 <= i < j < |r.rows|
      ensures r.rows[i].id < r.rows[j].id
    {
      if j == |t.rows| {
        assert r.rows[i] in t.rows;
      }
    }
  }

  lemma AppendUnique<T, K>(t: Table<T>, key: T -> K, v: T)
    requires UniqueBy(t, key) && key(v) !in KeySet(t, key)
    ensures UniqueBy(Append(t, v), key)
  {
    var r := Append(t, v);
    assert forall x :: x in r.rows <==> x in t.rows || x == Row(t.nextId, v);
  }

  /** The elements of `s` that satisfy `keep`, in their original order. */
  function Filter<T(==,!new)>(s: seq<T>, keep: T -> bool): (r: seq<T>)
    ensures |r| <= |s|
    ensures forall x :: x in r <==> x in s && keep(x)
    decreases |s|
  {
    if |s| == 0 then []
    else
      var init := Filter(s[..|s| - 1], keep);
      assert s == s[..|s| - 1] + [s[|s| - 1]];
      if keep(s[|s| - 1]) then init + [s[|s| - 1]] else init
  }

  /** Filtering keeps rows in their order, so increasing ids stay increasing. */
  lemma {:induction false} FilterAscending<T(!new)>(s: seq<Row<T>>, keep: Row<T> -> bool)
    requires Ascending(s)
    ensures Ascending(Filter(s, keep))
    decreases |s|
  {
    if |s| > 0 {
      var init := s[..|s| - 1];
      var last := s[|s| - 1];
      FilterAscending(init, keep);
      var fi := Filter(init, keep);
      if keep(last) {
        var r := fi + [last];
        assert Filter(s, keep) == r;
        forall i, j | 0 <= i < j < |r|
          ensures r[i].id < r[j].id
        {
          if j == |fi| {
            assert r[i] in init;
            var k :| 0 <= k < |init| && init[k] == r[i];
            assert s[k].id < s[|s| - 1].id;
          }
        }
      }
    }
  }

  /** A filter that every element passes changes nothing. */
  lemma {:induction false} FilterKeepsAll<T(!new)>(s: seq<T>, keep: T -> bool)
    requires forall x :: x in s ==> keep(x)
    ensures Filter(s, keep) == s
    decreases |s|
  {
    if |s| > 0 {
      assert s == s[..|s| - 1] + [s[|s| - 1]];
      FilterKeepsAll(s[..|s| - 1], keep);
    }
  }

  /** DELETE ... WHERE NOT keep: the rows of `t` that `keep` retains. */
  function Keep<T(==,!new)>(t: Table<T>, keep: Row<T> -> bool): (r: Table<T>)
    ensures r.nextId == t.nextId
    ensures forall x :: x in r.rows <==> x in t.rows && keep(x)
  {
    Table(Filter(t.rows, keep), t.nextId)
  }

  /** A delete whose filter every row passes leaves the table as it was. */
  lemma KeepAllRows<T(!new)>(t: Table<T>, keep: Row<T> -> bool)
    requires forall x :: x in t.rows ==> keep(x)
    ensures Keep(t, keep) == t
  {
    FilterKeepsAll(t.rows, keep);
  }

  lemma KeepWellFormed<T(!new)>(t: Table<T>, keep: Row<T> -> bool)
    requires WellFormed(t)
    ensures WellFormed(Keep(t, keep))
  {
    FilterAscending(t.rows, keep);
  }

  /** The row filter of DELETE ... WHERE id IN gone. */
  function IdNotIn<T(==)>(gone: set<nat>): Row<T> -> bool {
    (x: Row<T>) => x.id !in gone
  }

  lemma IdsKeepIdNotIn<T(!new)>(t: Table<T>, gone: set<nat>)
    ensures Ids(Keep(t, IdNotIn(gone))) == Ids(t) - gone
  {
    var r := Keep(t, IdNotIn(gone));
    forall n | n in Ids(t) - gone
      ensures n in Ids(r)
    {
      var x :| x in t.rows && x.id == n;
      assert x in r.rows;
    }
  }

  /** UPDATE ... WHERE id = id: the row with that id now holds `v`. */
  function Replace<T(==)>(t: Table<T>, id: nat, v: T): (r: Table<T>)
    ensures |r.rows| == |t.rows| && r.nextId == t.nextId
    ensures forall i :: 0 <= i < |t.rows| ==> r.rows[i].id == t.rows[i].id
  {
    Table(seq(|t.rows|, i requires 0 <= i < |t.rows| =>
                if t.rows[i].id == id then Row(id, v) else t.rows[i]),
          t.nextId)
  }

  lemma ReplaceWellFormed<T>(t: Table<T>, id: nat, v: T)
    requires WellFormed(t)
    ensures WellFormed(Replace(t, id, v))
    ensures Ids(Replace(t, id, v)) == Ids(t)
  {
    var r := Replace(t, id, v);
    forall i, j | 0 <= i < j < |r.rows|
      ensures r.rows[i].id < r.rows[j].id
    {
      assert r.rows[i].id == t.rows[i].id && r.rows[j].id == t.rows[j].id;
    }
    forall x | x in r.rows
      ensures x.id < r.nextId && x.id in Ids(t)
    {
      var i :| 0 <= i < |r.rows| && r.rows[i] == x;
      assert t.rows[i] in t.rows;
    }
    forall n | n in Ids(t)
      ensures n in Ids(r)
    {
      var x :| x in t.rows && x.id == n;
      var i :| 0 <= i < |t.rows| && t.rows[i] == x;
      assert r.rows[i] in r.rows;
    }
  }

  /** After the update the table holds the untouched rows and the new row. */
  lemma ReplaceMembers<T>(t: Table<T>, id: nat, v: T)
    requires WellFormed(t) && id in Ids(t)
    ensures forall x :: x in Replace(t, id, v).rows <==>
                        (x in t.rows && x.id != id) || x == Row(id, v)
  {
    var r := Replace(t, id, v);
    var w :| w in t.rows && w.id == id;
    var k :| 0 <= k < |t.rows| && t.rows[k] == w;
    assert r.rows[k] == Row(id, v);
    forall x | x in t.rows && x.id != id
      ensures x in r.rows
    {
      var i :| 0 <= i < |t.rows| && t.rows[i] == x;
      assert r.rows[i] == x;
    }
  }

  /** Writing back the value a row already holds leaves the table as it was. */
  lemma ReplaceSame<T>(t: Table<T>, id: nat, v: T)
    requires WellFormed(t) && Row(id, v) in t.rows
    ensures Replace(t, id, v) == t
  {
    var r := Replace(t, id, v);
    forall i | 0 <= i < |t.rows|
      ensures r.rows[i] == t.rows[i]
    {
      if t.rows[i].id == id {
        assert t.rows[i] in t.rows;
        IdsAreKeys(t, t.rows[i], Row(id, v));
      }
    }
  }

  /** Applying the same update twice is the same as applying it once. */
  lemma ReplaceTwice<T>(t: Table<T>, id: nat, v: T)
    ensures Replace(Replace(t, id, v), id, v) == Replace(t, id, v)
  {
    var r := Replace(t, id, v);
    var rr := Replace(r, id, v);
    forall i | 0 <= i < |t.rows|
      ensures rr.rows[i] == r.rows[i]
    {
    }
  }

  lemma ReplaceUnique<T, K>(t: Table<T>, key: T -> K, id: nat, v: T)
    requires WellFormed(t) && id in Ids(t) && UniqueBy(t, key)
    requires forall x :: x in t.rows && x.id != id ==> key(x.val) != key(v)
    ensures UniqueBy(Replace(t, id, v), key)
  {
    ReplaceMembers(t, id, v);
  }

  /** A row-level rule that every row of `t` obeys (a foreign key, a CHECK on a
      column, a derived field). */
  predicate AllRows<T(==)>(t: Table<T>, p: Row<T> -> bool) {
    forall x :: x in t.rows ==> p(x)
  }

  lemma AllRowsAppend<T>(t: Table<T>, p: Row<T> -> bool, v: T)
    requires AllRows(t, p) && p(Row(t.nextId, v))
    ensures AllRows(Append(t, v), p)
  {
    assert forall x :: x in Append(t, v).rows ==> x in t.rows || x == Row(t.nextId, v);
  }

  lemma AllRowsReplace<T>(t: Table<T>, p: Row<T> -> bool, id: nat, v: T)
    requires AllRows(t, p) && p(Row(id, v))
    ensures AllRows(Replace(t, id, v), p)
  {
    var r := Replace(t, id, v);
    forall x | x in r.rows
      ensures p(x)
    {
      var i :| 0 <= i < |r.rows| && r.rows[i] == x;
      assert t.rows[i] in t.rows;
    }
  }

  lemma AllRowsKeep<T(!new)>(t: Table<T>, p: Row<T> -> bool, q: Row<T> -> bool, keep: Row<T> -> bool)
    requires AllRows(t, p)
    requires forall x :: x in t.rows && p(x) && keep(x) ==> q(x)
    ensures AllRows(Keep(t, keep), q)
  {
  }

  /** A weaker rule holds wherever a stronger one does. */
  lemma AllRowsWeaken<T>(t: Table<T>, p: Row<T> -> bool, q: Row<T> -> bool)
    requires AllRows(t, p)
    requires forall x :: x in t.rows && p(x) ==> q(x)
    ensures AllRows(t, q)
  {
  }
}
