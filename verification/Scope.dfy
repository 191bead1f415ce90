/** The keyed store behind every per-user store: one table set for each (runtime, subject) pair. */
module Scope {
  import opened Common
  import opened Sorting

  datatype Subject = Subject(runtime: string, key: string)

  /** The rows of a table, in the order their keys were first written. */
  type Rows<V> = seq<(string, V)>

  type Store<V> = map<Subject, map<string, Rows<V>>>

  function GetRow<V>(rows: Rows<V>, key: string): Option<V> {
    if rows == [] then None
    else if rows[0].0 == key then Some(rows[0].1)
    else GetRow(rows[1..], key)
  }

  predicate UniqueKeys<V>(rows: Rows<V>) {
    rows == [] || (GetRow(rows[1..], rows[0].0).None? && UniqueKeys(rows[1..]))
  }

  /** A key that is there keeps its place; a new one goes last. */
  function PutRow<V>(rows: Rows<V>, key: string, value: V): Rows<V> {
    if rows == [] then [(key, value)]
    else if rows[0].0 == key then [(key, value)] + rows[1..]
    else [rows[0]] + PutRow(rows[1..], key, value)
  }

  function Without<V>(rows: Rows<V>, key: string): Rows<V> {
    if rows == [] then []
    else if rows[0].0 == key then rows[1..]
    else [rows[0]] + Without(rows[1..], key)
  }

  function Keep<V>(rows: Rows<V>, expired: V -> bool): Rows<V> {
    if rows == [] then []
    else (if expired(rows[0].1) then [] else [rows[0]]) + Keep(rows[1..], expired)
  }

  function RowsOf<V>(store: Store<V>, subject: Subject, table: string): Rows<V> {
    if subject in store && table in store[subject] then store[subject][table] else []
  }

  /** Every table of every subject but one is what it was. */
  ghost predicate OnlyChanges<V>(before: Store<V>, after: Store<V>, subject: Subject, table: string) {
    forall s, t :: (s != subject || t != table) ==> RowsOf(after, s, t) == RowsOf(before, s, t)
  }

  lemma NothingChanges<V>(store: Store<V>, subject: Subject, table: string)
    ensures OnlyChanges(store, store, subject, table)
  {
  }

  lemma ChangesAddUp<V>(before: Store<V>, between: Store<V>, after: Store<V>, subject: Subject, table: string)
    requires OnlyChanges(before, between, subject, table) && OnlyChanges(between, after, subject, table)
    ensures OnlyChanges(before, after, subject, table)
  {
  }

  function KeysOf<V>(rows: Rows<V>): seq<string> {
    seq(|rows|, i requires 0 <= i < |rows| => rows[i].0)
  }

  lemma KeysOfFirst<V>(row: (string, V), rows: Rows<V>)
    ensures KeysOf([row] + rows) == [row.0] + KeysOf(rows)
  {
  }

  /** A key that is there keeps its place, a new one goes last. */
  lemma {:induction false} PutKeepsOrder<V>(rows: Rows<V>, key: string, value: V)
    ensures KeysOf(PutRow(rows, key, value)) == if GetRow(rows, key).Some? then KeysOf(rows) else KeysOf(rows) + [key]
  {
    if rows != [] {
      assert rows == [rows[0]] + rows[1..];
      KeysOfFirst(rows[0], rows[1..]);
      if rows[0].0 == key {
        KeysOfFirst((key, value), rows[1..]);
      } else {
        PutKeepsOrder(rows[1..], key, value);
        KeysOfFirst(rows[0], PutRow(rows[1..], key, value));
        hide PutRow;
      }
    }
  }

  /** Only the row with the key goes; the others stay in order. */
  lemma {:induction false} DeleteKeepsOrder<V>(rows: Rows<V>, key: string) returns (i: nat)
    ensures GetRow(rows, key).None? ==> Without(rows, key) == rows
    ensures GetRow(rows, key).Some? ==> i < |rows| && rows[i].0 == key && Without(rows, key) == rows[..i] + rows[i + 1..]
  {
    i := 0;
    if rows != [] && rows[0].0 != key {
      var j := DeleteKeepsOrder(rows[1..], key);
      BehindOther(rows, key);
      hide GetRow, Without;
      if GetRow(rows, key).Some? {
        i := j + 1;
        CutBehindFirst(rows, j);
      }
    }
  }

  lemma BehindOther<V>(rows: Rows<V>, key: string)
    requires rows != [] && rows[0].0 != key
    ensures GetRow(rows, key) == GetRow(rows[1..], key)
    ensures [rows[0]] + rows[1..] == rows && Without(rows, key) == [rows[0]] + Without(rows[1..], key)
  {
  }

  lemma CutBehindFirst<V>(rows: Rows<V>, j: nat)
    requires j + 1 < |rows|
    ensures rows[1..][j] == rows[j + 1]
    ensures rows[..j + 1] + rows[j + 1 + 1..] == [rows[0]] + (rows[1..][..j] + rows[1..][j + 1..])
  {
  }

  /** A sweep takes each row by itself, and leaves the others in order. */
  lemma {:induction false} SweepGoesRowByRow<V>(rows: Rows<V>, row: (string, V), expired: V -> bool)
    ensures Keep(rows + [row], expired) == Keep(rows, expired) + if expired(row.1) then [] else [row]
  {
    if rows == [] {
      assert rows + [row] == [row];
    } else {
      SweepGoesRowByRow(rows[1..], row, expired);
      assert (rows + [row])[1..] == rows[1..] + [row];
      hide Keep;
    }
  }

  class InMemoryScopeProvider<V(!new)> {
    var store: Store<V>

    constructor ()
      ensures store == map[]
    {
      store := map[];
    }

    method Put(subject: Subject, table: string, key: string, value: V)
      modifies this
      ensures RowsOf(store, subject, table) == PutRow(old(RowsOf(store, subject, table)), key, value)
      ensures OnlyChanges(old(store), store, subject, table)
    {
      var tables := if subject in store then store[subject] else map[];
      var rows := if table in tables then tables[table] else [];
      store := store[subject := tables[table := PutRow(rows, key, value)]];
    }

    method Get(subject: Subject, table: string, key: string) returns (value: Option<V>)
      ensures value == GetRow(RowsOf(store, subject, table), key)
    {
      value := GetRow(RowsOf(store, subject, table), key);
    }

    method Delete(subject: Subject, table: string, key: string)
      modifies this
      ensures RowsOf(store, subject, table) == Without(old(RowsOf(store, subject, table)), key)
      ensures OnlyChanges(old(store), store, subject, table)
    {
      if subject in store && table in store[subject] {
        var tables := store[subject];
        store := store[subject := tables[table := Without(tables[table], key)]];
      }
    }

    method ReadRows(subject: Subject, table: string) returns (rows: Rows<V>)
      ensures rows == RowsOf(store, subject, table)
    {
      rows := RowsOf(store, subject, table);
    }

    /** Every row of a table, whoever owns it: the owners' rows one after the other, each in its order. */
    method AllRows(table: string) returns (all: seq<(Subject, string, V)>, ghost owners: seq<Subject>)
      ensures forall s, k, v :: (s, k, v) in all <==> (k, v) in RowsOf(store, s, table)
      ensures (forall s :: s in owners <==> s in store) && NoRepeats(owners) && all == OwnedByEach(store, owners, table)
    {
      all, owners := [], [];
      var left := store.Keys;
      while left != {}
        invariant left <= store.Keys
        invariant forall s, k, v :: (s, k, v) in all <==> s !in left && (k, v) in RowsOf(store, s, table)
        invariant forall s :: s in owners <==> s in store && s !in left
        invariant NoRepeats(owners) && all == OwnedByEach(store, owners, table)
        decreases |left|
      {
        var s :| s in left;
        var rows := RowsOf(store, s, table);
        var mine := Owned(s, rows);
        assert (owners + [s])[..|owners|] == owners;
        all, owners := all + mine, owners + [s];
        left := left - {s};
      }
    }

    /** Deletes the expired rows of a table across every subject, and says how many there were. */
    method Sweep(table: string, expired: V -> bool) returns (removed: nat)
      modifies this
      ensures forall s :: RowsOf(store, s, table) == Keep(old(RowsOf(store, s, table)), expired)
      ensures forall s, t :: t != table ==> RowsOf(store, s, t) == old(RowsOf(store, s, t))
      ensures removed == old(TotalExpired(store, store.Keys, table, expired))
    {
      removed := 0;
      ghost var before := store;
      var left := store.Keys;
      while left != {}
        invariant left <= before.Keys && SweptBut(before, store, left, table, expired)
        invariant removed + TotalExpired(before, left, table, expired)
          == TotalExpired(before, before.Keys, table, expired)
        decreases |left|
      {
        var s :| s in left;
        TotalWithout(before, left, table, expired, s);
        SweptStep(before, store, left, table, expired, s);
        ghost var now := store;
        var tables := store[s];
        if table in tables {
          removed := removed + ExpiredCount(tables[table], expired);
          store := store[s := tables[table := Keep(tables[table], expired)]];
        }
        assert store == now[s := SweptTables(now[s], table, expired)];
        left := left - {s};
      }
      SweptEverywhere(before, store, table, expired);
    }
  }

  lemma SweptStep<V>(
    before: Store<V>, now: Store<V>, left: set<Subject>, table: string, expired: V -> bool, s: Subject)
    requires s in left && left <= before.Keys && SweptBut(before, now, left, table, expired)
    ensures SweptBut(before, now[s := SweptTables(now[s], table, expired)], left - {s}, table, expired)
  {
  }

  lemma SweptEverywhere<V>(before: Store<V>, after: Store<V>, table: string, expired: V -> bool)
    requires SweptBut(before, after, {}, table, expired)
    ensures forall s :: RowsOf(after, s, table) == Keep(RowsOf(before, s, table), expired)
    ensures forall s, t :: t != table ==> RowsOf(after, s, t) == RowsOf(before, s, t)
  {
  }

  function SweptTables<V>(tables: map<string, Rows<V>>, table: string, expired: V -> bool): map<string, Rows<V>> {
    if table in tables then tables[table := Keep(tables[table], expired)] else tables
  }

  /** Every subject's table is swept, but for those that are left. */
  ghost predicate SweptBut<V>(before: Store<V>, after: Store<V>, left: set<Subject>, table: string, expired: V -> bool) {
    && after.Keys == before.Keys
    && forall s :: s in before ==>
         after[s] == if s in left then before[s] else SweptTables(before[s], table, expired)
  }

  function ExpiredCount<V>(rows: Rows<V>, expired: V -> bool): (n: nat)
    ensures n == |rows| - |Keep(rows, expired)|
  {
    if rows == [] then 0 else (if expired(rows[0].1) then 1 else 0) + ExpiredCount(rows[1..], expired)
  }

  /** How many rows of the table these subjects have expired, in all. */
  ghost function TotalExpired<V>(store: Store<V>, subjects: set<Subject>, table: string, expired: V -> bool): nat {
    if subjects == {} then 0
    else
      var s :| s in subjects;
      ExpiredCount(RowsOf(store, s, table), expired) + TotalExpired(store, subjects - {s}, table, expired)
  }

  lemma {:induction false} TotalWithout<V>(
    store: Store<V>, subjects: set<Subject>, table: string, expired: V -> bool, s: Subject)
    requires s in subjects
    ensures TotalExpired(store, subjects, table, expired)
      == ExpiredCount(RowsOf(store, s, table), expired) + TotalExpired(store, subjects - {s}, table, expired)
    decreases |subjects|
  {
    var t :| t in subjects && TotalExpired(store, subjects, table, expired)
      == ExpiredCount(RowsOf(store, t, table), expired) + TotalExpired(store, subjects - {t}, table, expired);
    if t != s {
      TotalWithout(store, subjects - {t}, table, expired, s);
      TotalWithout(store, subjects - {s}, table, expired, t);
      assert subjects - {t} - {s} == subjects - {s} - {t};
    }
  }

  function Owned<V(!new)>(subject: Subject, rows: Rows<V>): (all: seq<(Subject, string, V)>)
    ensures forall s, k, v :: (s, k, v) in all <==> s == subject && (k, v) in rows
  {
    if rows == [] then [] else [(subject, rows[0].0, rows[0].1)] + Owned(subject, rows[1..])
  }

  /** The rows of each of these subjects, one subject after the other. */
  function OwnedByEach<V(!new)>(store: Store<V>, owners: seq<Subject>, table: string): seq<(Subject, string, V)> {
    if owners == [] then []
    else
      var last := owners[|owners| - 1];
      OwnedByEach(store, owners[..|owners| - 1], table) + Owned(last, RowsOf(store, last, table))
  }

  // The laws of a table

  lemma {:induction false} PutThenGet<V>(rows: Rows<V>, key: string, value: V, other: string)
    ensures GetRow(PutRow(rows, key, value), other) == if other == key then Some(value) else GetRow(rows, other)
  {
    if rows != [] && rows[0].0 != key {
      PutThenGet(rows[1..], key, value, other);
    }
  }

  lemma {:induction false} PutKeepsKeysUnique<V>(rows: Rows<V>, key: string, value: V)
    requires UniqueKeys(rows)
    ensures UniqueKeys(PutRow(rows, key, value))
  {
    if rows != [] && rows[0].0 != key {
      PutKeepsKeysUnique(rows[1..], key, value);
      PutThenGet(rows[1..], key, value, rows[0].0);
    }
  }

  lemma {:induction false} DeleteThenGet<V>(rows: Rows<V>, key: string, other: string)
    requires UniqueKeys(rows)
    ensures GetRow(Without(rows, key), other) == if other == key then None else GetRow(rows, other)
  {
    if rows != [] && rows[0].0 != key {
      DeleteThenGet(rows[1..], key, other);
    }
  }

  lemma {:induction false} DeleteKeepsKeysUnique<V>(rows: Rows<V>, key: string)
    requires UniqueKeys(rows)
    ensures UniqueKeys(Without(rows, key))
  {
    if rows != [] && rows[0].0 != key {
      DeleteKeepsKeysUnique(rows[1..], key);
      DeleteThenGet(rows[1..], key, rows[0].0);
    }
  }

  /** A row survives a sweep exactly when it has not expired. */
  lemma {:induction false} SweepThenGet<V>(rows: Rows<V>, expired: V -> bool, key: string)
    requires UniqueKeys(rows)
    ensures GetRow(Keep(rows, expired), key)
      == if GetRow(rows, key).Some? && !expired(GetRow(rows, key).value) then GetRow(rows, key) else None
  {
    if rows != [] {
      SweepThenGet(rows[1..], expired, key);
      assert expired(rows[0].1) ==> Keep(rows, expired) == Keep(rows[1..], expired);
    }
  }

  lemma {:induction false} SweepKeepsKeysUnique<V>(rows: Rows<V>, expired: V -> bool)
    requires UniqueKeys(rows)
    ensures UniqueKeys(Keep(rows, expired))
  {
    if rows != [] {
      SweepKeepsKeysUnique(rows[1..], expired);
      SweepThenGet(rows[1..], expired, rows[0].0);
      assert expired(rows[0].1) ==> Keep(rows, expired) == Keep(rows[1..], expired);
    }
  }
}
