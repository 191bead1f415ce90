/**
 Sequence numbers of audit events, handed out by one database counter per
 correlation id to any number of processes that flush at the same time.

 A correlation id is a number that stands for its place in the order of
 strings: the code only compares ids for equality and sorts them.
 */
module AuditSequence {

  type Cid = nat

  datatype Event = Event(cid: Cid, payload: string)

  // Counting and numbering one batch

  function CountOf(batch: seq<Event>, c: Cid): nat {
    if batch == [] then 0
    else CountOf(batch[..|batch| - 1], c) + if batch[|batch| - 1].cid == c then 1 else 0
  }

  function Cids(batch: seq<Event>): set<Cid> {
    set e | e in batch :: e.cid
  }

  lemma {:induction false} CountPositive(batch: seq<Event>, c: Cid)
    ensures CountOf(batch, c) > 0 <==> c in Cids(batch)
  {
    if batch != [] {
      var front := batch[..|batch| - 1];
      CountPositive(front, c);
      assert batch == front + [batch[|batch| - 1]];
    }
  }

  predicate Ascending(ids: seq<Cid>) {
    forall i, j :: 0 <= i < j < |ids| ==> ids[i] < ids[j]
  }

  predicate IsGreatest(m: Cid, ids: set<Cid>) {
    m in ids && forall c :: c in ids ==> c <= m
  }

  /** The distinct ids in ascending order. */
  function Sorted(ids: set<Cid>): (r: seq<Cid>)
    ensures forall c :: c in r <==> c in ids
    ensures Ascending(r)
  {
    if ids == {} then []
    else
      GreatestExists(ids);
      var m :| IsGreatest(m, ids);
      Sorted(ids - {m}) + [m]
  }

  lemma {:induction false} GreatestExists(ids: set<Cid>)
    requires ids != {}
    ensures exists m :: IsGreatest(m, ids)
  {
    var x :| x in ids;
    if ids == {x} {
      assert IsGreatest(x, ids);
    } else {
      GreatestExists(ids - {x});
      var m :| IsGreatest(m, ids - {x});
      var top := if m < x then x else m;
      forall c | c in ids ensures c <= top {
        assert c != x ==> c in ids - {x};
      }
      assert IsGreatest(top, ids);
    }
  }

  /** The audit_sequence table as one flush sees it: the last number handed out for each id. */
  class SequenceTable {
    var nextSeq: map<Cid, nat>
    /** The rows the flush has locked so far, in order; an upsert locks its row. */
    var locks: seq<Cid>

    constructor (nextSeq: map<Cid, nat>)
      ensures this.nextSeq == nextSeq && locks == []
    {
      this.nextSeq, locks := nextSeq, [];
    }

    /** The upsert: a missing row starts at zero; returns the last number of the range reserved. */
    method Upsert(c: Cid, count: nat) returns (last: nat)
      modifies this
      ensures nextSeq == old(nextSeq)[c := last] && locks == old(locks) + [c]
      ensures last == Stored(old(nextSeq), c) + count
    {
      last := if c in nextSeq then nextSeq[c] + count else count;
      nextSeq := nextSeq[c := last];
      locks := locks + [c];
    }
  }

  function Stored(table: map<Cid, nat>, c: Cid): nat {
    if c in table then table[c] else 0
  }

  method Counts(batch: seq<Event>) returns (counts: map<Cid, nat>)
    ensures counts.Keys == Cids(batch)
    ensures forall c :: c in counts ==> counts[c] == CountOf(batch, c)
  {
    counts := map[];
    for i := 0 to |batch|
      invariant counts.Keys == Cids(batch[..i])
      invariant forall c :: c in counts ==> counts[c] == CountOf(batch[..i], c)
    {
      var c := batch[i].cid;
      CountPositive(batch[..i], c);
      assert batch[..i + 1] == batch[..i] + [batch[i]];
      assert batch[..i + 1][..i] == batch[..i];
      counts := counts[c := (if c in counts then counts[c] else 0) + 1];
    }
    assert batch[..|batch|] == batch;
  }

  /** The ranges of the ids that are done: each counter is raised by the id's count, and its range starts just above where it was. */
  predicate Reserved(
    before: map<Cid, nat>, after: map<Cid, nat>, first: map<Cid, int>, counts: map<Cid, nat>, done: seq<Cid>)
  {
    && first.Keys == (set c | c in done)
    && (forall c :: c in done ==>
          c in counts && first[c] == Stored(before, c) + 1 && Stored(after, c) == Stored(before, c) + counts[c])
    && after.Keys == before.Keys + (set c | c in done)
    && (forall c :: c in before && c !in done ==> after[c] == before[c])
  }

  lemma NoneReserved(table: map<Cid, nat>, counts: map<Cid, nat>)
    ensures Reserved(table, table, map[], counts, [])
  {
  }

  lemma ReserveOne(
    before: map<Cid, nat>, after: map<Cid, nat>, first: map<Cid, int>, counts: map<Cid, nat>, done: seq<Cid>, c: Cid)
    requires Reserved(before, after, first, counts, done) && c in counts && c !in done
    ensures var last := Stored(after, c) + counts[c];
      Reserved(before, after[c := last], first[c := last - counts[c] + 1], counts, done + [c])
  {
  }

  lemma NextInOrder(ids: seq<Cid>, k: nat)
    requires Ascending(ids) && k < |ids|
    ensures ids[..k + 1] == ids[..k] + [ids[k]] && ids[k] !in ids[..k]
  {
  }

  /** One upsert for each of the ids, in this order; returns the first number of each range. */
  method ReserveInOrder(table: SequenceTable, counts: map<Cid, nat>, ids: seq<Cid>) returns (first: map<Cid, int>)
    requires Ascending(ids) && forall c :: c in ids ==> c in counts
    modifies table
    ensures Reserved(old(table.nextSeq), table.nextSeq, first, counts, ids)
    ensures table.locks == old(table.locks) + ids
  {
    hide *;
    ghost var before, locked := table.nextSeq, table.locks;
    first := map[];
    NoneReserved(before, counts);
    for k := 0 to |ids|
      invariant Reserved(before, table.nextSeq, first, counts, ids[..k])
      invariant table.locks == locked + ids[..k]
    {
      NextInOrder(ids, k);
      assert ids[k] in ids;
      ReserveOne(before, table.nextSeq, first, counts, ids[..k], ids[k]);
      var last := table.Upsert(ids[k], counts[ids[k]]);
      first := first[ids[k] := last - counts[ids[k]] + 1];
    }
    assert ids[..|ids|] == ids;
  }

  /** One upsert for each distinct id, in ascending order; returns the first number of each range. */
  method ReserveRanges(table: SequenceTable, counts: map<Cid, nat>) returns (first: map<Cid, int>)
    modifies table
    ensures first.Keys == counts.Keys
    ensures forall c :: c in counts ==>
      && first[c] == Stored(old(table.nextSeq), c) + 1
      && Stored(table.nextSeq, c) == Stored(old(table.nextSeq), c) + counts[c]
    ensures forall c :: c !in counts ==> Stored(table.nextSeq, c) == Stored(old(table.nextSeq), c)
    ensures table.locks == old(table.locks) + Sorted(counts.Keys)
  {
    first := ReserveInOrder(table, counts, Sorted(counts.Keys));
  }

  lemma CountNext(batch: seq<Event>, i: nat)
    requires i < |batch|
    ensures forall c ::
      CountOf(batch[..i + 1], c) == CountOf(batch[..i], c) + if batch[i].cid == c then 1 else 0
  {
    assert batch[..i + 1][..i] == batch[..i];
  }

  /** The number of the event at position i when its id's range starts at first. */
  function NumberAt(batch: seq<Event>, first: map<Cid, int>, i: nat): int
    requires i < |batch| && batch[i].cid in first
  {
    first[batch[i].cid] + CountOf(batch[..i], batch[i].cid)
  }

  /** Hands the ranges out in batch order. */
  method Assign(batch: seq<Event>, first: map<Cid, int>) returns (sequences: seq<int>)
    requires forall i :: 0 <= i < |batch| ==> batch[i].cid in first
    ensures |sequences| == |batch|
    ensures forall i :: 0 <= i < |batch| ==> sequences[i] == NumberAt(batch, first, i)
  {
    sequences := [];
    var nextInRange := first;
    for i := 0 to |batch|
      invariant |sequences| == i
      invariant nextInRange.Keys == first.Keys
      invariant forall c :: c in first ==> nextInRange[c] == first[c] + CountOf(batch[..i], c)
      invariant forall j :: 0 <= j < i ==> sequences[j] == NumberAt(batch, first, j)
    {
      var c := batch[i].cid;
      CountNext(batch, i);
      assert nextInRange[c] == NumberAt(batch, first, i);
      sequences := sequences + [nextInRange[c]];
      nextInRange := nextInRange[c := nextInRange[c] + 1];
    }
  }

  /** Reserves every number the batch needs and returns them in batch order. */
  method ReserveSequences(table: SequenceTable, batch: seq<Event>) returns (sequences: seq<int>)
    modifies table
    ensures forall c :: Stored(table.nextSeq, c) == Stored(old(table.nextSeq), c) + CountOf(batch, c)
    ensures table.locks == old(table.locks) + Sorted(Cids(batch))
    ensures |sequences| == |batch|
    ensures forall i :: 0 <= i < |batch| ==>
      sequences[i] == Stored(old(table.nextSeq), batch[i].cid) + 1 + CountOf(batch[..i], batch[i].cid)
  {
    var counts := Counts(batch);
    var first := ReserveRanges(table, counts);
    forall c: Cid
      ensures Stored(table.nextSeq, c) == Stored(old(table.nextSeq), c) + CountOf(batch, c)
    {
      CountPositive(batch, c);
    }
    assert forall i :: 0 <= i < |batch| ==> batch[i].cid in Cids(batch);
    sequences := Assign(batch, first);
  }
}
