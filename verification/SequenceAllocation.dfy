/**
 Concurrent flushes over the shared counters. An upsert takes the lock of its
 counter's row, present or not yet present, and holds it until the flush
 commits or rolls back; a committed counter is what the next upsert reads.
 */
module SequenceAllocation {
  import opened Common
  import opened AuditSequence

  datatype Phase = Open | Committed | RolledBack

  /** One flush: its distinct ids in ascending order, how many it has locked, and the last number reserved for each. */
  datatype Flush = Flush(batch: seq<Event>, ids: seq<Cid>, taken: nat, last: map<Cid, int>, phase: Phase)

  /** One stored audit event. */
  datatype Row = Row(event: Event, number: int)

  /** counters and rows are what is committed; owner maps a locked counter to the flush that holds it. */
  datatype Database = Database(counters: map<Cid, nat>, owner: map<Cid, nat>, flushes: seq<Flush>, rows: seq<Row>)

  datatype Action = Begin(batch: seq<Event>) | Reserve(f: nat) | Commit(f: nat) | RollBack(f: nat)

  function Start(counters: map<Cid, nat>): Database {
    Database(counters, map[], [], [])
  }

  // Numbers

  /** The numbers after low up to and including high. */
  function Range(low: int, high: int): seq<int>
    requires low <= high
  {
    seq(high - low, i => low + 1 + i)
  }

  /** The stored numbers of one id, in commit order. */
  function NumbersOf(rows: seq<Row>, c: Cid): seq<int> {
    if rows == [] then []
    else
      var last := rows[|rows| - 1];
      NumbersOf(rows[..|rows| - 1], c) + if last.event.cid == c then [last.number] else []
  }

  function FirstOf(batch: seq<Event>, last: map<Cid, int>): map<Cid, int> {
    map c | c in last :: last[c] - CountOf(batch, c) + 1
  }

  predicate Covers(last: map<Cid, int>, batch: seq<Event>) {
    forall i :: 0 <= i < |batch| ==> batch[i].cid in last
  }

  function Numbered(batch: seq<Event>, last: map<Cid, int>): (r: seq<Row>)
    requires Covers(last, batch)
    ensures |r| == |batch|
  {
    var first := FirstOf(batch, last);
    seq(|batch|, i requires 0 <= i < |batch| => Row(batch[i], NumberAt(batch, first, i)))
  }

  lemma RangeNext(low: int, high: int)
    requires low <= high
    ensures Range(low, high + 1) == Range(low, high) + [high + 1]
  {
  }

  lemma NumbersNext(rows: seq<Row>, c: Cid, i: nat)
    requires i < |rows|
    ensures NumbersOf(rows[..i + 1], c) ==
            NumbersOf(rows[..i], c) + if rows[i].event.cid == c then [rows[i].number] else []
  {
    assert rows[..i + 1][..i] == rows[..i];
  }

  lemma NumbersStep(rows: seq<Row>, c: Cid, i: nat, low: int, high: int, next: int)
    requires i < |rows| && low <= high && NumbersOf(rows[..i], c) == Range(low, high)
    requires next == if rows[i].event.cid == c then high + 1 else high
    requires rows[i].event.cid == c ==> rows[i].number == next
    ensures NumbersOf(rows[..i + 1], c) == Range(low, next)
  {
    NumbersNext(rows, c, i);
    RangeNext(low, high);
  }

  lemma NumberOfRow(batch: seq<Event>, last: map<Cid, int>, i: nat)
    requires Covers(last, batch) && i < |batch|
    ensures var row, c := Numbered(batch, last)[i], batch[i].cid;
      row.event == batch[i] && row.number == last[c] - CountOf(batch, c) + CountOf(batch[..i], c) + 1
  {
  }

  lemma NoneNumbered(batch: seq<Event>, last: map<Cid, int>, c: Cid)
    requires Covers(last, batch) && c in last
    ensures var low := last[c] - CountOf(batch, c);
      CountOf(batch[..0], c) == 0 && NumbersOf(Numbered(batch, last)[..0], c) == Range(low, low)
  {
  }

  lemma {:induction false} NumbersOfPrefix(batch: seq<Event>, last: map<Cid, int>, c: Cid, i: nat)
    requires Covers(last, batch) && i <= |batch| && c in last
    ensures
      var low := last[c] - CountOf(batch, c);
      NumbersOf(Numbered(batch, last)[..i], c) == Range(low, low + CountOf(batch[..i], c))
  {
    hide NumbersOf, Range, Numbered, FirstOf;
    if i == 0 {
      NoneNumbered(batch, last, c);
    } else {
      NumbersOfPrefix(batch, last, c, i - 1);
      CountNext(batch, i - 1);
      NumberOfRow(batch, last, i - 1);
      var low := last[c] - CountOf(batch, c);
      NumbersStep(Numbered(batch, last), c, i - 1, low, low + CountOf(batch[..i - 1], c), low + CountOf(batch[..i], c));
    }
  }

  /** A batch gives each of its ids a consecutive range, in batch order. */
  lemma BatchIsConsecutive(batch: seq<Event>, last: map<Cid, int>, c: Cid)
    requires Covers(last, batch) && c in last
    ensures NumbersOf(Numbered(batch, last), c) == Range(last[c] - CountOf(batch, c), last[c])
  {
    hide NumbersOf, Range, CountOf, FirstOf, NumberAt;
    NumbersOfPrefix(batch, last, c, |batch|);
    assert Numbered(batch, last)[..|batch|] == Numbered(batch, last) && batch[..|batch|] == batch;
  }

  lemma {:induction false} NoNumbersWithoutEvents(batch: seq<Event>, last: map<Cid, int>, c: Cid, i: nat)
    requires Covers(last, batch) && i <= |batch| && CountOf(batch[..i], c) == 0
    ensures NumbersOf(Numbered(batch, last)[..i], c) == []
  {
    if i > 0 {
      CountNext(batch, i - 1);
      NoNumbersWithoutEvents(batch, last, c, i - 1);
      var rows := Numbered(batch, last);
      assert rows[..i][..i - 1] == rows[..i - 1];
    }
  }

  lemma OtherIdsGetNoNumbers(batch: seq<Event>, last: map<Cid, int>, c: Cid)
    requires Covers(last, batch) && last.Keys == Cids(batch) && c !in last
    ensures NumbersOf(Numbered(batch, last), c) == []
  {
    CountPositive(batch, c);
    assert Numbered(batch, last)[..|batch|] == Numbered(batch, last) && batch[..|batch|] == batch;
    NoNumbersWithoutEvents(batch, last, c, |batch|);
  }

  lemma RangeAppend(low: int, mid: int, high: int)
    requires low <= mid <= high
    ensures Range(low, mid) + Range(mid, high) == Range(low, high)
  {
  }

  lemma {:induction false} NumbersOfAppend(a: seq<Row>, b: seq<Row>, c: Cid)
    ensures NumbersOf(a + b, c) == NumbersOf(a, c) + NumbersOf(b, c)
  {
    if b == [] {
      assert a + b == a;
    } else {
      NumbersOfAppend(a, b[..|b| - 1], c);
      assert (a + b)[..|a + b| - 1] == a + b[..|b| - 1];
    }
  }

  // Steps

  predicate Holds(s: Database, f: nat) {
    f < |s.flushes| && s.flushes[f].phase == Open
  }

  /** The counter a flush wants next. */
  predicate Wants(s: Database, f: nat) {
    Holds(s, f) && s.flushes[f].taken < |s.flushes[f].ids|
  }

  function Next(s: Database, f: nat): Cid
    requires Wants(s, f)
  {
    s.flushes[f].ids[s.flushes[f].taken]
  }

  predicate Enabled(s: Database, a: Action) {
    match a
    case Begin(_) => true
    case Reserve(f) => Wants(s, f) && Next(s, f) !in s.owner
    case Commit(f) => Holds(s, f) && s.flushes[f].taken == |s.flushes[f].ids| && Covers(s.flushes[f].last, s.flushes[f].batch)
      && forall c :: c in s.flushes[f].last ==> s.flushes[f].last[c] >= 0
    case RollBack(f) => Holds(s, f)
  }

  function Released(owner: map<Cid, nat>, f: nat): map<Cid, nat> {
    map c | c in owner && owner[c] != f :: owner[c]
  }

  function Apply(s: Database, a: Action): Database
    requires Enabled(s, a)
  {
    match a
    case Begin(batch) =>
      s.(flushes := s.flushes + [Flush(batch, Sorted(Cids(batch)), 0, map[], Open)])
    case Reserve(f) =>
      var x := s.flushes[f];
      var c := Next(s, f);
      s.(owner := s.owner[c := f],
         flushes := s.flushes[f := x.(taken := x.taken + 1, last := x.last[c := Stored(s.counters, c) + CountOf(x.batch, c)])])
    case Commit(f) =>
      var x := s.flushes[f];
      Database(
        s.counters + (map c | c in x.last :: x.last[c] as nat),
        Released(s.owner, f),
        s.flushes[f := x.(phase := Committed)],
        s.rows + Numbered(x.batch, x.last))
    case RollBack(f) =>
      s.(owner := Released(s.owner, f), flushes := s.flushes[f := s.flushes[f].(phase := RolledBack)])
  }

  // The invariant

  /** A flush has locked the first ids of its list and reserved a range on top of each committed counter. */
  ghost predicate FlushInv(s: Database, f: nat)
    requires f < |s.flushes|
  {
    var x := s.flushes[f];
    && Ascending(x.ids)
    && (forall c :: c in x.ids <==> c in Cids(x.batch))
    && x.taken <= |x.ids|
    && x.last.Keys == (set c | c in x.ids[..x.taken])
    && (x.phase == Open ==> forall c :: c in x.last ==>
          && c in s.owner && s.owner[c] == f
          && x.last[c] == Stored(s.counters, c) + CountOf(x.batch, c))
  }

  predicate LocksInv(s: Database) {
    forall c :: c in s.owner ==> Holds(s, s.owner[c]) && c in s.flushes[s.owner[c]].last
  }

  ghost predicate FlushesInv(s: Database) {
    (forall f :: 0 <= f < |s.flushes| ==> FlushInv(s, f)) && LocksInv(s)
  }

  /** The committed numbers of every id are exactly those after its seed, in order, up to its counter. */
  ghost predicate GapFree(seeds: map<Cid, nat>, s: Database) {
    forall c: Cid ::
      && Stored(seeds, c) <= Stored(s.counters, c)
      && NumbersOf(s.rows, c) == Range(Stored(seeds, c), Stored(s.counters, c))
  }

  ghost predicate Inv(seeds: map<Cid, nat>, s: Database) {
    FlushesInv(s) && GapFree(seeds, s)
  }

  lemma CommitEnabled(s: Database, f: nat)
    requires Holds(s, f) && FlushInv(s, f) && s.flushes[f].taken == |s.flushes[f].ids|
    ensures Enabled(s, Commit(f))
    ensures s.flushes[f].last.Keys == Cids(s.flushes[f].batch)
  {
    var x := s.flushes[f];
    assert x.ids[..|x.ids|] == x.ids;
    forall i | 0 <= i < |x.batch|
      ensures x.batch[i].cid in x.last
    {
      assert x.batch[i].cid in Cids(x.batch);
    }
  }

  /** A flush that was not touched keeps its invariant when its locks and the counters they guard are kept. */
  lemma UntouchedFlush(s: Database, s': Database, g: nat)
    requires g < |s.flushes| && g < |s'.flushes| && s'.flushes[g] == s.flushes[g] && FlushInv(s, g)
    requires forall c :: c in s.owner && s.owner[c] == g ==>
      c in s'.owner && s'.owner[c] == g && Stored(s'.counters, c) == Stored(s.counters, c)
    ensures FlushInv(s', g)
  {
  }

  lemma ReserveKeepsOwn(s: Database, f: nat)
    requires f < |s.flushes| && FlushInv(s, f) && Enabled(s, Reserve(f))
    ensures FlushInv(Apply(s, Reserve(f)), f)
  {
    var x, c := s.flushes[f], Next(s, f);
    assert x.ids[..x.taken + 1] == x.ids[..x.taken] + [c];
  }

  lemma ReserveKeepsFlushes(s: Database, f: nat)
    requires FlushesInv(s) && Enabled(s, Reserve(f))
    ensures FlushesInv(Apply(s, Reserve(f)))
  {
    ReserveKeepsLocks(s, f);
    hide FlushInv, LocksInv;
    var s' := Apply(s, Reserve(f));
    forall g | 0 <= g < |s'.flushes|
      ensures FlushInv(s', g)
    {
      assert FlushInv(s, g);
      if g == f {
        ReserveKeepsOwn(s, f);
      } else {
        ReserveKeepsOther(s, f, g);
      }
    }
  }

  lemma ReserveKeepsOther(s: Database, f: nat, g: nat)
    requires g < |s.flushes| && g != f && FlushInv(s, g) && Enabled(s, Reserve(f))
    ensures FlushInv(Apply(s, Reserve(f)), g)
  {
    UntouchedFlush(s, Apply(s, Reserve(f)), g);
  }

  lemma ReserveKeepsLocks(s: Database, f: nat)
    requires FlushesInv(s) && Enabled(s, Reserve(f))
    ensures LocksInv(Apply(s, Reserve(f)))
  {
  }

  lemma RollBackKeepsFlushes(s: Database, f: nat)
    requires FlushesInv(s) && Enabled(s, RollBack(f))
    ensures FlushesInv(Apply(s, RollBack(f)))
  {
    var s' := Apply(s, RollBack(f));
    assert FlushInv(s, f);
    forall g | 0 <= g < |s'.flushes|
      ensures FlushInv(s', g)
    {
      if g != f {
        UntouchedFlush(s, s', g);
      }
    }
  }

  /** What a commit does to the numbers of one id. */
  lemma CommitNumbers(rows: seq<Row>, batch: seq<Event>, last: map<Cid, int>, c: Cid, low: int, high: int)
    requires Covers(last, batch) && last.Keys == Cids(batch)
    requires low <= high && NumbersOf(rows, c) == Range(low, high)
    requires c in last ==> last[c] == high + CountOf(batch, c)
    ensures NumbersOf(rows + Numbered(batch, last), c) == Range(low, if c in last then last[c] else high)
  {
    NumbersOfAppend(rows, Numbered(batch, last), c);
    if c in last {
      BatchIsConsecutive(batch, last, c);
      RangeAppend(low, high, last[c]);
    } else {
      OtherIdsGetNoNumbers(batch, last, c);
    }
  }

  /** The counters a commit writes are guarded by its own locks. */
  lemma CommitKeepsFlushes(s: Database, f: nat)
    requires FlushesInv(s) && Enabled(s, Commit(f))
    ensures FlushesInv(Apply(s, Commit(f)))
  {
    var s' := Apply(s, Commit(f));
    assert FlushInv(s, f);
    assert FlushInv(s', f);
    forall g | 0 <= g < |s'.flushes|
      ensures FlushInv(s', g)
    {
      if g != f {
        CommitLeavesOthers(s, f, g);
        UntouchedFlush(s, s', g);
      }
    }
  }

  lemma CommitLeavesOthers(s: Database, f: nat, g: nat)
    requires Enabled(s, Commit(f)) && FlushInv(s, f) && g != f
    ensures var s' := Apply(s, Commit(f));
      forall c :: c in s.owner && s.owner[c] == g ==>
        c in s'.owner && s'.owner[c] == g && Stored(s'.counters, c) == Stored(s.counters, c)
  {
  }

  lemma CommitKeepsGapFree(seeds: map<Cid, nat>, s: Database, f: nat, c: Cid)
    requires Enabled(s, Commit(f)) && FlushInv(s, f)
    requires Stored(seeds, c) <= Stored(s.counters, c)
    requires NumbersOf(s.rows, c) == Range(Stored(seeds, c), Stored(s.counters, c))
    ensures
      var s' := Apply(s, Commit(f));
      && Stored(seeds, c) <= Stored(s'.counters, c)
      && NumbersOf(s'.rows, c) == Range(Stored(seeds, c), Stored(s'.counters, c))
  {
    var x := s.flushes[f];
    CommitEnabled(s, f);
    CommitNumbers(s.rows, x.batch, x.last, c, Stored(seeds, c), Stored(s.counters, c));
  }

  lemma CommitPreserves(seeds: map<Cid, nat>, s: Database, f: nat)
    requires Inv(seeds, s) && Enabled(s, Commit(f))
    ensures Inv(seeds, Apply(s, Commit(f)))
  {
    var s' := Apply(s, Commit(f));
    assert FlushInv(s, f);
    CommitKeepsFlushes(s, f);
    forall c: Cid
      ensures Stored(seeds, c) <= Stored(s'.counters, c)
      ensures NumbersOf(s'.rows, c) == Range(Stored(seeds, c), Stored(s'.counters, c))
    {
      CommitKeepsGapFree(seeds, s, f, c);
    }
  }

  lemma BeginKeepsFlushes(s: Database, batch: seq<Event>)
    requires FlushesInv(s)
    ensures FlushesInv(Apply(s, Begin(batch)))
  {
    var s' := Apply(s, Begin(batch));
    forall g | 0 <= g < |s'.flushes|
      ensures FlushInv(s', g)
    {
      if g < |s.flushes| {
        UntouchedFlush(s, s', g);
      }
    }
  }

  lemma InvPreserved(seeds: map<Cid, nat>, s: Database, a: Action)
    requires Inv(seeds, s) && Enabled(s, a)
    ensures Inv(seeds, Apply(s, a))
  {
    match a
    case Begin(batch) => BeginKeepsFlushes(s, batch);
    case Reserve(f) => ReserveKeepsFlushes(s, f);
    case Commit(f) => CommitPreserves(seeds, s, f);
    case RollBack(f) => RollBackKeepsFlushes(s, f);
  }

  // Runs

  predicate Legal(s: Database, actions: seq<Action>)
    decreases actions
  {
    actions == [] || (Enabled(s, actions[0]) && Legal(Apply(s, actions[0]), actions[1..]))
  }

  function Run(s: Database, actions: seq<Action>): Database
    requires Legal(s, actions)
    decreases actions
  {
    if actions == [] then s else Run(Apply(s, actions[0]), actions[1..])
  }

  lemma {:induction false} InvOverRuns(seeds: map<Cid, nat>, s: Database, actions: seq<Action>)
    requires Inv(seeds, s) && Legal(s, actions)
    ensures Inv(seeds, Run(s, actions))
    decreases actions
  {
    if actions != [] {
      InvPreserved(seeds, s, actions[0]);
      InvOverRuns(seeds, Apply(s, actions[0]), actions[1..]);
    }
  }

  lemma StartInv(seeds: map<Cid, nat>)
    ensures Inv(seeds, Start(seeds))
  {
    forall c: Cid
      ensures NumbersOf(Start(seeds).rows, c) == Range(Stored(seeds, c), Stored(seeds, c))
    {
    }
  }

  /** However flushes interleave, commit or roll back, the committed numbers of an id are seed + 1 .. counter. */
  lemma NumbersAreGapFree(seeds: map<Cid, nat>, actions: seq<Action>)
    requires Legal(Start(seeds), actions)
    ensures GapFree(seeds, Run(Start(seeds), actions))
  {
    StartInv(seeds);
    InvOverRuns(seeds, Start(seeds), actions);
  }

  // Seeding from history

  function MaxNumber(history: seq<Row>, c: Cid): nat {
    if history == [] then 0
    else
      var last := history[|history| - 1];
      var rest := MaxNumber(history[..|history| - 1], c);
      if last.event.cid == c && last.number > rest then last.number else rest
  }

  /** The migration: every id of the stored history gets a counter at its greatest number; a counter is only ever raised. */
  function Seed(table: map<Cid, nat>, history: seq<Row>): map<Cid, nat>
  {
    map c | c in table.Keys + (set r | r in history :: r.event.cid) ::
      if c in table && table[c] >= MaxNumber(history, c) then table[c] else MaxNumber(history, c)
  }

  lemma {:induction false} MaxNumberBounds(history: seq<Row>, c: Cid)
    ensures forall r :: r in history && r.event.cid == c ==> r.number <= MaxNumber(history, c)
    ensures MaxNumber(history, c) > 0 ==> exists r :: r in history && r.event.cid == c && r.number == MaxNumber(history, c)
  {
    if history != [] {
      MaxNumberBounds(history[..|history| - 1], c);
      assert history == history[..|history| - 1] + [history[|history| - 1]];
    }
  }

  predicate AtOrAbove(x: nat, table: map<Cid, nat>, history: seq<Row>, c: Cid) {
    x >= Stored(table, c) && forall r :: r in history && r.event.cid == c ==> r.number <= x
  }

  /** A seeded counter is the least one that is no lower than before and no lower than any number of the history. */
  lemma SeedIsLeast(table: map<Cid, nat>, history: seq<Row>, c: Cid, x: nat)
    ensures AtOrAbove(Stored(Seed(table, history), c), table, history, c)
    ensures AtOrAbove(x, table, history, c) ==> Stored(Seed(table, history), c) <= x
    ensures c in Seed(table, history) <==> c in table || exists r :: r in history && r.event.cid == c
  {
    MaxNumberBounds(history, c);
  }

  lemma {:induction false} NumberIsListed(rows: seq<Row>, i: nat)
    requires i < |rows|
    ensures rows[i].number in NumbersOf(rows, rows[i].event.cid)
  {
    if i < |rows| - 1 {
      NumberIsListed(rows[..|rows| - 1], i);
    }
  }

  lemma {:induction false} NumbersAreDistinct(rows: seq<Row>, i: nat, j: nat)
    requires i < j < |rows| && rows[i].event.cid == rows[j].event.cid
    requires forall a, b :: 0 <= a < b < |NumbersOf(rows, rows[i].event.cid)| ==>
      NumbersOf(rows, rows[i].event.cid)[a] < NumbersOf(rows, rows[i].event.cid)[b]
    ensures rows[i].number < rows[j].number
    decreases |rows|
  {
    var c := rows[i].event.cid;
    var front := rows[..|rows| - 1];
    var numbers, shorter := NumbersOf(rows, c), NumbersOf(front, c);
    assert forall a :: 0 <= a < |shorter| ==> numbers[a] == shorter[a];
    if j == |rows| - 1 {
      NumberIsListed(front, i);
      assert numbers[|shorter|] == rows[j].number;
    } else {
      NumbersAreDistinct(front, i, j);
    }
  }

  /**
   After a seeded start, in every run: two stored events of one id never share
   a number, a later one has the greater number, and no new event repeats a
   number of the stored history.
   */
  lemma SequenceNumbersAreUnique(table: map<Cid, nat>, history: seq<Row>, actions: seq<Action>)
    requires Legal(Start(Seed(table, history)), actions)
    ensures
      var rows := Run(Start(Seed(table, history)), actions).rows;
      && (forall i, j :: 0 <= i < j < |rows| && rows[i].event.cid == rows[j].event.cid ==> rows[i].number < rows[j].number)
      && (forall i, r :: 0 <= i < |rows| && r in history && r.event.cid == rows[i].event.cid ==> r.number < rows[i].number)
  {
    var seeds := Seed(table, history);
    var rows := Run(Start(seeds), actions).rows;
    NumbersAreGapFree(seeds, actions);
    forall i, j | 0 <= i < j < |rows| && rows[i].event.cid == rows[j].event.cid
      ensures rows[i].number < rows[j].number
    {
      NumbersAreDistinct(rows, i, j);
    }
    forall i, r | 0 <= i < |rows| && r in history && r.event.cid == rows[i].event.cid
      ensures r.number < rows[i].number
    {
      NumberIsListed(rows, i);
      SeedIsLeast(table, history, r.event.cid, 0);
    }
  }

  // Deadlock freedom

  /** Flush f is blocked by flush g. */
  predicate WaitsFor(s: Database, f: nat, g: nat) {
    Wants(s, f) && Next(s, f) in s.owner && s.owner[Next(s, f)] == g
  }

  /** A flush that holds what another one wants only ever wants something greater. */
  lemma WaitingRises(s: Database, f: nat, g: nat)
    requires FlushesInv(s)
    requires WaitsFor(s, f, g) && Wants(s, g)
    ensures Next(s, f) < Next(s, g)
  {
    assert FlushInv(s, g);
    var x := s.flushes[g];
    assert Next(s, f) in x.ids[..x.taken];
  }

  predicate WaitChain(s: Database, path: seq<nat>) {
    forall i :: 0 <= i < |path| - 1 ==> WaitsFor(s, path[i], path[i + 1])
  }

  lemma {:induction false} ChainRises(s: Database, path: seq<nat>)
    requires FlushesInv(s)
    requires |path| >= 2 && WaitChain(s, path) && Wants(s, path[|path| - 1])
    ensures Wants(s, path[0]) && Next(s, path[0]) < Next(s, path[|path| - 1])
  {
    assert WaitsFor(s, path[0], path[1]);
    if |path| == 2 {
      WaitingRises(s, path[0], path[1]);
    } else {
      ChainRises(s, path[1..]);
      WaitingRises(s, path[0], path[1]);
    }
  }

  lemma {:induction false} SmallerSet(a: set<Cid>, b: set<Cid>, x: Cid)
    requires a <= b && x in b && x !in a
    ensures |a| < |b|
  {
    SubsetSize(a, b - {x});
  }

  function LockedAbove(s: Database, c: Cid): set<Cid> {
    set x | x in s.owner && x > c
  }

  /** Following the blocked flushes always ends at one that can go on without rolling back. */
  lemma {:induction false} SomeoneProceeds(s: Database, f: nat) returns (g: nat)
    requires FlushesInv(s) && Holds(s, f)
    ensures Enabled(s, Reserve(g)) || Enabled(s, Commit(g))
    decreases if Wants(s, f) then |LockedAbove(s, Next(s, f))| else 0
  {
    assert FlushInv(s, f);
    if !Wants(s, f) {
      CommitEnabled(s, f);
      return f;
    }
    var c := Next(s, f);
    if c !in s.owner {
      return f;
    }
    var h := s.owner[c];
    if !Wants(s, h) {
      assert FlushInv(s, h);
      CommitEnabled(s, h);
      return h;
    }
    WaitingRises(s, f, h);
    var d := Next(s, h);
    if d !in s.owner {
      return h;
    }
    SmallerSet(LockedAbove(s, d), LockedAbove(s, c), d);
    g := SomeoneProceeds(s, h);
  }

  /** In every reachable state no flushes wait for each other in a circle, and an open flush means some flush can go on. */
  lemma NoDeadlock(seeds: map<Cid, nat>, actions: seq<Action>)
    requires Legal(Start(seeds), actions)
    ensures
      var s := Run(Start(seeds), actions);
      && (forall path: seq<nat> :: |path| >= 2 && WaitChain(s, path) ==> path[0] != path[|path| - 1])
      && ((exists f :: Holds(s, f)) ==> exists g :: Enabled(s, Reserve(g)) || Enabled(s, Commit(g)))
  {
    var s := Run(Start(seeds), actions);
    StartInv(seeds);
    InvOverRuns(seeds, Start(seeds), actions);
    forall path: seq<nat> | |path| >= 2 && WaitChain(s, path)
      ensures path[0] != path[|path| - 1]
    {
      assert WaitsFor(s, path[0], path[1]);
      if path[0] == path[|path| - 1] {
        ChainRises(s, path);
        assert false;
      }
    }
    if f :| Holds(s, f) {
      var g := SomeoneProceeds(s, f);
    }
  }
}
