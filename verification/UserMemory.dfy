/**
 Bounded memory about one end user: facts with a use count, a lifetime and a
 limit on how many there are. Writers of one subject hold its lock, so that
 each operation is one step.
 */
module UserMemory {
  import opened Common
  import opened Scope
  import opened Lines
  import opened Sorting

  const USER_FACTS_TABLE := "subject_facts"
  const USER_FACTS_SOURCE := "user_facts"

  datatype UserFact = UserFact(
    id: string, content: string, created: int, lastUsed: int, uses: int, expires: Option<int>)

  datatype Limits = Limits(maxFacts: int, maxFactBytes: int, maxInjectedChars: int, ttl: Option<int>)

  /** What the constructor accepts. */
  predicate ValidLimits(l: Limits) {
    l.maxFacts >= 1 && l.maxFactBytes >= 1 && l.maxInjectedChars >= 1 && (l.ttl.Some? ==> l.ttl.value >= 1)
  }

  predicate Expired(f: UserFact, now: int) {
    f.expires.Some? && f.expires.value <= now
  }

  // The rows of one subject

  /** Every row is keyed by its fact's id, once, and holds one line of text. */
  predicate WellKept(rows: Rows<UserFact>) {
    rows == [] ||
    (rows[0].0 == rows[0].1.id && OneLine(rows[0].1.content) && GetRow(rows[1..], rows[0].0).None? && WellKept(rows[1..]))
  }

  function Facts(rows: Rows<UserFact>): seq<UserFact> {
    if rows == [] then [] else [rows[0].1] + Facts(rows[1..])
  }

  function Alive(facts: seq<UserFact>, now: int): seq<UserFact> {
    if facts == [] then []
    else (if Expired(facts[0], now) then [] else [facts[0]]) + Alive(facts[1..], now)
  }

  function ExpiredIds(facts: seq<UserFact>, now: int): seq<string> {
    if facts == [] then []
    else (if Expired(facts[0], now) then [facts[0].id] else []) + ExpiredIds(facts[1..], now)
  }

  function Others(facts: seq<UserFact>, id: string): seq<UserFact> {
    if facts == [] then []
    else (if facts[0].id == id then [] else [facts[0]]) + Others(facts[1..], id)
  }

  function IdsOf(facts: seq<UserFact>): seq<string> {
    seq(|facts|, i requires 0 <= i < |facts| => facts[i].id)
  }

  function WithoutAll(rows: Rows<UserFact>, ids: seq<string>): Rows<UserFact> {
    if ids == [] then rows else Without(WithoutAll(rows, ids[..|ids| - 1]), ids[|ids| - 1])
  }

  /** The row of this id, unless it has expired. */
  function Live(rows: Rows<UserFact>, id: string, now: int): Option<UserFact> {
    var row := GetRow(rows, id);
    if row.Some? && !Expired(row.value, now) then row else None
  }

  lemma {:induction false} KeptIsUnique(rows: Rows<UserFact>)
    requires WellKept(rows)
    ensures UniqueKeys(rows)
  {
    if rows != [] {
      KeptIsUnique(rows[1..]);
    }
  }

  lemma {:induction false} PutIsKept(rows: Rows<UserFact>, f: UserFact)
    requires WellKept(rows) && OneLine(f.content)
    ensures WellKept(PutRow(rows, f.id, f))
    ensures |PutRow(rows, f.id, f)| == |rows| + if GetRow(rows, f.id).Some? then 0 else 1
  {
    if rows != [] && rows[0].0 != f.id {
      PutIsKept(rows[1..], f);
      PutThenGet(rows[1..], f.id, f, rows[0].0);
    }
  }

  lemma {:induction false} DeleteIsKept(rows: Rows<UserFact>, id: string)
    requires WellKept(rows)
    ensures WellKept(Without(rows, id))
    ensures |Without(rows, id)| == |rows| - if GetRow(rows, id).Some? then 1 else 0
  {
    if rows != [] && rows[0].0 != id {
      DeleteIsKept(rows[1..], id);
      KeptIsUnique(rows[1..]);
      DeleteThenGet(rows[1..], id, rows[0].0);
    }
  }

  lemma {:induction false} WithoutAllThenGet(rows: Rows<UserFact>, ids: seq<string>, id: string)
    requires WellKept(rows)
    ensures WellKept(WithoutAll(rows, ids))
    ensures GetRow(WithoutAll(rows, ids), id) == if id in ids then None else GetRow(rows, id)
  {
    if ids != [] {
      var front, last := ids[..|ids| - 1], ids[|ids| - 1];
      assert ids == front + [last];
      WithoutAllThenGet(rows, front, id);
      KeptIsUnique(WithoutAll(rows, front));
      DeleteThenGet(WithoutAll(rows, front), last, id);
      DeleteIsKept(WithoutAll(rows, front), last);
    }
  }

  lemma {:induction false} WithoutAllCounts(rows: Rows<UserFact>, ids: seq<string>)
    requires WellKept(rows) && NoRepeats(ids) && forall id :: id in ids ==> GetRow(rows, id).Some?
    ensures |WithoutAll(rows, ids)| == |rows| - |ids|
  {
    if ids != [] {
      var front, last := ids[..|ids| - 1], ids[|ids| - 1];
      WithoutAllCounts(rows, front);
      WithoutAllThenGet(rows, front, last);
      DeleteIsKept(WithoutAll(rows, front), last);
    }
  }

  lemma {:induction false} FactIsFound(rows: Rows<UserFact>, f: UserFact)
    requires WellKept(rows)
    ensures f in Facts(rows) <==> GetRow(rows, f.id) == Some(f)
  {
    if rows != [] {
      FactIsFound(rows[1..], f);
      assert f in Facts(rows) <==> f == rows[0].1 || f in Facts(rows[1..]);
    }
  }

  lemma {:induction false} FactsDiffer(rows: Rows<UserFact>)
    requires WellKept(rows)
    ensures |Facts(rows)| == |rows| && NoRepeats(Facts(rows))
    ensures forall f, g :: f in Facts(rows) && g in Facts(rows) && f.id == g.id ==> f == g
  {
    if rows != [] {
      FactsDiffer(rows[1..]);
      FactIsFound(rows[1..], rows[0].1);
      forall f | f in Facts(rows)
        ensures GetRow(rows, f.id) == Some(f)
      {
        FactIsFound(rows, f);
      }
      NoRepeatsPrepend(rows[0].1, Facts(rows[1..]));
    }
  }

  lemma {:induction false} AliveAre(facts: seq<UserFact>, now: int)
    ensures forall f :: f in Alive(facts, now) <==> f in facts && !Expired(f, now)
    ensures NoRepeats(facts) ==> NoRepeats(Alive(facts, now))
    ensures |Alive(facts, now)| + |ExpiredIds(facts, now)| == |facts|
  {
    if facts != [] {
      AliveAre(facts[1..], now);
      if NoRepeats(facts) {
        NoRepeatsTail(facts);
        if !Expired(facts[0], now) {
          NoRepeatsPrepend(facts[0], Alive(facts[1..], now));
        } else {
          assert Alive(facts, now) == Alive(facts[1..], now);
        }
      }
    }
  }

  lemma {:induction false} OthersAre(facts: seq<UserFact>, id: string)
    ensures forall f :: f in Others(facts, id) <==> f in facts && f.id != id
    ensures NoRepeats(facts) ==> NoRepeats(Others(facts, id))
  {
    if facts != [] {
      OthersAre(facts[1..], id);
      if NoRepeats(facts) {
        NoRepeatsTail(facts);
        if facts[0].id != id {
          NoRepeatsPrepend(facts[0], Others(facts[1..], id));
        } else {
          assert Others(facts, id) == Others(facts[1..], id);
        }
      }
    }
  }

  lemma {:induction false} ExpiredIdsDiffer(rows: Rows<UserFact>, now: int)
    requires WellKept(rows)
    ensures NoRepeats(ExpiredIds(Facts(rows), now))
    ensures forall id :: id in ExpiredIds(Facts(rows), now) <==> GetRow(rows, id).Some? && Expired(GetRow(rows, id).value, now)
  {
    if rows != [] {
      ExpiredIdsDiffer(rows[1..], now);
      var rest := ExpiredIds(Facts(rows[1..]), now);
      if Expired(rows[0].1, now) {
        NoRepeatsPrepend(rows[0].0, rest);
      } else {
        assert ExpiredIds(Facts(rows), now) == rest;
      }
    }
  }

  function Purged(rows: Rows<UserFact>, now: int): Rows<UserFact> {
    WithoutAll(rows, ExpiredIds(Facts(rows), now))
  }

  /** A purge leaves exactly the rows that have not expired. */
  lemma PurgeLeavesLive(rows: Rows<UserFact>, now: int, id: string)
    requires WellKept(rows)
    ensures WellKept(Purged(rows, now)) && GetRow(Purged(rows, now), id) == Live(rows, id, now)
    ensures |Purged(rows, now)| == |Alive(Facts(rows), now)|
  {
    ExpiredIdsDiffer(rows, now);
    WithoutAllThenGet(rows, ExpiredIds(Facts(rows), now), id);
    WithoutAllCounts(rows, ExpiredIds(Facts(rows), now));
    AliveAre(Facts(rows), now);
    FactsDiffer(rows);
  }

  // Eviction

  /** Least used first; among equally used, the one used, then the one written, longest ago. */
  predicate GoesFirst(f: UserFact, g: UserFact) {
    f.uses < g.uses || (f.uses == g.uses && (f.lastUsed < g.lastUsed || (f.lastUsed == g.lastUsed && f.created <= g.created)))
  }

  function Candidates(rows: Rows<UserFact>, keep: string, now: int): seq<UserFact> {
    Sorted(Others(Alive(Facts(rows), now), keep), GoesFirst)
  }

  lemma CandidatesAre(rows: Rows<UserFact>, keep: string, now: int)
    requires WellKept(rows)
    ensures IsSorted(Candidates(rows, keep, now), GoesFirst) && NoRepeats(IdsOf(Candidates(rows, keep, now)))
    ensures forall f :: f in Candidates(rows, keep, now) <==> Live(rows, f.id, now) == Some(f) && f.id != keep
  {
    var facts := Facts(rows);
    var others := Others(Alive(facts, now), keep);
    var sorted := Candidates(rows, keep, now);
    AliveAre(facts, now);
    OthersAre(Alive(facts, now), keep);
    FactsDiffer(rows);
    SortedIsSorted(others, GoesFirst);
    SameElements(others, sorted);
    NoRepeatsPermuted(others, sorted);
    forall f
      ensures f in facts <==> GetRow(rows, f.id) == Some(f)
    {
      FactIsFound(rows, f);
    }
    IdsDiffer(sorted);
  }

  lemma IdsDiffer(facts: seq<UserFact>)
    requires NoRepeats(facts) && forall f, g :: f in facts && g in facts && f.id == g.id ==> f == g
    ensures NoRepeats(IdsOf(facts))
  {
    forall i, j | 0 <= i < j < |facts|
      ensures facts[i].id != facts[j].id
    {
      assert facts[i] in facts && facts[j] in facts;
    }
  }

  lemma {:induction false} OneIsKept(rows: Rows<UserFact>, keep: string, now: int)
    requires WellKept(rows) && Live(rows, keep, now).Some?
    ensures |Others(Alive(Facts(rows), now), keep)| == |Alive(Facts(rows), now)| - 1
  {
    if rows[0].0 == keep {
      NoneIsKept(rows[1..], keep, now);
      assert Alive(Facts(rows), now)[1..] == Alive(Facts(rows[1..]), now);
    } else {
      OneIsKept(rows[1..], keep, now);
      var rest := Alive(Facts(rows[1..]), now);
      if Expired(rows[0].1, now) {
        assert Alive(Facts(rows), now) == rest;
      } else {
        assert Alive(Facts(rows), now)[1..] == rest;
      }
    }
  }

  lemma {:induction false} NoneIsKept(rows: Rows<UserFact>, keep: string, now: int)
    requires WellKept(rows) && GetRow(rows, keep).None?
    ensures |Others(Alive(Facts(rows), now), keep)| == |Alive(Facts(rows), now)|
  {
    if rows != [] {
      NoneIsKept(rows[1..], keep, now);
      var rest := Alive(Facts(rows[1..]), now);
      if Expired(rows[0].1, now) {
        assert Alive(Facts(rows), now) == rest;
      } else {
        assert Alive(Facts(rows), now)[1..] == rest;
      }
    }
  }

  predicate Gone(before: Rows<UserFact>, after: Rows<UserFact>, f: UserFact, now: int) {
    Live(before, f.id, now) == Some(f) && GetRow(after, f.id).None?
  }

  predicate Stays(after: Rows<UserFact>, f: UserFact) {
    GetRow(after, f.id) == Some(f)
  }

  /** No evicted fact ranks above a survivor, the one to keep aside. */
  ghost predicate FairlyCut(before: Rows<UserFact>, after: Rows<UserFact>, keep: string, now: int) {
    forall f: UserFact, g: UserFact ::
      Gone(before, after, f, now) && Stays(after, g) && g.id != keep ==> GoesFirst(f, g)
  }

  /** Who goes was used least; among equally used ones its last use, then its writing, lies longest ago. */
  lemma LeastUsedGo(before: Rows<UserFact>, after: Rows<UserFact>, keep: string, now: int, f: UserFact, g: UserFact)
    requires FairlyCut(before, after, keep, now) && Gone(before, after, f, now) && Stays(after, g) && g.id != keep
    ensures f.uses <= g.uses
    ensures f.uses == g.uses ==> f.lastUsed <= g.lastUsed
    ensures f.uses == g.uses && f.lastUsed == g.lastUsed ==> f.created <= g.created
  {
    assert GoesFirst(f, g);
  }

  /** after holds the live rows of before, cut to the maximum by evicting the lowest ranked, but never the one to keep. */
  ghost predicate CutTo(before: Rows<UserFact>, after: Rows<UserFact>, keep: string, max: int, now: int) {
    var alive := |Alive(Facts(before), now)|;
    && WellKept(after)
    && GetRow(after, keep) == Live(before, keep, now)
    && (forall id :: GetRow(after, id).Some? ==> GetRow(after, id) == Live(before, id, now))
    && FairlyCut(before, after, keep, now)
    && |after| == (if alive <= max then alive else max)
    && (alive <= max ==> forall id :: GetRow(after, id) == Live(before, id, now))
  }

  lemma EvictionCuts(rows: Rows<UserFact>, keep: string, max: int, now: int)
    requires WellKept(rows) && Live(rows, keep, now).Some? && max >= 1
    ensures |Alive(Facts(rows), now)| <= max ==> CutTo(rows, Purged(rows, now), keep, max, now)
    ensures |Alive(Facts(rows), now)| > max ==>
      var excess := |Alive(Facts(rows), now)| - max;
      var candidates := Candidates(rows, keep, now);
      excess <= |candidates| && CutTo(rows, WithoutAll(Purged(rows, now), IdsOf(candidates[..excess])), keep, max, now)
  {
    var alive := Alive(Facts(rows), now);
    var excess := |alive| - max;
    var purged := Purged(rows, now);
    PurgeLeavesLive(rows, now, keep);
    forall id
      ensures GetRow(purged, id) == Live(rows, id, now)
    {
      PurgeLeavesLive(rows, now, id);
    }
    if excess > 0 {
      OneIsKept(rows, keep, now);
      SortedIsSorted(Others(alive, keep), GoesFirst);
      SameElements(Others(alive, keep), Candidates(rows, keep, now));
      EvictedAreFirst(rows, purged, keep, max, now, excess);
    }
  }

  lemma EvictedAreFirst(rows: Rows<UserFact>, purged: Rows<UserFact>, keep: string, max: int, now: int, excess: int)
    requires WellKept(rows) && WellKept(purged) && forall id :: GetRow(purged, id) == Live(rows, id, now)
    requires Live(rows, keep, now).Some?
    requires 0 < excess <= |Candidates(rows, keep, now)| && |purged| == |Alive(Facts(rows), now)| == max + excess
    ensures CutTo(rows, WithoutAll(purged, IdsOf(Candidates(rows, keep, now)[..excess])), keep, max, now)
  {
    var sorted := Candidates(rows, keep, now);
    var ids := IdsOf(sorted[..excess]);
    var after := WithoutAll(purged, ids);
    CandidatesAre(rows, keep, now);
    PrefixIds(rows, sorted, keep, now, excess);
    WithoutAllCounts(purged, ids);
    WithoutAllThenGet(purged, ids, keep);
    forall id
      ensures GetRow(after, id) == if id in ids then None else Live(rows, id, now)
    {
      WithoutAllThenGet(purged, ids, id);
    }
    PrefixIsFair(rows, after, sorted, keep, now, excess);
  }

  lemma PrefixIds(rows: Rows<UserFact>, sorted: seq<UserFact>, keep: string, now: int, n: nat)
    requires NoRepeats(IdsOf(sorted)) && n <= |sorted|
    requires forall f :: f in sorted <==> Live(rows, f.id, now) == Some(f) && f.id != keep
    ensures NoRepeats(IdsOf(sorted[..n]))
    ensures forall id :: id in IdsOf(sorted[..n]) ==> Live(rows, id, now).Some? && id != keep
  {
    var ids := IdsOf(sorted[..n]);
    assert forall i :: 0 <= i < n ==> ids[i] == IdsOf(sorted)[i] == sorted[i].id && sorted[i] in sorted;
  }

  lemma PrefixIsFair(
    rows: Rows<UserFact>, after: Rows<UserFact>, sorted: seq<UserFact>, keep: string, now: int, n: nat)
    requires IsSorted(sorted, GoesFirst) && n <= |sorted|
    requires forall f :: f in sorted <==> Live(rows, f.id, now) == Some(f) && f.id != keep
    requires forall id :: GetRow(after, id) == if id in IdsOf(sorted[..n]) then None else Live(rows, id, now)
    ensures FairlyCut(rows, after, keep, now)
  {
    var ids := IdsOf(sorted[..n]);
    forall f: UserFact, g: UserFact | Gone(rows, after, f, now) && Stays(after, g) && g.id != keep
      ensures GoesFirst(f, g)
    {
      assert forall k :: 0 <= k < n ==> ids[k] == sorted[k].id && ids[k] in ids;
      var i :| 0 <= i < n && ids[i] == f.id;
      assert sorted[i] in sorted;
      assert g in sorted;
      var j :| 0 <= j < |sorted| && sorted[j] == g;
    }
  }

  // Remembering

  /** The fact as it is stored: one that is still alive keeps its age and its uses. */
  function NewFact(rows: Rows<UserFact>, limits: Limits, id: string, text: string, now: int): UserFact {
    var known := Live(rows, id, now);
    UserFact(
      id, text, if known.Some? then known.value.created else now, now, if known.Some? then known.value.uses else 0,
      if limits.ttl.Some? then Some(now + limits.ttl.value * SECOND) else None)
  }

  /** The stored fact says what was remembered, was used now, and lives for its time to live, or for ever where there is none. */
  lemma NewFactLivesForItsTime(rows: Rows<UserFact>, limits: Limits, id: string, text: string, now: int, x: int)
    ensures var fact := NewFact(rows, limits, id, text, now);
      && fact.id == id && fact.content == text && fact.lastUsed == now
      && (Expired(fact, x) <==> limits.ttl.Some? && x >= now + limits.ttl.value * SECOND)
      && (if GetRow(rows, id).Some? && !Expired(GetRow(rows, id).value, now) then
            fact.created == GetRow(rows, id).value.created && fact.uses == GetRow(rows, id).value.uses
          else
            fact.created == now && fact.uses == 0)
  {
  }

  /** How many facts there are to keep, with the new one. */
  function Wanted(before: Rows<UserFact>, id: string, now: int): nat {
    |Purged(before, now)| + if Live(before, id, now).Some? then 0 else 1
  }

  /** What remembering a fact does to its owner's rows. */
  ghost predicate Remembered(before: Rows<UserFact>, after: Rows<UserFact>, max: int, fact: UserFact, now: int) {
    && WellKept(after)
    && GetRow(after, fact.id) == Some(fact)
    && (forall id :: GetRow(after, id).Some? ==>
          !Expired(GetRow(after, id).value, now) && (id != fact.id ==> GetRow(after, id) == GetRow(before, id)))
    && FairlyCut(before, after, fact.id, now)
    && |after| == (if Wanted(before, fact.id, now) <= max then Wanted(before, fact.id, now) else max)
    && (Wanted(before, fact.id, now) <= max ==> forall id :: id != fact.id ==> GetRow(after, id) == Live(before, id, now))
  }

  lemma AllAlive(rows: Rows<UserFact>, now: int)
    requires WellKept(rows) && forall id :: Live(rows, id, now) == GetRow(rows, id)
    ensures |Alive(Facts(rows), now)| == |rows|
  {
    ExpiredIdsDiffer(rows, now);
    AliveAre(Facts(rows), now);
    FactsDiffer(rows);
    var expired := ExpiredIds(Facts(rows), now);
    forall id
      ensures id !in expired
    {
      assert Live(rows, id, now) == GetRow(rows, id);
    }
    HeadIsIn(expired);
  }

  lemma RememberedByCut(before: Rows<UserFact>, after: Rows<UserFact>, max: int, fact: UserFact, now: int)
    requires WellKept(before) && OneLine(fact.content) && !Expired(fact, now)
    requires CutTo(PutRow(Purged(before, now), fact.id, fact), after, fact.id, max, now)
    ensures Remembered(before, after, max, fact, now)
  {
    var put := PutRow(Purged(before, now), fact.id, fact);
    PurgeLeavesLive(before, now, fact.id);
    PutIsKept(Purged(before, now), fact);
    forall id
      ensures Live(put, id, now) == GetRow(put, id) == if id == fact.id then Some(fact) else Live(before, id, now)
    {
      PutThenGet(Purged(before, now), fact.id, fact, id);
      PurgeLeavesLive(before, now, id);
    }
    AllAlive(put, now);
    forall f: UserFact, g: UserFact | Gone(before, after, f, now) && Stays(after, g) && g.id != fact.id
      ensures GoesFirst(f, g)
    {
      assert Gone(put, after, f, now);
    }
  }

  lemma {:induction false} PurgeShrinks(rows: Rows<UserFact>, ids: seq<string>)
    requires WellKept(rows)
    ensures |WithoutAll(rows, ids)| <= |rows|
  {
    if ids != [] {
      PurgeShrinks(rows, ids[..|ids| - 1]);
      WithoutAllThenGet(rows, ids[..|ids| - 1], "");
      DeleteIsKept(WithoutAll(rows, ids[..|ids| - 1]), ids[|ids| - 1]);
    }
  }

  /** A fact remembered again before it expires keeps its age and its uses, and costs no other live fact its place. */
  lemma RememberedAgain(
    before: Rows<UserFact>, between: Rows<UserFact>, after: Rows<UserFact>, limits: Limits,
    first: UserFact, firstAt: int, text: string, now: int)
    requires Remembered(before, between, limits.maxFacts, first, firstAt) && !Expired(first, now)
    requires Remembered(between, after, limits.maxFacts, NewFact(between, limits, first.id, text, now), now)
    ensures var again := NewFact(between, limits, first.id, text, now);
      again.id == first.id && again.created == first.created && again.uses == first.uses
    ensures forall id :: id != first.id ==> GetRow(after, id) == Live(between, id, now)
  {
    PurgeShrinks(between, ExpiredIds(Facts(between), now));
  }

  class InMemoryFactBackend {
    const provider: InMemoryScopeProvider<UserFact>
    const subject: Subject

    constructor (provider: InMemoryScopeProvider<UserFact>, subject: Subject)
      ensures this.provider == provider && this.subject == subject
    {
      this.provider := provider;
      this.subject := subject;
    }

    ghost function View(): Rows<UserFact>
      reads provider
    {
      RowsOf(provider.store, subject, USER_FACTS_TABLE)
    }

    method All() returns (facts: seq<UserFact>)
      ensures facts == Facts(View())
    {
      var rows := provider.ReadRows(subject, USER_FACTS_TABLE);
      facts := Facts(rows);
    }

    method Put(fact: UserFact)
      modifies provider
      ensures View() == PutRow(old(View()), fact.id, fact)
      ensures OnlyChanges(old(provider.store), provider.store, subject, USER_FACTS_TABLE)
    {
      provider.Put(subject, USER_FACTS_TABLE, fact.id, fact);
    }

    method Remove(ids: seq<string>) returns (removed: nat)
      modifies provider
      ensures View() == WithoutAll(old(View()), ids)
      ensures removed == |Present(old(View()), ids)|
      ensures OnlyChanges(old(provider.store), provider.store, subject, USER_FACTS_TABLE)
    {
      var existing := provider.ReadRows(subject, USER_FACTS_TABLE);
      removed := 0;
      for i := 0 to |ids|
        invariant View() == WithoutAll(existing, ids[..i])
        invariant removed == |Present(existing, ids[..i])|
        invariant OnlyChanges(old(provider.store), provider.store, subject, USER_FACTS_TABLE)
      {
        assert ids[..i + 1][..i] == ids[..i];
        if GetRow(existing, ids[i]).Some? {
          removed := removed + 1;
        }
        provider.Delete(subject, USER_FACTS_TABLE, ids[i]);
      }
      assert ids[..|ids|] == ids;
    }

    /** Counts a use of each of these facts. */
    method Touch(ids: seq<string>, now: int)
      requires WellKept(View())
      modifies provider
      ensures WellKept(View()) && |View()| == |old(View())|
      ensures forall id :: GetRow(View(), id) == Touched(GetRow(old(View()), id), id in ids, now)
      ensures OnlyChanges(old(provider.store), provider.store, subject, USER_FACTS_TABLE)
    {
      hide *;
      ghost var before, store := View(), provider.store;
      var all := All();
      NoneTouched(before, ids, now);
      NothingChanges(store, subject, USER_FACTS_TABLE);
      for i := 0 to |all|
        invariant TouchedUpTo(before, View(), i, ids, now)
        invariant OnlyChanges(store, provider.store, subject, USER_FACTS_TABLE)
      {
        ghost var between := provider.store;
        TouchOne(before, View(), i, ids, now);
        PutIfUsed(all[i], ids, now);
        ChangesAddUp(store, between, provider.store, subject, USER_FACTS_TABLE);
      }
      AllTouched(before, View(), ids, now);
    }

    method PutIfUsed(fact: UserFact, ids: seq<string>, now: int)
      modifies provider
      ensures View() == if fact.id in ids
        then PutRow(old(View()), fact.id, fact.(uses := fact.uses + 1, lastUsed := now)) else old(View())
      ensures OnlyChanges(old(provider.store), provider.store, subject, USER_FACTS_TABLE)
    {
      if fact.id in ids {
        Put(fact.(uses := fact.uses + 1, lastUsed := now));
      } else {
        NothingChanges(provider.store, subject, USER_FACTS_TABLE);
      }
    }
  }

  /** The first n facts have been looked at. */
  ghost predicate TouchedUpTo(before: Rows<UserFact>, rows: Rows<UserFact>, n: nat, ids: seq<string>, now: int) {
    && WellKept(rows) && |rows| == |before| && n <= |Facts(before)|
    && forall id :: GetRow(rows, id) == Touched(GetRow(before, id), id in ids && InPrefix(Facts(before), n, id), now)
  }

  lemma NoneTouched(before: Rows<UserFact>, ids: seq<string>, now: int)
    requires WellKept(before)
    ensures TouchedUpTo(before, before, 0, ids, now)
  {
  }

  lemma TouchOne(before: Rows<UserFact>, rows: Rows<UserFact>, i: nat, ids: seq<string>, now: int)
    requires WellKept(before) && i < |Facts(before)| && TouchedUpTo(before, rows, i, ids, now)
    ensures var fact := Facts(before)[i];
      var touched := fact.(uses := fact.uses + 1, lastUsed := now);
      TouchedUpTo(before, if fact.id in ids then PutRow(rows, fact.id, touched) else rows, i + 1, ids, now)
  {
    var all := Facts(before);
    var fact := all[i];
    var touched := fact.(uses := fact.uses + 1, lastUsed := now);
    FactsDiffer(before);
    FactIsFound(before, fact);
    KeptIsOneLine(before, fact.id);
    PutIsKept(rows, touched);
    assert InPrefix(all, i + 1, fact.id);
    assert forall id :: InPrefix(all, i + 1, id) <==> InPrefix(all, i, id) || id == fact.id;
    forall id
      ensures GetRow(PutRow(rows, fact.id, touched), id) == if id == fact.id then Some(touched) else GetRow(rows, id)
    {
      PutThenGet(rows, fact.id, touched, id);
    }
  }

  lemma AllTouched(before: Rows<UserFact>, rows: Rows<UserFact>, ids: seq<string>, now: int)
    requires WellKept(before) && TouchedUpTo(before, rows, |Facts(before)|, ids, now)
    ensures WellKept(rows) && |rows| == |before|
    ensures forall id :: GetRow(rows, id) == Touched(GetRow(before, id), id in ids, now)
  {
    forall id
      ensures GetRow(rows, id) == Touched(GetRow(before, id), id in ids, now)
    {
      if GetRow(before, id).Some? {
        KeptIsOneLine(before, id);
        FactIsFound(before, GetRow(before, id).value);
      }
    }
  }

  /** Those of the ids that have a row. */
  function Present(rows: Rows<UserFact>, ids: seq<string>): (present: seq<string>)
    ensures forall id :: id in present <==> id in ids && GetRow(rows, id).Some?
  {
    if ids == [] then []
    else
      var front, last := ids[..|ids| - 1], ids[|ids| - 1];
      assert ids == front + [last];
      Present(rows, front) + if GetRow(rows, last).Some? then [last] else []
  }

  predicate InPrefix(facts: seq<UserFact>, n: nat, id: string)
    requires n <= |facts|
  {
    exists i :: 0 <= i < n && facts[i].id == id
  }

  function Touched(row: Option<UserFact>, used: bool, now: int): Option<UserFact> {
    if used && row.Some? then Some(row.value.(uses := row.value.uses + 1, lastUsed := now)) else row
  }

  lemma {:induction false} KeptIsOneLine(rows: Rows<UserFact>, id: string)
    requires WellKept(rows) && GetRow(rows, id).Some?
    ensures OneLine(GetRow(rows, id).value.content) && GetRow(rows, id).value.id == id
  {
    if rows[0].0 != id {
      KeptIsOneLine(rows[1..], id);
    }
  }
}
