/** One user's memory: what each of its operations does to the stored facts. */
module FactMemory {
  import opened Common
  import opened Scope
  import opened Lines
  import opened Sorting
  import opened FactText
  import opened UserMemory
  import opened Injection
  import Untrusted

  predicate Newer(f: UserFact, g: UserFact) {
    f.created >= g.created
  }

  datatype Rejection = Empty | TooLong(size: nat)

  predicate Accepts(limits: Limits, content: string) {
    Normalize(content) != "" && Utf8Size(Normalize(content)) <= limits.maxFactBytes
  }

  /** The live facts, newest first. */
  ghost predicate IsListing(rows: Rows<UserFact>, facts: seq<UserFact>, now: int) {
    multiset(facts) == multiset(Alive(Facts(rows), now)) && IsSorted(facts, Newer)
  }

  /** The block of the facts that fit, or none when nothing does. */
  ghost predicate IsBlock(
    rows: Rows<UserFact>, ranked: seq<UserFact>, limits: Limits, now: int, block: Option<Untrusted.UntrustedData>) {
    && multiset(ranked) == multiset(Alive(Facts(rows), now)) && IsSorted(ranked, RanksFirst)
    && var picked := Picked(ranked, limits.maxInjectedChars);
       block == if picked == [] then None
         else Some(Untrusted.UntrustedData(USER_FACTS_SOURCE, Join(LinesOf(picked)), limits.maxInjectedChars))
  }

  /** The block is accepted as untrusted data and never cut by its own cap. */
  lemma BlockIsNotCut(
    rows: Rows<UserFact>, ranked: seq<UserFact>, limits: Limits, now: int, block: Option<Untrusted.UntrustedData>)
    requires ValidLimits(limits) && IsBlock(rows, ranked, limits, now, block) && block.Some?
    ensures Untrusted.Valid(block.value) && Untrusted.Capped(block.value) == block.value.content
    ensures block.value.maxChars == limits.maxInjectedChars
  {
    PickedFits(ranked, limits.maxInjectedChars);
    assert forall i :: 0 <= i < |USER_FACTS_SOURCE| ==> Untrusted.SourceChar(USER_FACTS_SOURCE[i]);
  }

  class UserFacts {
    const backend: InMemoryFactBackend
    const limits: Limits
    /** The digest of a text, as its fact's id. */
    const factId: string -> string

    constructor (backend: InMemoryFactBackend, limits: Limits, factId: string -> string)
      ensures this.backend == backend && this.limits == limits && this.factId == factId
    {
      this.backend := backend;
      this.limits := limits;
      this.factId := factId;
    }

    ghost function View(): Rows<UserFact>
      reads backend.provider
    {
      backend.View()
    }

    ghost predicate Valid()
      reads backend.provider
    {
      WellKept(View()) && ValidLimits(limits)
    }

    method PurgeExpired(now: int) returns (rows: seq<UserFact>)
      modifies backend.provider
      ensures rows == Facts(old(View())) && View() == Purged(old(View()), now)
      ensures OnlyChanges(old(backend.provider.store), backend.provider.store, backend.subject, USER_FACTS_TABLE)
    {
      rows := backend.All();
      var expired := ExpiredIds(rows, now);
      if expired != [] {
        var _ := backend.Remove(expired);
      }
    }

    method Evict(keep: string, now: int)
      requires Valid() && Live(View(), keep, now).Some?
      modifies backend.provider
      ensures CutTo(old(View()), View(), keep, limits.maxFacts, now)
      ensures OnlyChanges(old(backend.provider.store), backend.provider.store, backend.subject, USER_FACTS_TABLE)
    {
      EvictionCuts(View(), keep, limits.maxFacts, now);
      var all := PurgeExpired(now);
      var rows := Alive(all, now);
      var excess := |rows| - limits.maxFacts;
      if excess > 0 {
        var candidates := Sorted(Others(rows, keep), GoesFirst);
        var _ := backend.Remove(IdsOf(candidates[..excess]));
      }
    }

    /** The fact to store, given every row there was: a live one of the same text passes on its age and its uses. */
    method FactFrom(rows: seq<UserFact>, id: string, text: string, now: int, ghost stored: Rows<UserFact>)
      returns (fact: UserFact)
      requires WellKept(stored) && rows == Facts(stored)
      ensures fact == NewFact(stored, limits, id, text, now)
    {
      FirstLiveIs(stored, id, now);
      var known := FirstLive(rows, id, now);
      fact := UserFact(
        id, text, if known.Some? then known.value.created else now, now, if known.Some? then known.value.uses else 0,
        if limits.ttl.Some? then Some(now + limits.ttl.value * SECOND) else None);
    }

    /** The fact goes in and, where there are too many, others go out. */
    method StoreFact(text: string, now: int) returns (fact: UserFact)
      requires Valid() && OneLine(text)
      modifies backend.provider
      ensures fact == NewFact(old(View()), limits, factId(text), text, now)
      ensures Remembered(old(View()), View(), limits.maxFacts, fact, now)
      ensures OnlyChanges(old(backend.provider.store), backend.provider.store, backend.subject, USER_FACTS_TABLE)
    {
      ghost var before := View();
      var id := factId(text);
      var rows := PurgeExpired(now);
      fact := FactFrom(rows, id, text, now, before);
      NewFactIsLive(before, limits, id, text, now);
      backend.Put(fact);
      Evict(id, now);
      RememberedByCut(before, View(), limits.maxFacts, fact, now);
    }

    /** Stores a fact and keeps the memory within its bounds. */
    method Remember(content: string, now: int) returns (r: Result<UserFact, Rejection>)
      requires Valid()
      modifies backend.provider
      ensures Valid()
      ensures r.Ok? <==> Accepts(limits, content)
      ensures var text := Normalize(content);
        && (r == Err(Empty) <==> text == "")
        && (text != "" ==> (r == Err(TooLong(Utf8Size(text))) <==> Utf8Size(text) > limits.maxFactBytes))
      ensures r.Err? ==> backend.provider.store == old(backend.provider.store)
      ensures r.Ok? ==>
        var text := Normalize(content);
        && r.value == NewFact(old(View()), limits, factId(text), text, now)
        && r.value.content == text && r.value.id == factId(text) && r.value.lastUsed == now
        && r.value.expires == (if limits.ttl.Some? then Some(now + limits.ttl.value * SECOND) else None)
        && Remembered(old(View()), View(), limits.maxFacts, r.value, now)
      ensures OnlyChanges(old(backend.provider.store), backend.provider.store, backend.subject, USER_FACTS_TABLE)
    {
      var text := Normalize(content);
      if text == "" {
        return Err(Empty);
      }
      var size := Utf8Size(text);
      if size > limits.maxFactBytes {
        return Err(TooLong(size));
      }
      NormalizeIsStable(content);
      var fact := StoreFact(text, now);
      r := Ok(fact);
    }

    /** The live facts, newest first; expired rows are dropped on the way. */
    method List(now: int) returns (facts: seq<UserFact>)
      requires Valid()
      modifies backend.provider
      ensures Valid() && IsListing(old(View()), facts, now)
      ensures forall i, j :: 0 <= i < j < |facts| ==> facts[i].created >= facts[j].created
      ensures forall id :: Live(View(), id, now) == Live(old(View()), id, now)
      ensures View() == old(View()) || View() == Purged(old(View()), now)
      ensures OnlyChanges(old(backend.provider.store), backend.provider.store, backend.subject, USER_FACTS_TABLE)
    {
      ghost var before := View();
      var rows := backend.All();
      if ExpiredIds(rows, now) != [] {
        rows := PurgeExpired(now);
      }
      forall id
        ensures Live(Purged(before, now), id, now) == Live(before, id, now)
      {
        PurgeLeavesLive(before, now, id);
      }
      PurgeLeavesLive(before, now, "");
      SortedIsSorted(Alive(rows, now), Newer);
      facts := Sorted(Alive(rows, now), Newer);
    }

    method Forget(id: string) returns (forgotten: bool)
      requires Valid()
      modifies backend.provider
      ensures Valid()
      ensures forgotten <==> id != "" && GetRow(old(View()), id).Some?
      ensures forall k :: GetRow(View(), k) == if forgotten && k == id then None else GetRow(old(View()), k)
      ensures OnlyChanges(old(backend.provider.store), backend.provider.store, backend.subject, USER_FACTS_TABLE)
    {
      if id == "" {
        return false;
      }
      ghost var before := View();
      var removed := backend.Remove([id]);
      forgotten := removed > 0;
      WithoutAllThenGet(before, [id], id);
      forall k
        ensures GetRow(View(), k) == if k == id then None else GetRow(before, k)
      {
        WithoutAllThenGet(before, [id], k);
      }
    }

    /** Goes through the ranked facts and takes those that fit. */
    method Choose(ranked: seq<UserFact>) returns (lines: seq<string>, used: seq<string>)
      ensures lines == LinesOf(Picked(ranked, limits.maxInjectedChars))
      ensures used == IdsOf(Picked(ranked, limits.maxInjectedChars))
    {
      lines, used := [], [];
      var size := 0;
      for i := 0 to |ranked|
        invariant lines == LinesOf(Picked(ranked[..i], limits.maxInjectedChars))
        invariant used == IdsOf(Picked(ranked[..i], limits.maxInjectedChars))
        invariant size == Size(Picked(ranked[..i], limits.maxInjectedChars))
      {
        assert ranked[..i + 1][..i] == ranked[..i];
        var line := "- " + ranked[i].content;
        var added := |line| + if lines != [] then 1 else 0;
        SizeGrows(Picked(ranked[..i], limits.maxInjectedChars), ranked[i]);
        if size + added > limits.maxInjectedChars {
          continue;
        }
        lines := lines + [line];
        used := used + [ranked[i].id];
        size := size + added;
      }
      assert ranked[..|ranked|] == ranked;
    }

    /** The facts as one block of untrusted data, if any fits. */
    method InjectionBlock(now: int, markUsed: bool) returns (block: Option<Untrusted.UntrustedData>, ghost ranked: seq<UserFact>)
      requires Valid()
      modifies backend.provider
      ensures Valid() && IsBlock(old(View()), ranked, limits, now, block)
      ensures forall i, j :: 0 <= i < j < |ranked| ==>
        ranked[i].uses > ranked[j].uses || (ranked[i].uses == ranked[j].uses && ranked[i].lastUsed >= ranked[j].lastUsed)
      ensures var used := if markUsed then IdsOf(Picked(ranked, limits.maxInjectedChars)) else [];
        forall id :: Live(View(), id, now) == Touched(Live(old(View()), id, now), id in used, now)
      ensures OnlyChanges(old(backend.provider.store), backend.provider.store, backend.subject, USER_FACTS_TABLE)
    {
      ghost var before := View();
      var facts := List(now);
      ghost var listed := View();
      var sorted := Sorted(facts, RanksFirst);
      SortedIsSorted(facts, RanksFirst);
      ranked := sorted;
      var lines, used := Choose(sorted);
      if lines == [] {
        return None, ranked;
      }
      if markUsed {
        backend.Touch(used, now);
        TouchedStayLive(before, listed, View(), used, now);
      }
      block := Some(Untrusted.UntrustedData(USER_FACTS_SOURCE, Join(lines), limits.maxInjectedChars));
    }
  }

  lemma NewFactIsLive(before: Rows<UserFact>, limits: Limits, id: string, text: string, now: int)
    requires WellKept(before) && OneLine(text) && ValidLimits(limits)
    ensures var fact := NewFact(before, limits, id, text, now);
      var put := PutRow(Purged(before, now), id, fact);
      !Expired(fact, now) && WellKept(put) && Live(put, id, now) == Some(fact)
  {
    var fact := NewFact(before, limits, id, text, now);
    PurgeLeavesLive(before, now, id);
    PutIsKept(Purged(before, now), fact);
    PutThenGet(Purged(before, now), id, fact, id);
  }

  lemma TouchedStayLive(before: Rows<UserFact>, listed: Rows<UserFact>, after: Rows<UserFact>, used: seq<string>, now: int)
    requires forall id :: Live(listed, id, now) == Live(before, id, now)
    requires forall id :: GetRow(after, id) == Touched(GetRow(listed, id), id in used, now)
    ensures forall id :: Live(after, id, now) == Touched(Live(before, id, now), id in used, now)
  {
  }

  function FirstLive(facts: seq<UserFact>, id: string, now: int): Option<UserFact> {
    if facts == [] then None
    else if facts[0].id == id && !Expired(facts[0], now) then Some(facts[0])
    else FirstLive(facts[1..], id, now)
  }

  lemma {:induction false} FirstLiveIs(rows: Rows<UserFact>, id: string, now: int)
    requires WellKept(rows)
    ensures FirstLive(Facts(rows), id, now) == Live(rows, id, now)
  {
    if rows != [] {
      FirstLiveIs(rows[1..], id, now);
    }
  }
}
