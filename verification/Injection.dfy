/** Which facts fit into the block that a turn is given, and what the block says. */
module Injection {
  import opened Common
  import opened Lines
  import opened Sorting
  import opened UserMemory

  /** Most used first, then most recently used. */
  predicate RanksFirst(f: UserFact, g: UserFact) {
    f.uses > g.uses || (f.uses == g.uses && f.lastUsed >= g.lastUsed)
  }

  function Line(f: UserFact): string {
    "- " + f.content
  }

  function LinesOf(facts: seq<UserFact>): seq<string> {
    seq(|facts|, i requires 0 <= i < |facts| => Line(facts[i]))
  }

  /** The size of a block of these facts. */
  function Size(facts: seq<UserFact>): nat {
    |Join(LinesOf(facts))|
  }

  function Added(picked: seq<UserFact>, f: UserFact): nat {
    |Line(f)| + if picked == [] then 0 else 1
  }

  /** In rank order every fact is taken that still fits; one that does not is skipped, never cut. */
  function Picked(ranked: seq<UserFact>, max: int): seq<UserFact> {
    if ranked == [] then []
    else
      var picked, f := Picked(ranked[..|ranked| - 1], max), ranked[|ranked| - 1];
      if Size(picked) + Added(picked, f) > max then picked else picked + [f]
  }

  lemma {:induction false} JoinGrows(lines: seq<string>, line: string)
    ensures |Join(lines + [line])| == |Join(lines)| + |line| + if lines == [] then 0 else 1
  {
    if lines == [] {
      assert [] + [line] == [line];
    } else {
      JoinGrows(lines[1..], line);
      assert (lines + [line])[1..] == lines[1..] + [line];
    }
  }

  lemma SizeGrows(picked: seq<UserFact>, f: UserFact)
    ensures Size(picked + [f]) == Size(picked) + Added(picked, f)
  {
    assert LinesOf(picked + [f]) == LinesOf(picked) + [Line(f)];
    JoinGrows(LinesOf(picked), Line(f));
  }

  /** The block keeps to its limit, holds ranked facts only, in rank order. */
  lemma {:induction false} PickedFits(ranked: seq<UserFact>, max: int)
    requires max >= 0
    ensures Size(Picked(ranked, max)) <= max
    ensures forall f :: f in Picked(ranked, max) ==> f in ranked
    ensures IsSorted(ranked, RanksFirst) ==> IsSorted(Picked(ranked, max), RanksFirst)
  {
    if ranked != [] {
      var front, f := ranked[..|ranked| - 1], ranked[|ranked| - 1];
      assert ranked == front + [f];
      PickedFits(front, max);
      var picked := Picked(front, max);
      SizeGrows(picked, f);
      if IsSorted(ranked, RanksFirst) {
        forall i | 0 <= i < |picked|
          ensures RanksFirst(picked[i], f)
        {
          assert picked[i] in picked;
          var j :| 0 <= j < |front| && front[j] == picked[i];
          assert RanksFirst(ranked[j], ranked[|ranked| - 1]);
        }
      }
    }
  }

  /** No fact that was left out would still fit. */
  lemma {:induction false} PickedIsFull(ranked: seq<UserFact>, max: int, f: UserFact)
    requires f in ranked && f !in Picked(ranked, max)
    ensures Size(Picked(ranked, max)) + Added(Picked(ranked, max), f) > max
  {
    var front, last := ranked[..|ranked| - 1], ranked[|ranked| - 1];
    assert ranked == front + [last];
    var picked := Picked(front, max);
    SizeGrows(picked, last);
    if f in front {
      assert f !in picked;
      PickedIsFull(front, max, f);
    }
  }

  /** Fact f at position i, before which n were picked, is picked exactly when the block of these and it fits. */
  predicate IsDecided(f: UserFact, max: int, picked: seq<UserFact>, at: seq<nat>, i: nat, n: nat) {
    && n <= |picked| == |at|
    && (Size(picked[..n] + [f]) <= max <==> n < |at| && at[n] == i)
  }

  /** The picked facts stand at these rising positions, and every fact is decided in its turn. */
  ghost predicate PickedAt(ranked: seq<UserFact>, max: int, picked: seq<UserFact>, at: seq<nat>) {
    && |at| == |picked|
    && (forall i, j :: 0 <= i < j < |at| ==> at[i] < at[j])
    && (forall j :: 0 <= j < |at| ==> at[j] < |ranked| && picked[j] == ranked[at[j]])
    && forall i: nat, n: nat :: i < |ranked| && IsRank(at, i, n) ==> IsDecided(ranked[i], max, picked, at, i, n)
  }

  lemma EarlierIsDecided(
    f: UserFact, max: int, picked: seq<UserFact>, at: seq<nat>, more: seq<UserFact>, positions: seq<nat>, last: nat, i: nat, n: nat)
    requires picked <= more && at <= positions && |picked| == |at| && |more| == |positions|
    requires |positions| <= |at| + 1 && (|positions| == |at| + 1 ==> positions[|at|] == last)
    requires i < last && IsRank(positions, i, n)
    requires IsRank(at, i, n) ==> IsDecided(f, max, picked, at, i, n)
    ensures IsDecided(f, max, more, positions, i, n)
  {
    EarlierRank(at, positions, last, i, n);
    assert more[..n] == picked[..n];
    hide IsRank, Size;
  }

  lemma PickOneMore(ranked: seq<UserFact>, max: int, picked: seq<UserFact>, at: seq<nat>)
    requires ranked != [] && PickedAt(ranked[..|ranked| - 1], max, picked, at)
    ensures var last := |ranked| - 1;
      if Size(picked + [ranked[last]]) <= max then PickedAt(ranked, max, picked + [ranked[last]], at + [last])
      else PickedAt(ranked, max, picked, at)
  {
    var last := |ranked| - 1;
    hide Size;
    var fits := Size(picked + [ranked[last]]) <= max;
    var more, positions := if fits then picked + [ranked[last]] else picked, if fits then at + [last] else at;
    forall i: nat, n: nat | i < |ranked| && IsRank(positions, i, n)
      ensures IsDecided(ranked[i], max, more, positions, i, n)
    {
      if i < last {
        assert ranked[..last][i] == ranked[i];
        hide IsRank, IsDecided;
        EarlierIsDecided(ranked[i], max, picked, at, more, positions, last, i, n);
      } else {
        LastRank(at, positions, last, n);
        assert more[..n] == picked;
        hide IsRank;
      }
    }
  }

  lemma {:induction false} PickedIsGreedy(ranked: seq<UserFact>, max: int) returns (at: seq<nat>)
    ensures PickedAt(ranked, max, Picked(ranked, max), at)
  {
    if ranked == [] {
      at := [];
    } else {
      var front, last := ranked[..|ranked| - 1], |ranked| - 1;
      at := PickedIsGreedy(front, max);
      SizeGrows(Picked(front, max), ranked[last]);
      PickOneMore(ranked, max, Picked(front, max), at);
      if Size(Picked(front, max) + [ranked[last]]) <= max {
        at := at + [last];
      }
    }
  }

  lemma {:induction false} JoinedLinesSplit(lines: seq<string>)
    requires lines != [] && forall l :: l in lines ==> OneLine(l)
    ensures Split(Join(lines)) == lines
  {
    SplitOneLine(lines[0]);
    if |lines| > 1 {
      JoinedLinesSplit(lines[1..]);
      SplitAt(lines[0], Join(lines[1..]));
      assert lines == [lines[0]] + lines[1..];
    }
  }

  /** The lines of the block are its facts, each one whole. */
  lemma BlockHoldsWholeFacts(picked: seq<UserFact>)
    requires picked != [] && forall f :: f in picked ==> OneLine(f.content)
    ensures Split(Join(LinesOf(picked))) == LinesOf(picked)
  {
    var lines := LinesOf(picked);
    forall l | l in lines
      ensures OneLine(l)
    {
      var i :| 0 <= i < |lines| && lines[i] == l;
      assert picked[i] in picked;
      assert l == "- " + picked[i].content;
    }
    JoinedLinesSplit(lines);
  }
}
