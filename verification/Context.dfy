/** Trimming a history to a token budget. The cost of a message is any natural number, and costs add up. */
module Context {
  import opened Messages
  import Repair

  type CostOfMessage = Message -> nat

  datatype ContextTrim = ContextTrim(
    messages: seq<Message>, dropped: int, before: int, after: int, overBudget: bool)

  function EstimateTokens(cost: CostOfMessage, ms: seq<Message>): nat {
    if ms == [] then 0 else cost(ms[0]) + EstimateTokens(cost, ms[1..])
  }

  // Indivisible units

  function LeadingTools(ms: seq<Message>): (n: nat)
    ensures n <= |ms|
    ensures forall k :: 0 <= k < n ==> ms[k].Tool?
    ensures n < |ms| ==> !ms[n].Tool?
  {
    if ms != [] && ms[0].Tool? then 1 + LeadingTools(ms[1..]) else 0
  }

  /** An assistant message with tool calls takes the replies right after it; any other message stands alone. */
  function UnitLength(ms: seq<Message>): (n: nat)
    requires ms != []
    ensures 1 <= n <= |ms|
    ensures forall k :: 0 < k < n ==> ms[k].Tool?
    ensures if Calls(ms[0]) then n < |ms| ==> !ms[n].Tool? else n == 1
  {
    if Calls(ms[0]) then 1 + LeadingTools(ms[1..]) else 1
  }

  function UnitsOf(ms: seq<Message>): (units: seq<seq<Message>>)
    ensures ms != [] ==> units != []
  {
    if ms == [] then [] else [ms[..UnitLength(ms)]] + UnitsOf(ms[UnitLength(ms)..])
  }

  function Flatten(units: seq<seq<Message>>): seq<Message> {
    if units == [] then [] else units[0] + Flatten(units[1..])
  }

  function Costs(cost: CostOfMessage, units: seq<seq<Message>>): (costs: seq<nat>) {
    seq(|units|, i requires 0 <= i < |units| => EstimateTokens(cost, units[i]))
  }

  /** A unit that starts on a user message. */
  predicate Opens(unit: seq<Message>) {
    unit != [] && unit[0].Human?
  }

  // What is kept: the units from head to anchor, and those from tail on

  datatype Window = Window(head: nat, anchor: nat, tail: nat)

  function Total(costs: seq<nat>, lo: nat, hi: nat): nat
    requires lo <= hi <= |costs|
    decreases hi - lo
  {
    if lo == hi then 0 else costs[lo] + Total(costs, lo + 1, hi)
  }

  predicate Within(n: nat, w: Window) {
    w.head <= w.anchor < w.tail <= n
  }

  function Weight(costs: seq<nat>, w: Window): nat
    requires Within(|costs|, w)
  {
    Total(costs, w.head, w.anchor + 1) + Total(costs, w.tail, |costs|)
  }

  /** The latest user message, or the newest unit where there is none. */
  predicate IsAnchor(units: seq<seq<Message>>, anchor: nat) {
    && anchor < |units|
    && (forall k :: anchor < k < |units| ==> !Opens(units[k]))
    && (Opens(units[anchor]) || (anchor == |units| - 1 && forall u :: u in units ==> !Opens(u)))
  }

  /**
   The current turn is cut to the newest units that fit together with the
   anchor, but never below the newest one.
   */
  predicate IsTail(costs: seq<nat>, room: int, anchor: nat, tail: nat)
    requires anchor < tail <= |costs|
  {
    && (tail == |costs| ==> anchor + 1 == |costs|)
    && (tail + 1 < |costs| ==> Weight(costs, Window(anchor, anchor, tail)) <= room)
    && (forall t :: anchor < t < tail && t < |costs| ==> Weight(costs, Window(anchor, anchor, t)) > room)
  }

  /** Earlier history, once the whole current turn is kept: from the first user message from which everything fits. */
  predicate IsHead(units: seq<seq<Message>>, costs: seq<nat>, room: int, w: Window)
    requires |units| == |costs| && Within(|costs|, w)
  {
    && (w.head < w.anchor ==>
          w.tail == w.anchor + 1 && Opens(units[w.head]) && Weight(costs, w) <= room)
    && (w.tail == w.anchor + 1 ==>
          forall h :: 0 <= h < w.head && Opens(units[h]) ==> Weight(costs, w.(head := h)) > room)
  }

  predicate IsWindow(units: seq<seq<Message>>, costs: seq<nat>, room: int, w: Window)
    requires |units| == |costs|
  {
    && Within(|units|, w)
    && IsAnchor(units, w.anchor)
    && IsTail(costs, room, w.anchor, w.tail)
    && IsHead(units, costs, room, w)
  }

  function Kept(units: seq<seq<Message>>, w: Window): seq<Message>
    requires Within(|units|, w)
  {
    Flatten(units[w.head..w.anchor + 1] + units[w.tail..])
  }

  predicate Untouched(cost: CostOfMessage, history: seq<Message>, max: int, fixed: int) {
    fixed + EstimateTokens(cost, history) <= max || history == []
  }

  /** What the trimming rules ask of its outcome. */
  ghost predicate IsTrim(cost: CostOfMessage, history: seq<Message>, max: int, fixed: int, trim: ContextTrim) {
    && trim.before == fixed + EstimateTokens(cost, history)
    && trim.after == fixed + EstimateTokens(cost, trim.messages)
    && trim.dropped == |history| - |trim.messages|
    && trim.overBudget == (trim.after > max)
    && (Untouched(cost, history, max, fixed) ==> trim.messages == history)
    && (!Untouched(cost, history, max, fixed) ==>
          var units := UnitsOf(history);
          exists w :: IsWindow(units, Costs(cost, units), max - fixed, w) && trim.messages == Kept(units, w))
  }

  // The algorithm

  method Units(history: seq<Message>) returns (units: seq<seq<Message>>)
    ensures units == UnitsOf(history)
  {
    units := [];
    var index := 0;
    assert history[0..] == history;
    while index < |history|
      invariant 0 <= index <= |history|
      invariant UnitsOf(history) == units + UnitsOf(history[index..])
    {
      var unit, next := TakeUnit(history, index);
      UnitsStep(history, index, next);
      units := units + [unit];
      index := next;
    }
  }

  method TakeUnit(history: seq<Message>, start: nat) returns (unit: seq<Message>, index: nat)
    requires start < |history|
    ensures start < index <= |history| && UnitLength(history[start..]) == index - start
    ensures unit == history[start..index]
  {
    unit := [history[start]];
    index := start + 1;
    if Calls(history[start]) {
      while index < |history| && history[index].Tool?
        invariant start < index <= |history|
        invariant unit == history[start..index]
        invariant forall k :: start < k < index ==> history[k].Tool?
      {
        unit := unit + [history[index]];
        index := index + 1;
      }
    }
    UnitIs(history, start, index);
  }

  lemma UnitIs(history: seq<Message>, start: nat, index: nat)
    requires start < index <= |history| && forall k :: start < k < index ==> history[k].Tool?
    requires if Calls(history[start]) then index < |history| ==> !history[index].Tool? else index == start + 1
    ensures UnitLength(history[start..]) == index - start
  {
    var ms, n := history[start..], index - start;
    assert forall k :: 0 <= k < |ms| ==> ms[k] == history[start + k];
  }

  lemma UnitsStep(history: seq<Message>, start: nat, index: nat)
    requires start < index <= |history| && UnitLength(history[start..]) == index - start
    ensures UnitsOf(history[start..]) == [history[start..index]] + UnitsOf(history[index..])
  {
    assert history[start..][..index - start] == history[start..index];
    assert history[start..][index - start..] == history[index..];
  }

  method LatestOpening(units: seq<seq<Message>>) returns (anchor: nat)
    requires units != []
    ensures IsAnchor(units, anchor)
  {
    var i := |units| - 1;
    while i >= 0
      invariant -1 <= i < |units|
      invariant forall k :: i < k < |units| ==> !Opens(units[k])
    {
      if Opens(units[i]) {
        return i;
      }
      i := i - 1;
    }
    anchor := |units| - 1;
  }

  method ChooseTail(costs: seq<nat>, anchor: nat, room: int) returns (tail: nat, remaining: int)
    requires anchor < |costs|
    ensures anchor < tail <= |costs| && IsTail(costs, room, anchor, tail)
    ensures remaining == room - Weight(costs, Window(anchor, anchor, tail))
  {
    remaining := room - costs[anchor];
    tail := |costs|;
    if tail > anchor + 1 {
      tail := tail - 1;
      remaining := remaining - costs[tail];
      assert Total(costs, tail, |costs|) == costs[tail];
    }
    assert Total(costs, anchor, anchor + 1) == costs[anchor];
    while tail > anchor + 1 && costs[tail - 1] <= remaining
      invariant anchor < tail <= |costs|
      invariant tail == |costs| ==> anchor + 1 == |costs|
      invariant tail + 1 < |costs| ==> remaining >= 0
      invariant remaining == room - Weight(costs, Window(anchor, anchor, tail))
    {
      tail := tail - 1;
      remaining := remaining - costs[tail];
    }
    forall t | anchor < t < tail && t < |costs|
      ensures Weight(costs, Window(anchor, anchor, t)) > room
    {
      TotalGrows(costs, t, tail - 1, |costs|);
    }
  }

  method ChooseHead(units: seq<seq<Message>>, costs: seq<nat>, anchor: nat, tail: nat, room: int, left: int)
    returns (head: nat)
    requires |units| == |costs| && anchor < tail <= |costs| && IsAnchor(units, anchor)
    requires left == room - Weight(costs, Window(anchor, anchor, tail))
    ensures head <= anchor && IsHead(units, costs, room, Window(head, anchor, tail))
  {
    head := anchor;
    if tail == anchor + 1 {
      var remaining := left;
      while head > 0 && costs[head - 1] <= remaining
        invariant head <= anchor
        invariant remaining == room - Weight(costs, Window(head, anchor, tail))
        invariant head < anchor ==> remaining >= 0
      {
        head := head - 1;
        remaining := remaining - costs[head];
      }
      ghost var low := head;
      forall h | 0 <= h < low
        ensures Weight(costs, Window(h, anchor, tail)) > room
      {
        TotalGrows(costs, h, low - 1, anchor + 1);
      }
      while head < anchor && !Opens(units[head])
        invariant low <= head <= anchor
        invariant forall h :: low <= h < head ==> !Opens(units[h])
      {
        head := head + 1;
      }
      TotalGrows(costs, low, head, anchor + 1);
    }
  }

  method TrimHistory(cost: CostOfMessage, history: seq<Message>, max: int, fixed: int) returns (trim: ContextTrim)
    ensures IsTrim(cost, history, max, fixed, trim)
  {
    var before := fixed + EstimateTokens(cost, history);
    if before <= max || history == [] {
      return ContextTrim(history, 0, before, before, before > max);
    }
    var units := Units(history);
    var costs := Costs(cost, units);
    var anchor := LatestOpening(units);
    var room := max - fixed;
    var tail, remaining := ChooseTail(costs, anchor, room);
    var head := ChooseHead(units, costs, anchor, tail, room, remaining);
    var w := Window(head, anchor, tail);
    var kept := Kept(units, w);
    var after := fixed + EstimateTokens(cost, kept);
    assert IsWindow(units, costs, room, w);
    trim := ContextTrim(kept, |history| - |kept|, before, after, after > max);
  }

  // Sums

  lemma {:induction false} TotalGrows(costs: seq<nat>, lo: nat, mid: nat, hi: nat)
    requires lo <= mid <= hi <= |costs|
    ensures Total(costs, lo, hi) == Total(costs, lo, mid) + Total(costs, mid, hi)
    decreases mid - lo
  {
    if lo < mid {
      TotalGrows(costs, lo + 1, mid, hi);
    }
  }

  lemma {:induction false} EstimateAppend(cost: CostOfMessage, a: seq<Message>, b: seq<Message>)
    ensures EstimateTokens(cost, a + b) == EstimateTokens(cost, a) + EstimateTokens(cost, b)
  {
    if a == [] {
      assert a + b == b;
    } else {
      assert (a + b)[1..] == a[1..] + b;
      EstimateAppend(cost, a[1..], b);
    }
  }

  lemma {:induction false} FlattenAppend(a: seq<seq<Message>>, b: seq<seq<Message>>)
    ensures Flatten(a + b) == Flatten(a) + Flatten(b)
  {
    if a == [] {
      assert a + b == b;
    } else {
      assert (a + b)[1..] == a[1..] + b;
      FlattenAppend(a[1..], b);
    }
  }

  lemma {:induction false} EstimateOfUnits(cost: CostOfMessage, units: seq<seq<Message>>, lo: nat, hi: nat)
    requires lo <= hi <= |units|
    ensures EstimateTokens(cost, Flatten(units[lo..hi])) == Total(Costs(cost, units), lo, hi)
    decreases hi - lo
  {
    if lo < hi {
      assert units[lo..hi][0] == units[lo] && units[lo..hi][1..] == units[lo + 1..hi];
      EstimateAppend(cost, units[lo], Flatten(units[lo + 1..hi]));
      EstimateOfUnits(cost, units, lo + 1, hi);
    }
  }

  lemma KeptWeighs(cost: CostOfMessage, units: seq<seq<Message>>, w: Window)
    requires Within(|units|, w)
    ensures EstimateTokens(cost, Kept(units, w)) == Weight(Costs(cost, units), w)
  {
    var head, tail := units[w.head..w.anchor + 1], units[w.tail..|units|];
    assert units[w.tail..] == tail;
    FlattenAppend(head, tail);
    EstimateAppend(cost, Flatten(head), Flatten(tail));
    EstimateOfUnits(cost, units, w.head, w.anchor + 1);
    EstimateOfUnits(cost, units, w.tail, |units|);
  }

  lemma FlattenFirst(unit: seq<Message>, units: seq<seq<Message>>)
    ensures Flatten([unit] + units) == unit + Flatten(units)
  {
    assert ([unit] + units)[1..] == units;
  }

  lemma FlattenCut(ms: seq<Message>, n: nat, units: seq<seq<Message>>)
    requires n <= |ms| && Flatten(units) == ms[n..]
    ensures Flatten([ms[..n]] + units) == ms
  {
    FlattenFirst(ms[..n], units);
  }

  lemma {:induction false} UnitsAreTheHistory(ms: seq<Message>)
    ensures Flatten(UnitsOf(ms)) == ms
    decreases |ms|
  {
    if ms != [] {
      var n := UnitLength(ms);
      UnitsAreTheHistory(ms[n..]);
      FlattenCut(ms, n, UnitsOf(ms[n..]));
    }
  }

  // The exact budget

  /** What is sent in any case: the anchor and the newest unit. */
  function Mandatory(costs: seq<nat>, anchor: nat): nat
    requires anchor < |costs|
  {
    costs[anchor] + if anchor + 1 < |costs| then costs[|costs| - 1] else 0
  }

  lemma WindowFitsIffMandatoryFits(units: seq<seq<Message>>, costs: seq<nat>, room: int, w: Window)
    requires |units| == |costs| && IsWindow(units, costs, room, w)
    ensures Weight(costs, w) <= room <==> Mandatory(costs, w.anchor) <= room
    ensures w.head < w.anchor ==> Weight(costs, w) <= room
  {
    var n := |costs|;
    TotalGrows(costs, w.head, w.anchor, w.anchor + 1);
    if w.tail < n {
      TotalGrows(costs, w.tail, n - 1, n);
    }
  }

  lemma MandatoryIsPart(costs: seq<nat>, anchor: nat)
    requires anchor < |costs|
    ensures Mandatory(costs, anchor) <= Total(costs, 0, |costs|)
  {
    var n := |costs|;
    TotalGrows(costs, 0, anchor, n);
    if anchor + 1 < n {
      TotalGrows(costs, anchor + 1, n - 1, n);
      assert Total(costs, n - 1, n) == costs[n - 1];
    }
  }

  lemma {:induction false} AnchorExists(units: seq<seq<Message>>) returns (anchor: nat)
    requires units != []
    ensures IsAnchor(units, anchor)
  {
    if k :| 0 <= k < |units| && Opens(units[k]) {
      anchor := LastOpening(units, k);
    } else {
      anchor := |units| - 1;
    }
  }

  lemma {:induction false} LastOpening(units: seq<seq<Message>>, k: nat) returns (anchor: nat)
    requires k < |units| && Opens(units[k])
    ensures k <= anchor < |units| && Opens(units[anchor]) && forall j :: anchor < j < |units| ==> !Opens(units[j])
    decreases |units| - k
  {
    if j :| k < j < |units| && Opens(units[j]) {
      anchor := LastOpening(units, j);
    } else {
      anchor := k;
    }
  }

  /** The least any trimming of this history sends: the latest user message and the newest unit. */
  ghost function LeastTokens(cost: CostOfMessage, history: seq<Message>): nat {
    if history == [] then 0
    else
      var units := UnitsOf(history);
      assert exists anchor :: IsAnchor(units, anchor) by { var anchor := AnchorExists(units); }
      var anchor :| IsAnchor(units, anchor);
      Mandatory(Costs(cost, units), anchor)
  }

  lemma LeastIs(cost: CostOfMessage, history: seq<Message>, anchor: nat)
    requires history != [] && IsAnchor(UnitsOf(history), anchor)
    ensures LeastTokens(cost, history) == Mandatory(Costs(cost, UnitsOf(history)), anchor)
  {
    forall a | IsAnchor(UnitsOf(history), a)
      ensures a == anchor
    {
      AnchorIsUnique(UnitsOf(history), a, anchor);
    }
  }

  lemma LeastIsPart(cost: CostOfMessage, history: seq<Message>)
    ensures LeastTokens(cost, history) <= EstimateTokens(cost, history)
  {
    if history != [] {
      var units := UnitsOf(history);
      var anchor := AnchorExists(units);
      LeastIs(cost, history, anchor);
      MandatoryIsPart(Costs(cost, units), anchor);
      UnitsAreTheHistory(history);
      assert units[0..|units|] == units;
      EstimateOfUnits(cost, units, 0, |units|);
    }
  }

  lemma TrimmedOverBudget(cost: CostOfMessage, history: seq<Message>, max: int, fixed: int, trim: ContextTrim)
    requires IsTrim(cost, history, max, fixed, trim) && !Untouched(cost, history, max, fixed)
    ensures trim.overBudget <==> fixed + LeastTokens(cost, history) > max
  {
    var units := UnitsOf(history);
    var costs := Costs(cost, units);
    var w :| IsWindow(units, costs, max - fixed, w) && trim.messages == Kept(units, w);
    KeptWeighs(cost, units, w);
    WindowFitsIffMandatoryFits(units, costs, max - fixed, w);
    LeastIs(cost, history, w.anchor);
  }

  /** A request exceeds the budget exactly when what is sent in any case does. */
  lemma OverBudgetExact(cost: CostOfMessage, history: seq<Message>, max: int, fixed: int, trim: ContextTrim)
    requires IsTrim(cost, history, max, fixed, trim)
    ensures trim.overBudget <==> fixed + LeastTokens(cost, history) > max
  {
    if Untouched(cost, history, max, fixed) {
      LeastIsPart(cost, history);
    } else {
      TrimmedOverBudget(cost, history, max, fixed, trim);
    }
  }

  lemma AnchorIsUnique(units: seq<seq<Message>>, a: nat, b: nat)
    requires IsAnchor(units, a) && IsAnchor(units, b)
    ensures a == b
  {
    assert units[a] in units && units[b] in units;
  }

  /** The rules leave no choice: there is one window. */
  lemma WindowIsUnique(units: seq<seq<Message>>, costs: seq<nat>, room: int, v: Window, w: Window)
    requires |units| == |costs| && IsWindow(units, costs, room, v) && IsWindow(units, costs, room, w)
    ensures v == w
  {
    AnchorIsUnique(units, v.anchor, w.anchor);
    TailIsLeast(costs, room, v.anchor, v.tail, w.tail);
    TailIsLeast(costs, room, v.anchor, w.tail, v.tail);
    HeadIsLeast(units, costs, room, v, w);
    HeadIsLeast(units, costs, room, w, v);
  }

  lemma TailIsLeast(costs: seq<nat>, room: int, anchor: nat, s: nat, t: nat)
    requires anchor < s <= |costs| && anchor < t <= |costs|
    requires s + 1 < |costs| ==> Weight(costs, Window(anchor, anchor, s)) <= room
    requires s == |costs| ==> anchor + 1 == |costs|
    requires IsTail(costs, room, anchor, t)
    ensures t <= s
  {
  }

  lemma HeadIsLeast(units: seq<seq<Message>>, costs: seq<nat>, room: int, v: Window, w: Window)
    requires |units| == |costs| && IsWindow(units, costs, room, w) && Within(|units|, v)
    requires v.anchor == w.anchor && v.tail == w.tail
    requires v.head < v.anchor ==> v.tail == v.anchor + 1 && Opens(units[v.head]) && Weight(costs, v) <= room
    ensures w.head <= v.head
  {
    assert w.(head := v.head) == v;
  }

  /** No other choice of the same shape that fits keeps more. */
  lemma KeepsTheMost(units: seq<seq<Message>>, costs: seq<nat>, room: int, w: Window, other: Window)
    requires |units| == |costs| && IsWindow(units, costs, room, w)
    requires Within(|units|, other) && other.anchor == w.anchor && Weight(costs, other) <= room
    requires other.tail == |costs| ==> other.anchor + 1 == |costs|
    requires other.head == other.anchor || (other.tail == other.anchor + 1 && Opens(units[other.head]))
    ensures w.tail <= other.tail && (other.head < other.anchor ==> w.head <= other.head)
  {
    TotalGrows(costs, other.head, other.anchor, other.anchor + 1);
    TailIsLeast(costs, room, w.anchor, other.tail, w.tail);
    if other.head < other.anchor {
      HeadIsLeast(units, costs, room, other, w);
    }
  }

  // The first message

  lemma {:induction false} HumanOpensUnit(ms: seq<Message>, k: nat) returns (j: nat)
    requires k < |ms| && ms[k].Human?
    ensures j < |UnitsOf(ms)| && Opens(UnitsOf(ms)[j])
    decreases |ms|
  {
    var n := UnitLength(ms);
    if k == 0 {
      j := 0;
    } else {
      var i := HumanOpensUnit(ms[n..], k - n);
      j := i + 1;
    }
  }

  lemma KeptStarts(units: seq<seq<Message>>, w: Window)
    requires Within(|units|, w) && units[w.head] != []
    ensures Kept(units, w) != [] && Kept(units, w)[0] == units[w.head][0]
  {
    assert (units[w.head..w.anchor + 1] + units[w.tail..])[0] == units[w.head];
  }

  /** A trimmed history starts on a user message, if it has one at all. */
  lemma StartsOnUserMessage(cost: CostOfMessage, history: seq<Message>, max: int, fixed: int, trim: ContextTrim, k: nat)
    requires IsTrim(cost, history, max, fixed, trim) && !Untouched(cost, history, max, fixed)
    requires k < |history| && history[k].Human?
    ensures trim.messages != [] && trim.messages[0].Human?
  {
    var units := UnitsOf(history);
    var w :| IsWindow(units, Costs(cost, units), max - fixed, w) && trim.messages == Kept(units, w);
    var j := HumanOpensUnit(history, k);
    assert units[j] in units;
    assert Opens(units[w.head]);
    KeptStarts(units, w);
  }

  // No call without its reply, no reply without its call

  lemma AnsweredUnit(ms: seq<Message>)
    requires ms != [] && Answered(ms)
    ensures Answered(ms[..UnitLength(ms)])
  {
    var unit := ms[..UnitLength(ms)];
    forall i, c | 0 <= i < |unit| && Calls(unit[i]) && c in unit[i].calls
      ensures Replied(unit, i, c.id)
    {
      assert i == 0 && unit[i] == ms[i] && Calls(ms[i]) && c in ms[i].calls && Replied(ms, i, c.id);
      var k :| i < k < |ms| && InReplyRun(ms, i, k) && ms[k].callId == c.id;
      assert k < |unit|;
      assert InReplyRun(unit, i, k);
    }
  }

  lemma AnsweredRest(ms: seq<Message>, n: nat)
    requires n <= |ms| && Answered(ms)
    ensures Answered(ms[n..])
  {
    var rest := ms[n..];
    forall i, c | 0 <= i < |rest| && Calls(rest[i]) && c in rest[i].calls
      ensures Replied(rest, i, c.id)
    {
      assert rest[i] == ms[n + i] && Calls(ms[n + i]) && c in ms[n + i].calls && Replied(ms, n + i, c.id);
      var k :| n + i < k < |ms| && InReplyRun(ms, n + i, k) && ms[k].callId == c.id;
      SuffixRun(ms, n, i, k - n);
    }
  }

  lemma SuffixRun(ms: seq<Message>, n: nat, i: nat, k: nat)
    requires n <= |ms| && InReplyRun(ms, n + i, n + k)
    ensures InReplyRun(ms[n..], i, k)
  {
    forall l | i < l <= k
      ensures ms[n..][l].Tool?
    {
      assert ms[n + l].Tool?;
    }
  }

  lemma PairedPrefix(ms: seq<Message>, n: nat)
    requires n <= |ms| && Paired(ms)
    ensures Paired(ms[..n])
  {
    var unit := ms[..n];
    forall k | 0 <= k < |unit| && unit[k].Tool?
      ensures IsPaired(unit, k)
    {
      assert ms[k].Tool? && IsPaired(ms, k);
      var i :| 0 <= i < k && Calls(ms[i]) && InReplyRun(ms, i, k) && exists c :: c in ms[i].calls && c.id == ms[k].callId;
      assert InReplyRun(unit, i, k) && unit[i] == ms[i];
    }
  }

  lemma PairedRest(ms: seq<Message>)
    requires ms != [] && Paired(ms)
    ensures Paired(ms[UnitLength(ms)..])
  {
    var n := UnitLength(ms);
    var rest := ms[n..];
    forall k | 0 <= k < |rest| && rest[k].Tool?
      ensures IsPaired(rest, k)
    {
      assert ms[n + k].Tool? && IsPaired(ms, n + k);
      PairedInRest(ms, n, k);
    }
  }

  lemma PairedInRest(ms: seq<Message>, n: nat, k: nat)
    requires ms != [] && n == UnitLength(ms) && n + k < |ms| && ms[n + k].Tool? && IsPaired(ms, n + k)
    ensures IsPaired(ms[n..], k)
  {
    var rest := ms[n..];
    var i :| 0 <= i < n + k && Calls(ms[i]) && InReplyRun(ms, i, n + k)
      && exists c :: c in ms[i].calls && c.id == ms[n + k].callId;
    RunStartsInRest(ms, i, n + k);
    SuffixRun(ms, n, i - n, k);
    hide InReplyRun, UnitLength;
    assert rest[i - n] == ms[i] && rest[k] == ms[n + k];
  }

  lemma RunStartsInRest(ms: seq<Message>, i: nat, k: nat)
    requires InReplyRun(ms, i, k) && Calls(ms[i]) && UnitLength(ms) <= k
    ensures i >= UnitLength(ms)
  {
  }

  lemma {:induction false} EachUnitAnswered(ms: seq<Message>)
    requires Answered(ms)
    ensures forall u :: u in UnitsOf(ms) ==> Answered(u)
    decreases |ms|
  {
    if ms != [] {
      AnsweredUnit(ms);
      AnsweredRest(ms, UnitLength(ms));
      EachUnitAnswered(ms[UnitLength(ms)..]);
    }
  }

  lemma {:induction false} EachUnitPaired(ms: seq<Message>)
    requires Paired(ms)
    ensures forall u :: u in UnitsOf(ms) ==> Paired(u)
    decreases |ms|
  {
    if ms != [] {
      PairedPrefix(ms, UnitLength(ms));
      PairedRest(ms);
      EachUnitPaired(ms[UnitLength(ms)..]);
    }
  }

  lemma {:induction false} FlattenAnswered(units: seq<seq<Message>>)
    requires forall u :: u in units ==> Answered(u)
    ensures Answered(Flatten(units))
  {
    if units != [] {
      FlattenAnswered(units[1..]);
      AnsweredAppend(units[0], Flatten(units[1..]));
    }
  }

  lemma {:induction false} FlattenPaired(units: seq<seq<Message>>)
    requires forall u :: u in units ==> Paired(u)
    ensures Paired(Flatten(units))
  {
    if units != [] {
      FlattenPaired(units[1..]);
      PairedAppend(units[0], Flatten(units[1..]));
    }
  }

  lemma KeptAnswered(units: seq<seq<Message>>, w: Window)
    requires Within(|units|, w) && forall u :: u in units ==> Answered(u)
    ensures Answered(Kept(units, w))
  {
    FlattenAnswered(units[w.head..w.anchor + 1] + units[w.tail..]);
  }

  lemma KeptPaired(units: seq<seq<Message>>, w: Window)
    requires Within(|units|, w) && forall u :: u in units ==> Paired(u)
    ensures Paired(Kept(units, w))
  {
    FlattenPaired(units[w.head..w.anchor + 1] + units[w.tail..]);
  }

  /** Trimming separates no call from its reply and no reply from its call. */
  lemma TrimKeepsWellFormed(cost: CostOfMessage, history: seq<Message>, max: int, fixed: int, trim: ContextTrim)
    requires IsTrim(cost, history, max, fixed, trim)
    ensures Answered(history) ==> Answered(trim.messages)
    ensures Paired(history) ==> Paired(trim.messages)
  {
    if !Untouched(cost, history, max, fixed) {
      var units := UnitsOf(history);
      var w :| IsWindow(units, Costs(cost, units), max - fixed, w) && trim.messages == Kept(units, w);
      if Answered(history) {
        EachUnitAnswered(history);
        KeptAnswered(units, w);
      }
      if Paired(history) {
        EachUnitPaired(history);
        KeptPaired(units, w);
      }
    }
  }

  /** Whatever a turn left behind: once repaired and trimmed, every call is answered, and no reply lost its call. */
  lemma RepairThenTrimIsValid(cost: CostOfMessage, ms: seq<Message>, reason: string, max: int, fixed: int, trim: ContextTrim)
    requires IsTrim(cost, Repair.Closed(ms, reason), max, fixed, trim)
    ensures Answered(trim.messages)
    ensures Paired(ms) ==> Paired(trim.messages)
  {
    Repair.RepairAnswers(ms, reason);
    if Paired(ms) {
      Repair.RepairKeepsPairing(ms, reason);
    }
    TrimKeepsWellFormed(cost, Repair.Closed(ms, reason), max, fixed, trim);
  }

  /** What is kept are two stretches of the history, in order: nothing is moved, repeated or changed. */
  lemma KeptAreTwoStretches(cost: CostOfMessage, history: seq<Message>, max: int, fixed: int, trim: ContextTrim)
    returns (before: seq<Message>, head: seq<Message>, gap: seq<Message>, tail: seq<Message>)
    requires IsTrim(cost, history, max, fixed, trim)
    ensures history == before + (head + (gap + tail)) && trim.messages == head + tail
  {
    if Untouched(cost, history, max, fixed) {
      before, head, gap, tail := [], history, [], [];
    } else {
      var units := UnitsOf(history);
      var w :| IsWindow(units, Costs(cost, units), max - fixed, w) && trim.messages == Kept(units, w);
      UnitsAreTheHistory(history);
      before, head, gap, tail := Stretches(units, w);
    }
  }

  lemma Stretches(units: seq<seq<Message>>, w: Window)
    returns (before: seq<Message>, head: seq<Message>, gap: seq<Message>, tail: seq<Message>)
    requires Within(|units|, w)
    ensures Flatten(units) == before + (head + (gap + tail)) && Kept(units, w) == head + tail
  {
    var b, h, g, t := units[..w.head], units[w.head..w.anchor + 1], units[w.anchor + 1..w.tail], units[w.tail..];
    assert units == b + (h + (g + t));
    FlattenAppend(b, h + (g + t));
    FlattenAppend(h, g + t);
    FlattenAppend(g, t);
    FlattenAppend(h, t);
    before, head, gap, tail := Flatten(b), Flatten(h), Flatten(g), Flatten(t);
  }
}
