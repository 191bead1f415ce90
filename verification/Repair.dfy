/** Answering the tool calls that a cut-off turn left without a reply. */
module Repair {
  import opened Messages

  function Interruption(call: ToolCall, reason: string): Message {
    Tool(call.id, true, "Tool call interrupted: " + reason)
  }

  /** An error reply for every call of position i that has none, in call order. */
  function Interruptions(ms: seq<Message>, i: nat, calls: seq<ToolCall>, reason: string): seq<Message> {
    if calls == [] then []
    else
      var rest := Interruptions(ms, i, calls[..|calls| - 1], reason);
      var last := calls[|calls| - 1];
      if Replied(ms, i, last.id) then rest else rest + [Interruption(last, reason)]
  }

  function InsertedAfter(ms: seq<Message>, i: nat, reason: string): seq<Message>
    requires i < |ms|
  {
    if Calls(ms[i]) then Interruptions(ms, i, ms[i].calls, reason) else []
  }

  /** The first n messages, each followed by the replies it lacks. */
  function ClosedUpTo(ms: seq<Message>, n: nat, reason: string): seq<Message>
    requires n <= |ms|
  {
    if n == 0 then []
    else ClosedUpTo(ms, n - 1, reason) + [ms[n - 1]] + InsertedAfter(ms, n - 1, reason)
  }

  function Closed(ms: seq<Message>, reason: string): seq<Message> {
    ClosedUpTo(ms, |ms|, reason)
  }

  /** Where message i stands after the repair. */
  function Place(ms: seq<Message>, i: nat, reason: string): nat
    requires i <= |ms|
  {
    |ClosedUpTo(ms, i, reason)|
  }

  method RepliedIds(ms: seq<Message>, i: nat) returns (ids: set<string>)
    requires i < |ms|
    ensures forall id :: id in ids <==> Replied(ms, i, id)
  {
    ids := {};
    var k := i + 1;
    while k < |ms| && ms[k].Tool?
      invariant i < k <= |ms|
      invariant forall l :: i < l < k ==> ms[l].Tool?
      invariant forall id :: id in ids <==> exists l :: i < l < k && ms[l].Tool? && ms[l].callId == id
    {
      ids := ids + {ms[k].callId};
      k := k + 1;
    }
    forall id
      ensures id in ids <==> Replied(ms, i, id)
    {
      if id in ids {
        var l :| i < l < k && ms[l].callId == id;
        assert InReplyRun(ms, i, l);
      }
      if Replied(ms, i, id) {
        var l :| i < l < |ms| && InReplyRun(ms, i, l) && ms[l].callId == id;
        assert l < k;
      }
    }
  }

  /** Answers every tool call that has no reply, right after its message. */
  method CloseUnansweredToolCalls(ms: seq<Message>, reason: string) returns (closed: seq<Message>)
    ensures closed == Closed(ms, reason)
  {
    closed := [];
    for i := 0 to |ms|
      invariant closed == ClosedUpTo(ms, i, reason)
    {
      closed := closed + [ms[i]];
      if Calls(ms[i]) {
        var missing := MissingReplies(ms, i, reason);
        closed := closed + missing;
      }
    }
  }

  /** An error reply for each call of the message that has none. */
  method MissingReplies(ms: seq<Message>, i: nat, reason: string) returns (missing: seq<Message>)
    requires i < |ms| && Calls(ms[i])
    ensures missing == InsertedAfter(ms, i, reason)
  {
    var replied := RepliedIds(ms, i);
    missing := [];
    var calls := ms[i].calls;
    for j := 0 to |calls|
      invariant missing == Interruptions(ms, i, calls[..j], reason)
    {
      assert calls[..j + 1][..j] == calls[..j];
      if calls[j].id !in replied {
        missing := missing + [Interruption(calls[j], reason)];
      }
    }
    assert calls[..|calls|] == calls;
  }

  // Originals stay, in order

  /** Every reply the repair writes answers a call that had none. */
  lemma {:induction false} AddedFor(ms: seq<Message>, i: nat, calls: seq<ToolCall>, reason: string, x: nat)
    returns (c: ToolCall)
    requires x < |Interruptions(ms, i, calls, reason)|
    ensures c in calls && !Replied(ms, i, c.id)
    ensures Interruptions(ms, i, calls, reason)[x] == Interruption(c, reason)
  {
    var front, last := calls[..|calls| - 1], calls[|calls| - 1];
    if x < |Interruptions(ms, i, front, reason)| {
      c := AddedFor(ms, i, front, reason, x);
    } else {
      c := last;
    }
  }

  /** Every call that had no reply is given one. */
  lemma {:induction false} AddedAt(ms: seq<Message>, i: nat, calls: seq<ToolCall>, reason: string, c: ToolCall)
    returns (x: nat)
    requires c in calls && !Replied(ms, i, c.id)
    ensures x < |Interruptions(ms, i, calls, reason)|
    ensures Interruptions(ms, i, calls, reason)[x] == Interruption(c, reason)
  {
    var front, last := calls[..|calls| - 1], calls[|calls| - 1];
    if c == last {
      x := |Interruptions(ms, i, front, reason)|;
    } else {
      assert calls == front + [last];
      x := AddedAt(ms, i, front, reason, c);
    }
  }

  lemma {:induction false} ClosedPrefix(ms: seq<Message>, i: nat, n: nat, reason: string) returns (rest: seq<Message>)
    requires i <= n <= |ms|
    ensures ClosedUpTo(ms, n, reason) == ClosedUpTo(ms, i, reason) + rest
    decreases n
  {
    if i == n {
      rest := [];
    } else {
      var front := ClosedPrefix(ms, i, n - 1, reason);
      rest := front + [ms[n - 1]] + InsertedAfter(ms, n - 1, reason);
    }
  }

  /** Message i stands at its place, followed up to the place of the next one by the replies it lacked. */
  lemma OriginalsStay(ms: seq<Message>, i: nat, reason: string)
    requires i < |ms|
    ensures Place(ms, i, reason) < Place(ms, i + 1, reason) <= |Closed(ms, reason)|
    ensures Closed(ms, reason)[Place(ms, i, reason)] == ms[i]
    ensures Closed(ms, reason)[Place(ms, i, reason) + 1..Place(ms, i + 1, reason)] == InsertedAfter(ms, i, reason)
  {
    var rest := ClosedPrefix(ms, i + 1, |ms|, reason);
    var before, inserted := ClosedUpTo(ms, i, reason), InsertedAfter(ms, i, reason);
    SlicesOfSum(before, ms[i], inserted, rest);
  }

  lemma SlicesOfSum(before: seq<Message>, m: Message, inserted: seq<Message>, rest: seq<Message>)
    ensures (before + [m] + inserted + rest)[|before|] == m
    ensures (before + [m] + inserted + rest)[|before| + 1..|before + [m] + inserted|] == inserted
  {
  }

  /** Every position of the repaired history belongs to one original. */
  lemma {:induction false} OriginOf(ms: seq<Message>, n: nat, j: nat, reason: string) returns (i: nat)
    requires n <= |ms| && j < Place(ms, n, reason)
    ensures i < n && Place(ms, i, reason) <= j < Place(ms, i + 1, reason)
    decreases n
  {
    assert Place(ms, 0, reason) == 0;
    hide ClosedUpTo;
    if j < Place(ms, n - 1, reason) {
      i := OriginOf(ms, n - 1, j, reason);
    } else {
      i := n - 1;
    }
  }

  lemma NextPlace(ms: seq<Message>, i: nat, reason: string)
    requires i < |ms|
    ensures Place(ms, i + 1, reason) == Place(ms, i, reason) + 1 + |InsertedAfter(ms, i, reason)|
    ensures ms[i].Tool? ==> Place(ms, i + 1, reason) == Place(ms, i, reason) + 1
  {
  }

  lemma InsertedStands(ms: seq<Message>, i: nat, x: nat, reason: string)
    requires i < |ms| && x < |InsertedAfter(ms, i, reason)|
    ensures Place(ms, i, reason) + 1 + x < Place(ms, i + 1, reason) <= |Closed(ms, reason)|
    ensures Closed(ms, reason)[Place(ms, i, reason) + 1 + x] == InsertedAfter(ms, i, reason)[x]
  {
    OriginalsStay(ms, i, reason);
    var p, q := Place(ms, i, reason), Place(ms, i + 1, reason);
    assert Closed(ms, reason)[p + 1..q][x] == InsertedAfter(ms, i, reason)[x];
  }

  lemma InsertedFor(ms: seq<Message>, i: nat, x: nat, reason: string) returns (c: ToolCall)
    requires i < |ms| && x < |InsertedAfter(ms, i, reason)|
    ensures Calls(ms[i]) && c in ms[i].calls && !Replied(ms, i, c.id)
    ensures InsertedAfter(ms, i, reason)[x] == Interruption(c, reason)
  {
    c := AddedFor(ms, i, ms[i].calls, reason, x);
  }

  /** What the repair adds is nothing but error replies to calls that had none. */
  lemma OnlyInterruptionsAdded(ms: seq<Message>, i: nat, j: nat, reason: string) returns (c: ToolCall)
    requires i < |ms| && Place(ms, i, reason) < j < Place(ms, i + 1, reason)
    ensures Place(ms, i + 1, reason) <= |Closed(ms, reason)| && Calls(ms[i])
    ensures c in ms[i].calls && !Replied(ms, i, c.id) && Closed(ms, reason)[j] == Interruption(c, reason)
  {
    hide *;
    NextPlace(ms, i, reason);
    var x := j - Place(ms, i, reason) - 1;
    c := InsertedFor(ms, i, x, reason);
    InsertedStands(ms, i, x, reason);
  }

  // The repair, by what it leaves and what it adds

  /** added has one error reply for each of the calls without a reply, in call order; from are the places of these calls. */
  predicate Fills(ms: seq<Message>, i: nat, calls: seq<ToolCall>, added: seq<Message>, from: seq<nat>, reason: string) {
    && |from| == |added|
    && (forall x, y :: 0 <= x < y < |from| ==> from[x] < from[y])
    && (forall x :: 0 <= x < |from| ==>
          && from[x] < |calls| && !Replied(ms, i, calls[from[x]].id)
          && added[x] == Tool(calls[from[x]].id, true, "Tool call interrupted: " + reason))
    && (forall p: nat :: p < |calls| && !Replied(ms, i, calls[p].id) ==> p in from)
  }

  ghost predicate Filled(ms: seq<Message>, i: nat, calls: seq<ToolCall>, added: seq<Message>, reason: string) {
    exists from :: Fills(ms, i, calls, added, from, reason)
  }

  function CallsOf(m: Message): seq<ToolCall> {
    if Calls(m) then m.calls else []
  }

  /** Message i stands at lo, and up to hi what answers its calls that had no reply. */
  ghost predicate StandsFilled(ms: seq<Message>, i: nat, out: seq<Message>, lo: nat, hi: nat, reason: string)
    requires i < |ms|
  {
    && lo < hi <= |out| && out[lo] == ms[i]
    && Filled(ms, i, CallsOf(ms[i]), out[lo + 1..hi], reason)
  }

  /** out is the messages in order, each followed by what answers its calls that had no reply, and nothing else. */
  ghost predicate FilledIn(ms: seq<Message>, out: seq<Message>, places: seq<nat>, reason: string) {
    && |places| == |ms| + 1 && places[0] == 0 && places[|ms|] == |out|
    && forall i :: 0 <= i < |ms| ==> StandsFilled(ms, i, out, places[i], places[i + 1], reason)
  }

  lemma FillsOneMore(ms: seq<Message>, i: nat, calls: seq<ToolCall>, c: ToolCall, added: seq<Message>, from: seq<nat>, reason: string)
    requires Fills(ms, i, calls, added, from, reason)
    ensures
      if Replied(ms, i, c.id) then Fills(ms, i, calls + [c], added, from, reason)
      else Fills(ms, i, calls + [c], added + [Interruption(c, reason)], from + [|calls|], reason)
  {
    assert forall p: nat :: p < |calls| + 1 ==> (calls + [c])[p] == if p < |calls| then calls[p] else c;
    assert |calls| in from + [|calls|] && forall p :: p in from ==> p in from + [|calls|];
  }

  lemma {:induction false} InterruptionsFill(ms: seq<Message>, i: nat, calls: seq<ToolCall>, reason: string)
    returns (from: seq<nat>)
    ensures Fills(ms, i, calls, Interruptions(ms, i, calls, reason), from, reason)
  {
    if calls == [] {
      from := [];
    } else {
      hide Fills, Replied;
      var front, last := calls[..|calls| - 1], calls[|calls| - 1];
      assert front + [last] == calls;
      from := InterruptionsFill(ms, i, front, reason);
      FillsOneMore(ms, i, front, last, Interruptions(ms, i, front, reason), from, reason);
      from := if Replied(ms, i, last.id) then from else from + [|front|];
    }
  }

  /** All originals in order, and right after each one error reply for each of its calls that had none. */
  lemma RepairFillsIn(ms: seq<Message>, reason: string) returns (places: seq<nat>)
    ensures FilledIn(ms, Closed(ms, reason), places, reason)
  {
    places := seq(|ms| + 1, i requires 0 <= i <= |ms| => Place(ms, i, reason));
    forall i | 0 <= i < |ms|
      ensures StandsFilled(ms, i, Closed(ms, reason), places[i], places[i + 1], reason)
    {
      StaysFilled(ms, i, reason);
    }
  }

  lemma StaysFilled(ms: seq<Message>, i: nat, reason: string)
    requires i < |ms|
    ensures StandsFilled(ms, i, Closed(ms, reason), Place(ms, i, reason), Place(ms, i + 1, reason), reason)
  {
    OriginalsStay(ms, i, reason);
    var from := InterruptionsFill(ms, i, CallsOf(ms[i]), reason);
    assert InsertedAfter(ms, i, reason) == Interruptions(ms, i, CallsOf(ms[i]), reason);
    hide Fills, Replied, Interruptions;
  }

  // Every call is answered

  /** Nothing is inserted inside a run of tool replies. */
  lemma RunIsCopied(ms: seq<Message>, i: nat, k: nat, reason: string)
    requires InReplyRun(ms, i, k)
    ensures Place(ms, k, reason) == Place(ms, i + 1, reason) + (k - i - 1)
  {
    var places := seq(|ms| + 1, j requires 0 <= j <= |ms| => Place(ms, j, reason));
    forall j | i < j < k
      ensures places[j + 1] == places[j] + 1
    {
      NextPlace(ms, j, reason);
    }
    StepByStep(places, i + 1, k);
  }

  lemma {:induction false} StepByStep(places: seq<nat>, lo: nat, hi: nat)
    requires lo <= hi < |places| && forall j :: lo <= j < hi ==> places[j + 1] == places[j] + 1
    ensures places[hi] == places[lo] + (hi - lo)
    decreases hi
  {
    if lo < hi {
      StepByStep(places, lo, hi - 1);
      assert places[hi - 1 + 1] == places[hi - 1] + 1;
    }
  }

  lemma CopiedReply(ms: seq<Message>, i: nat, k: nat, j: nat, reason: string)
    requires InReplyRun(ms, i, k) && Place(ms, i + 1, reason) <= j <= Place(ms, k, reason) < |Closed(ms, reason)|
    ensures Closed(ms, reason)[j].Tool?
  {
    RunIsCopied(ms, i, k, reason);
    var l := i + 1 + (j - Place(ms, i + 1, reason));
    assert InReplyRun(ms, i, l);
    RunIsCopied(ms, i, l, reason);
    OriginalsStay(ms, l, reason);
  }

  /** The run of replies right after a message is still a run after the repair. */
  lemma RunStays(ms: seq<Message>, i: nat, k: nat, reason: string)
    requires InReplyRun(ms, i, k)
    ensures Place(ms, k, reason) < |Closed(ms, reason)| && Closed(ms, reason)[Place(ms, k, reason)] == ms[k]
    ensures InReplyRun(Closed(ms, reason), Place(ms, i, reason), Place(ms, k, reason))
  {
    var closed, p, at := Closed(ms, reason), Place(ms, i, reason), Place(ms, k, reason);
    OriginalsStay(ms, i, reason);
    OriginalsStay(ms, k, reason);
    RunIsCopied(ms, i, k, reason);
    forall j | p < j <= at
      ensures closed[j].Tool?
    {
      if j < Place(ms, i + 1, reason) {
        var _ := OnlyInterruptionsAdded(ms, i, j, reason);
      } else {
        CopiedReply(ms, i, k, j, reason);
      }
    }
  }

  /** What is inserted after a message extends its run of replies. */
  lemma InsertedRun(ms: seq<Message>, i: nat, j: nat, reason: string)
    requires i < |ms| && Place(ms, i, reason) < j < Place(ms, i + 1, reason)
    ensures InReplyRun(Closed(ms, reason), Place(ms, i, reason), j)
  {
    var closed, p := Closed(ms, reason), Place(ms, i, reason);
    OriginalsStay(ms, i, reason);
    forall l | p < l <= j
      ensures closed[l].Tool?
    {
      var _ := OnlyInterruptionsAdded(ms, i, l, reason);
    }
  }

  lemma CallIsAnswered(ms: seq<Message>, i: nat, c: ToolCall, reason: string)
    requires i < |ms| && Calls(ms[i]) && c in ms[i].calls
    ensures Replied(Closed(ms, reason), Place(ms, i, reason), c.id)
  {
    if Replied(ms, i, c.id) {
      var k :| i < k < |ms| && InReplyRun(ms, i, k) && ms[k].callId == c.id;
      RunStays(ms, i, k, reason);
    } else {
      var x := AddedAt(ms, i, ms[i].calls, reason, c);
      InsertedStands(ms, i, x, reason);
      InsertedRun(ms, i, Place(ms, i, reason) + 1 + x, reason);
    }
  }

  /** After the repair every tool call is answered in the run right after it. */
  lemma RepairAnswers(ms: seq<Message>, reason: string)
    ensures Answered(Closed(ms, reason))
  {
    var closed := Closed(ms, reason);
    forall j, c | 0 <= j < |closed| && Calls(closed[j]) && c in closed[j].calls
      ensures Replied(closed, j, c.id)
    {
      var i := OriginOf(ms, |ms|, j, reason);
      OriginalsStay(ms, i, reason);
      if j != Place(ms, i, reason) {
        var _ := OnlyInterruptionsAdded(ms, i, j, reason);
      }
      CallIsAnswered(ms, i, c, reason);
    }
  }

  /** The repair leaves no reply without its call, where there was none. */
  lemma RepairKeepsPairing(ms: seq<Message>, reason: string)
    requires Paired(ms)
    ensures Paired(Closed(ms, reason))
  {
    var closed := Closed(ms, reason);
    forall j | 0 <= j < |closed| && closed[j].Tool?
      ensures IsPaired(closed, j)
    {
      var k := OriginOf(ms, |ms|, j, reason);
      OriginalsStay(ms, k, reason);
      if j == Place(ms, k, reason) {
        var i :| 0 <= i < k && Calls(ms[i]) && InReplyRun(ms, i, k) && exists c :: c in ms[i].calls && c.id == ms[k].callId;
        RunStays(ms, i, k, reason);
        OriginalsStay(ms, i, reason);
      } else {
        var c := OnlyInterruptionsAdded(ms, k, j, reason);
        InsertedRun(ms, k, j, reason);
      }
    }
  }

  lemma {:induction false} NothingMissing(ms: seq<Message>, i: nat, calls: seq<ToolCall>, reason: string)
    requires forall c :: c in calls ==> Replied(ms, i, c.id)
    ensures Interruptions(ms, i, calls, reason) == []
  {
    if calls != [] {
      NothingMissing(ms, i, calls[..|calls| - 1], reason);
    }
  }

  lemma {:induction false} AnsweredPrefixUnchanged(ms: seq<Message>, n: nat, reason: string)
    requires n <= |ms| && Answered(ms)
    ensures ClosedUpTo(ms, n, reason) == ms[..n]
  {
    if n > 0 {
      AnsweredPrefixUnchanged(ms, n - 1, reason);
      if Calls(ms[n - 1]) {
        NothingMissing(ms, n - 1, ms[n - 1].calls, reason);
      }
    }
  }

  /** A history whose calls are all answered comes back as it is. */
  lemma RepairIsIdentityOnAnswered(ms: seq<Message>, reason: string)
    requires Answered(ms)
    ensures Closed(ms, reason) == ms
  {
    AnsweredPrefixUnchanged(ms, |ms|, reason);
  }

  lemma RepairIsIdempotent(ms: seq<Message>, reason: string, again: string)
    ensures Closed(Closed(ms, reason), again) == Closed(ms, reason)
  {
    RepairAnswers(ms, reason);
    RepairIsIdentityOnAnswered(Closed(ms, reason), again);
  }
}
