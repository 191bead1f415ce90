/** A conversation and what providers ask of its tool calls. */
module Messages {

  datatype ToolCall = ToolCall(id: string, name: string, args: string)

  datatype Message =
    | System(text: string)
    | Human(text: string)
    | Assistant(text: string, calls: seq<ToolCall>)
    | Tool(callId: string, failed: bool, text: string)

  predicate Calls(m: Message) {
    m.Assistant? && m.calls != []
  }

  /** Position k belongs to the run of tool replies right after position i. */
  predicate InReplyRun(ms: seq<Message>, i: nat, k: nat) {
    i < k < |ms| && forall l :: i < l <= k ==> ms[l].Tool?
  }

  /** A reply to this id stands in the run right after position i. */
  predicate Replied(ms: seq<Message>, i: nat, id: string) {
    exists k :: i < k < |ms| && InReplyRun(ms, i, k) && ms[k].callId == id
  }

  /** Every tool call is answered in the reply run right after it. */
  predicate Answered(ms: seq<Message>) {
    forall i, c :: 0 <= i < |ms| && Calls(ms[i]) && c in ms[i].calls ==> Replied(ms, i, c.id)
  }

  /** Every tool reply stands in the run right after the call it answers. */
  predicate Paired(ms: seq<Message>) {
    forall k :: 0 <= k < |ms| && ms[k].Tool? ==> IsPaired(ms, k)
  }

  predicate IsPaired(ms: seq<Message>, k: nat)
    requires k < |ms| && ms[k].Tool?
  {
    exists i :: 0 <= i < k && Calls(ms[i]) && InReplyRun(ms, i, k) && exists c :: c in ms[i].calls && c.id == ms[k].callId
  }

  // Joining histories

  lemma AnsweredAppend(a: seq<Message>, b: seq<Message>)
    requires Answered(a) && Answered(b)
    ensures Answered(a + b)
  {
    var both := a + b;
    forall i, c | 0 <= i < |both| && Calls(both[i]) && c in both[i].calls
      ensures Replied(both, i, c.id)
    {
      if i < |a| {
        assert both[i] == a[i] && Calls(a[i]) && c in a[i].calls && Replied(a, i, c.id);
        var k :| i < k < |a| && InReplyRun(a, i, k) && a[k].callId == c.id;
        assert InReplyRun(both, i, k);
      } else {
        assert both[i] == b[i - |a|] && Calls(b[i - |a|]) && c in b[i - |a|].calls && Replied(b, i - |a|, c.id);
        var k :| i - |a| < k < |b| && InReplyRun(b, i - |a|, k) && b[k].callId == c.id;
        RunInSum(a, b, i - |a|, k);
      }
    }
  }

  lemma PairedAppend(a: seq<Message>, b: seq<Message>)
    requires Paired(a) && Paired(b)
    ensures Paired(a + b)
  {
    var both := a + b;
    forall k | 0 <= k < |both| && both[k].Tool?
      ensures IsPaired(both, k)
    {
      if k < |a| {
        assert both[k] == a[k] && IsPaired(a, k);
        var i :| 0 <= i < k && Calls(a[i]) && InReplyRun(a, i, k) && exists c :: c in a[i].calls && c.id == a[k].callId;
        assert InReplyRun(both, i, k) && both[i] == a[i];
      } else {
        assert both[k] == b[k - |a|] && IsPaired(b, k - |a|);
        var i :| 0 <= i < k - |a| && Calls(b[i]) && InReplyRun(b, i, k - |a|)
          && exists c :: c in b[i].calls && c.id == b[k - |a|].callId;
        RunInSum(a, b, i, k - |a|);
        assert both[|a| + i] == b[i];
      }
    }
  }

  lemma RunInSum(a: seq<Message>, b: seq<Message>, i: nat, k: nat)
    requires InReplyRun(b, i, k)
    ensures InReplyRun(a + b, |a| + i, |a| + k)
  {
    forall l | |a| + i < l <= |a| + k
      ensures (a + b)[l].Tool?
    {
      assert b[l - |a|].Tool?;
    }
  }
}
