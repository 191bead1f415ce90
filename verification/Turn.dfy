/**
 One turn of the agent: the model is called, its tool calls are executed, and
 so on until a reply without tool calls, a limit or a refusal ends the turn.
 What the model answers, how each tool call ends and what the budget gate says
 are free. A turn that raises or times out is a run that stops where it was.
 */
module Turn {
  import opened Common
  import opened Messages

  datatype CallUsage = CallUsage(input: int, output: int, total: int)

  datatype Config = Config(
    maxToolCalls: nat, maxToolErrors: int, toolTimeout: string, refusal: string, toolErrorReply: string)

  const LIMIT_REPLY :=
    "I could not complete this within the allowed number of steps. Please rephrase or try again."

  datatype Node = AtModel | AtTools | AtLimit | AtToolErrors | AtEnd

  /** usage has one entry per provider request of the turn; None where the provider reported nothing. */
  datatype State = State(
    messages: seq<Message>, toolCalls: int, toolErrors: int, usage: seq<Option<CallUsage>>, refused: bool, node: Node)

  /** A malformed tool call is retried without tools, unless the gate refuses the second request. */
  datatype ModelReply =
    | Replies(text: string, calls: seq<ToolCall>, usage: Option<CallUsage>)
    | Malformed(refusedRetry: bool, text: string, calls: seq<ToolCall>, usage: Option<CallUsage>)

  /** How a tool call ended. Aborting stands for an exception that carries a security or permission decision. */
  datatype Outcome = Returned(content: string) | TimedOut | Blocked(reason: string) | Failed(text: string) | Aborting

  /** refused is what the gate answers, where it is asked. */
  datatype Step =
    | CallModel(refused: bool, reply: ModelReply)
    | ExecuteTools(outcomes: seq<Outcome>)
    | LimitReached
    | ToolErrorsReached

  function Initial(messages: seq<Message>): State {
    State(messages, 0, 0, [], false, AtModel)
  }

  /** The tool calls of the last message. */
  function LastCalls(ms: seq<Message>): seq<ToolCall> {
    if ms != [] && ms[|ms| - 1].Assistant? then ms[|ms| - 1].calls else []
  }

  // The nodes

  function Route(c: Config, s: State): Node {
    if LastCalls(s.messages) == [] then AtEnd
    else if s.toolCalls >= c.maxToolCalls then AtLimit
    else AtTools
  }

  function Spoken(c: Config, s: State, m: Message, usage: seq<Option<CallUsage>>, refused: bool): State {
    var next := s.(messages := s.messages + [m], usage := usage, refused := s.refused || refused);
    next.(node := Route(c, next))
  }

  /** The gate is asked before every request of the turn but the first, which was checked before the turn. */
  function AfterModel(c: Config, s: State, refused: bool, reply: ModelReply): State {
    if s.usage != [] && refused then Spoken(c, s, Assistant(c.refusal, []), s.usage, true)
    else
      match reply
      case Replies(text, calls, usage) =>
        Spoken(c, s, Assistant(text, calls), s.usage + [usage], false)
      case Malformed(refusedRetry, text, calls, usage) =>
        if refusedRetry then Spoken(c, s, Assistant(c.refusal, []), s.usage + [None], true)
        else Spoken(c, s, Assistant(text, calls), s.usage + [None, usage], false)
  }

  function ReplyTo(c: Config, call: ToolCall, outcome: Outcome): Message
    requires !outcome.Aborting?
  {
    match outcome
    case Returned(content) => Tool(call.id, false, content)
    case TimedOut => Tool(call.id, true, "Tool call timed out after " + c.toolTimeout + "s")
    case Blocked(reason) => Tool(call.id, true, "Tool call blocked: " + reason)
    case Failed(text) => Tool(call.id, true, text)
  }

  predicate NoneAborts(outcomes: seq<Outcome>) {
    forall k :: 0 <= k < |outcomes| ==> !outcomes[k].Aborting?
  }

  function ToolReplies(c: Config, calls: seq<ToolCall>, outcomes: seq<Outcome>): seq<Message>
    requires |outcomes| == |calls| && NoneAborts(outcomes)
  {
    seq(|calls|, k requires 0 <= k < |calls| => ReplyTo(c, calls[k], outcomes[k]))
  }

  /** A call that was blocked by policy is not a tool error. */
  function ToolErrors(outcomes: seq<Outcome>): nat {
    if outcomes == [] then 0
    else
      var last := outcomes[|outcomes| - 1];
      ToolErrors(outcomes[..|outcomes| - 1]) + if last.TimedOut? || last.Failed? then 1 else 0
  }

  function AfterTools(c: Config, s: State, outcomes: seq<Outcome>): State
    requires |outcomes| == |LastCalls(s.messages)| && NoneAborts(outcomes)
  {
    var calls := LastCalls(s.messages);
    var errors := s.toolErrors + ToolErrors(outcomes);
    s.(messages := s.messages + ToolReplies(c, calls, outcomes),
       toolCalls := s.toolCalls + |calls|,
       toolErrors := errors,
       node := if errors >= c.maxToolErrors then AtToolErrors else AtModel)
  }

  /** Runs the calls of the last message one after the other. An aborting one ends the turn: nothing is kept. */
  method RunTools(c: Config, s: State, outcomes: seq<Outcome>) returns (r: Option<State>)
    requires |outcomes| == |LastCalls(s.messages)|
    ensures r.None? <==> Aborting in outcomes
    ensures r.Some? ==> NoneAborts(outcomes) && r.value == AfterTools(c, s, outcomes)
  {
    var calls := LastCalls(s.messages);
    var replies: seq<Message> := [];
    var errors := 0;
    for k := 0 to |calls|
      invariant NoneAborts(outcomes[..k])
      invariant replies == ToolReplies(c, calls[..k], outcomes[..k])
      invariant errors == ToolErrors(outcomes[..k])
    {
      var outcome := outcomes[k];
      assert outcomes[..k + 1][..k] == outcomes[..k];
      if outcome.Aborting? {
        return None;
      }
      if outcome.TimedOut? || outcome.Failed? {
        errors := errors + 1;
      }
      replies := replies + [ReplyTo(c, calls[k], outcome)];
    }
    assert outcomes[..|calls|] == outcomes && calls[..|calls|] == calls;
    var total := s.toolErrors + errors;
    r := Some(s.(messages := s.messages + replies, toolCalls := s.toolCalls + |calls|, toolErrors := total,
                 node := if total >= c.maxToolErrors then AtToolErrors else AtModel));
  }

  lemma {:induction false} ToolErrorsAreCounted(outcomes: seq<Outcome>)
    ensures ToolErrors(outcomes) == |set k | 0 <= k < |outcomes| && (outcomes[k].TimedOut? || outcomes[k].Failed?)|
  {
    if outcomes != [] {
      var n := |outcomes| - 1;
      var front := outcomes[..n];
      ToolErrorsAreCounted(front);
      var before := set k | 0 <= k < |front| && (front[k].TimedOut? || front[k].Failed?);
      var after := set k | 0 <= k < |outcomes| && (outcomes[k].TimedOut? || outcomes[k].Failed?);
      assert after == if outcomes[n].TimedOut? || outcomes[n].Failed? then before + {n} else before;
    }
  }

  /**
   Each call gets one reply of its own id, an error unless it returned; every
   call counts, and as an error those that timed out or failed. The model is
   asked again exactly while the errors are below their limit.
   */
  lemma RoundIsCounted(c: Config, s: State, outcomes: seq<Outcome>)
    requires |outcomes| == |LastCalls(s.messages)| && NoneAborts(outcomes)
    ensures var calls, next := LastCalls(s.messages), AfterTools(c, s, outcomes);
      var replies := next.messages[|s.messages|..];
      && next.messages == s.messages + replies && |replies| == |calls|
      && (forall k :: 0 <= k < |calls| ==>
            && replies[k].Tool? && replies[k].callId == calls[k].id && (replies[k].failed <==> !outcomes[k].Returned?)
            && replies[k].text == match outcomes[k]
                 case Returned(content) => content
                 case TimedOut => "Tool call timed out after " + c.toolTimeout + "s"
                 case Blocked(reason) => "Tool call blocked: " + reason
                 case Failed(text) => text)
      && next.toolCalls - s.toolCalls == |calls|
      && next.toolErrors - s.toolErrors
           == |set k | 0 <= k < |outcomes| && (outcomes[k].TimedOut? || outcomes[k].Failed?)|
      && (next.node.AtModel? <==> next.toolErrors < c.maxToolErrors)
  {
    ToolErrorsAreCounted(outcomes);
    assert AfterTools(c, s, outcomes).messages[|s.messages|..] == ToolReplies(c, LastCalls(s.messages), outcomes);
  }

  /**
   One visit of the model node: what is said, where the turn goes on, and what
   was asked of the provider. Every call of a reply is run where one call more
   was still allowed, however many they are.
   */
  lemma ModelStepExact(c: Config, s: State, refused: bool, reply: ModelReply)
    ensures var next := AfterModel(c, s, refused, reply);
      var gated := s.usage != [] && refused;
      var gaveUp := gated || (reply.Malformed? && reply.refusedRetry);
      var said := if gaveUp then Assistant(c.refusal, []) else Assistant(reply.text, reply.calls);
      && next.messages == s.messages + [said] && (next.refused <==> s.refused || gaveUp)
      && (next.node.AtEnd? <==> said.calls == [])
      && (next.node.AtTools? <==> said.calls != [] && s.toolCalls < c.maxToolCalls)
      && (next.node.AtLimit? <==> said.calls != [] && s.toolCalls >= c.maxToolCalls)
      && (next.toolCalls == s.toolCalls && next.toolErrors == s.toolErrors)
      && next.usage == s.usage
           + (if gated then [] else if reply.Replies? then [reply.usage] else if gaveUp then [None] else [None, reply.usage])
  {
  }

  // Runs

  predicate Enabled(s: State, step: Step) {
    match step
    case CallModel(_, _) => s.node.AtModel?
    case ExecuteTools(outcomes) => s.node.AtTools? && |outcomes| == |LastCalls(s.messages)| && NoneAborts(outcomes)
    case LimitReached => s.node.AtLimit?
    case ToolErrorsReached => s.node.AtToolErrors?
  }

  function Apply(c: Config, s: State, step: Step): State
    requires Enabled(s, step)
  {
    match step
    case CallModel(refused, reply) => AfterModel(c, s, refused, reply)
    case ExecuteTools(outcomes) => AfterTools(c, s, outcomes)
    case LimitReached => s.(messages := s.messages + [Assistant(LIMIT_REPLY, [])], node := AtEnd)
    case ToolErrorsReached => s.(messages := s.messages + [Assistant(c.toolErrorReply, [])], node := AtEnd)
  }

  /** A limit ends the turn with its own reply and changes nothing else. */
  lemma LimitsClose(c: Config, s: State)
    ensures s.node.AtLimit? ==>
      Apply(c, s, LimitReached).(node := s.node) == s.(messages := s.messages + [Assistant(LIMIT_REPLY, [])])
      && Apply(c, s, LimitReached).node.AtEnd?
    ensures s.node.AtToolErrors? ==>
      Apply(c, s, ToolErrorsReached).(node := s.node) == s.(messages := s.messages + [Assistant(c.toolErrorReply, [])])
      && Apply(c, s, ToolErrorsReached).node.AtEnd?
  {
  }

  /** The state after the steps, if each of them is a possible step of the turn. */
  function Run(c: Config, messages: seq<Message>, steps: seq<Step>): Option<State> {
    if steps == [] then Some(Initial(messages))
    else
      var front, last := Run(c, messages, steps[..|steps| - 1]), steps[|steps| - 1];
      if front.Some? && Enabled(front.value, last) then Some(Apply(c, front.value, last)) else None
  }

  predicate Legal(c: Config, messages: seq<Message>, steps: seq<Step>) {
    Run(c, messages, steps).Some?
  }

  /** How often execute_tools ran. */
  function Visits(steps: seq<Step>): nat {
    if steps == [] then 0
    else Visits(steps[..|steps| - 1]) + if steps[|steps| - 1].ExecuteTools? then 1 else 0
  }

  function RecursionLimit(c: Config): nat {
    2 * c.maxToolCalls + 10
  }

  // Termination within the backstop

  /** How many steps bring a turn with v tool rounds to a node. */
  predicate StepsTo(node: Node, v: nat, steps: nat) {
    match node
    case AtModel => steps == 2 * v
    case AtTools => steps == 2 * v + 1
    case AtLimit => steps == 2 * v + 1
    case AtToolErrors => steps == 2 * v && v > 0
    case AtEnd => steps <= 2 * v + 2
  }

  predicate Counted(c: Config, s: State, v: nat, steps: nat) {
    && v <= c.maxToolCalls && v <= s.toolCalls
    && StepsTo(s.node, v, steps)
    && (s.node.AtTools? ==> s.toolCalls < c.maxToolCalls)
    && (s.node.AtTools? || s.node.AtLimit? ==> LastCalls(s.messages) != [])
    && (s.node.AtModel? && v > 0 ==> s.toolErrors < c.maxToolErrors)
    && (s.node.AtEnd? ==> EndsInReply(s.messages))
  }

  predicate EndsInReply(ms: seq<Message>) {
    ms != [] && ms[|ms| - 1].Assistant? && ms[|ms| - 1].calls == []
  }

  lemma {:induction false} StepsAreCounted(c: Config, messages: seq<Message>, steps: seq<Step>)
    requires Legal(c, messages, steps)
    ensures Counted(c, Run(c, messages, steps).value, Visits(steps), |steps|)
    decreases |steps|
  {
    if steps != [] {
      StepsAreCounted(c, messages, steps[..|steps| - 1]);
    }
  }

  /**
   Whatever the model, the tools and the gate do, a turn runs its tools at most
   maxToolCalls times and ends within 2 * maxToolCalls + 2 steps, which the
   recursion limit never cuts off; a turn that ends, ends with a reply that
   asks for no tool. Until it ends it can always go on.
   */
  lemma TurnEnds(c: Config, messages: seq<Message>, steps: seq<Step>)
    requires Legal(c, messages, steps)
    ensures Visits(steps) <= c.maxToolCalls
    ensures |steps| <= 2 * c.maxToolCalls + 2 < RecursionLimit(c)
    ensures var s := Run(c, messages, steps).value;
      if s.node.AtEnd? then EndsInReply(s.messages) && forall step :: !Enabled(s, step)
      else exists step :: Enabled(s, step)
  {
    StepsAreCounted(c, messages, steps);
    var s := Run(c, messages, steps).value;
    match s.node {
      case AtModel => assert Enabled(s, CallModel(false, Replies("", [], None)));
      case AtTools =>
        var outcomes := seq(|LastCalls(s.messages)|, k => TimedOut);
        assert Enabled(s, ExecuteTools(outcomes));
      case AtLimit => assert Enabled(s, LimitReached);
      case AtToolErrors => assert Enabled(s, ToolErrorsReached);
      case AtEnd =>
    }
  }

  /** Model, tool, model, tool: n rounds of one call each that goes well. */
  function Rounds(n: nat, call: ToolCall): seq<Step> {
    if n == 0 then []
    else Rounds(n - 1, call) + [CallModel(false, Replies("", [call], None))] + [ExecuteTools([Returned("")])]
  }

  lemma RunOneMore(c: Config, messages: seq<Message>, front: seq<Step>, step: Step)
    requires Legal(c, messages, front) && Enabled(Run(c, messages, front).value, step)
    ensures Run(c, messages, front + [step]) == Some(Apply(c, Run(c, messages, front).value, step))
  {
    assert (front + [step])[..|front|] == front;
  }

  lemma OneCall(c: Config, s: State, call: ToolCall)
    requires s.node.AtModel?
    ensures var asked := AfterModel(c, s, false, Replies("", [call], None));
      asked == s.(messages := s.messages + [Assistant("", [call])], usage := s.usage + [None],
                  node := if s.toolCalls >= c.maxToolCalls then AtLimit else AtTools)
      && LastCalls(asked.messages) == [call]
  {
  }

  lemma OneResult(c: Config, s: State)
    requires |LastCalls(s.messages)| == 1
    ensures NoneAborts([Returned("")])
    ensures AfterTools(c, s, [Returned("")]).toolCalls == s.toolCalls + 1
    ensures AfterTools(c, s, [Returned("")]).toolErrors == s.toolErrors
    ensures s.toolErrors < c.maxToolErrors ==> AfterTools(c, s, [Returned("")]).node.AtModel?
  {
    assert ToolErrors([Returned("")]) == 0;
  }

  lemma {:induction false} RoundsRun(c: Config, messages: seq<Message>, n: nat, call: ToolCall)
    requires n <= c.maxToolCalls && c.maxToolErrors > 0
    ensures |Rounds(n, call)| == 2 * n && Legal(c, messages, Rounds(n, call))
    ensures var s := Run(c, messages, Rounds(n, call)).value;
      s.node.AtModel? && s.toolCalls == n && s.toolErrors == 0
  {
    if n > 0 {
      RoundsRun(c, messages, n - 1, call);
      var front := Rounds(n - 1, call);
      var s := Run(c, messages, front).value;
      var asked := CallModel(false, Replies("", [call], None));
      OneCall(c, s, call);
      OneResult(c, Apply(c, s, asked));
      RunOneMore(c, messages, front, asked);
      RunOneMore(c, messages, front + [asked], ExecuteTools([Returned("")]));
    }
  }

  /** The bound on the steps is reached. */
  lemma BoundIsReached(c: Config, messages: seq<Message>, call: ToolCall) returns (steps: seq<Step>)
    requires c.maxToolErrors > 0
    ensures Legal(c, messages, steps) && |steps| == 2 * c.maxToolCalls + 2
    ensures Run(c, messages, steps).value.node.AtEnd?
  {
    RoundsRun(c, messages, c.maxToolCalls, call);
    var front := Rounds(c.maxToolCalls, call);
    var asked := CallModel(false, Replies("", [call], None));
    OneCall(c, Run(c, messages, front).value, call);
    RunOneMore(c, messages, front, asked);
    RunOneMore(c, messages, front + [asked], LimitReached);
    steps := front + [asked] + [LimitReached];
  }

  // What a turn adds to the conversation

  /** The messages of the turn itself. */
  function Added(messages: seq<Message>, s: State): seq<Message> {
    if |messages| <= |s.messages| then s.messages[|messages|..] else []
  }

  lemma RoundRun(c: Config, m: Message, outcomes: seq<Outcome>, k: nat)
    requires Calls(m) && |outcomes| == |m.calls| && NoneAborts(outcomes) && k < |m.calls|
    ensures var round := [m] + ToolReplies(c, m.calls, outcomes);
      round[k + 1] == ReplyTo(c, m.calls[k], outcomes[k]) && InReplyRun(round, 0, k + 1)
  {
  }

  lemma RoundIsAnswered(c: Config, m: Message, outcomes: seq<Outcome>)
    requires Calls(m) && |outcomes| == |m.calls| && NoneAborts(outcomes)
    ensures Answered([m] + ToolReplies(c, m.calls, outcomes))
  {
    var round := [m] + ToolReplies(c, m.calls, outcomes);
    forall i, call | 0 <= i < |round| && Calls(round[i]) && call in round[i].calls
      ensures Replied(round, i, call.id)
    {
      assert i == 0;
      var k :| 0 <= k < |m.calls| && m.calls[k] == call;
      RoundRun(c, m, outcomes, k);
    }
  }

  lemma RoundIsPaired(c: Config, m: Message, outcomes: seq<Outcome>)
    requires Calls(m) && |outcomes| == |m.calls| && NoneAborts(outcomes)
    ensures Paired([m] + ToolReplies(c, m.calls, outcomes))
  {
    var round := [m] + ToolReplies(c, m.calls, outcomes);
    forall k | 0 <= k < |round| && round[k].Tool?
      ensures IsPaired(round, k)
    {
      RoundRun(c, m, outcomes, k - 1);
      assert m.calls[k - 1] in round[0].calls;
    }
  }

  lemma AloneIsWellFormed(m: Message)
    requires m.Assistant?
    ensures Paired([m]) && (Answered([m]) <==> m.calls == [])
  {
    if m.calls != [] {
      assert m.calls[0] in [m][0].calls && !Replied([m], 0, m.calls[0].id);
    }
  }

  predicate WellFormed(ms: seq<Message>) {
    Answered(ms) && Paired(ms)
  }

  /** The turn's messages so far: whole rounds, then perhaps calls that wait for their replies. */
  ghost predicate Shaped(messages: seq<Message>, s: State, limited: bool) {
    && |messages| <= |s.messages| && s.messages[..|messages|] == messages
    && var added := Added(messages, s);
       if s.node.AtTools? || s.node.AtLimit? then
         added != [] && WellFormed(added[..|added| - 1]) && Calls(added[|added| - 1])
       else if s.node.AtEnd? && limited then
         |added| >= 2 && WellFormed(added[..|added| - 2]) && Calls(added[|added| - 2])
       else WellFormed(added) && (s.node.AtEnd? ==> added != [])
  }

  lemma ModelKeepsShape(c: Config, messages: seq<Message>, s: State, m: Message, usage: seq<Option<CallUsage>>, refused: bool)
    requires Shaped(messages, s, false) && s.node.AtModel? && m.Assistant?
    ensures Shaped(messages, Spoken(c, s, m, usage, refused), false)
  {
    var next := Spoken(c, s, m, usage, refused);
    var before, added := Added(messages, s), Added(messages, next);
    assert added == before + [m] && added[..|added| - 1] == before;
    if m.calls == [] {
      AloneIsWellFormed(m);
      AnsweredAppend(before, [m]);
      PairedAppend(before, [m]);
    }
  }

  lemma ToolsKeepShape(c: Config, messages: seq<Message>, s: State, outcomes: seq<Outcome>)
    requires Shaped(messages, s, false) && s.node.AtTools?
    requires |outcomes| == |LastCalls(s.messages)| && NoneAborts(outcomes)
    ensures Shaped(messages, AfterTools(c, s, outcomes), false)
  {
    var waiting := Added(messages, s);
    var m := waiting[|waiting| - 1];
    assert m == s.messages[|s.messages| - 1];
    AddedGrows(messages, s, AfterTools(c, s, outcomes), ToolReplies(c, m.calls, outcomes));
    RoundCloses(c, waiting, outcomes);
  }

  lemma AddedGrows(messages: seq<Message>, s: State, next: State, more: seq<Message>)
    requires |messages| <= |s.messages| && s.messages[..|messages|] == messages && next.messages == s.messages + more
    ensures next.messages[..|messages|] == messages && Added(messages, next) == Added(messages, s) + more
  {
  }

  lemma RoundCloses(c: Config, waiting: seq<Message>, outcomes: seq<Outcome>)
    requires waiting != [] && WellFormed(waiting[..|waiting| - 1]) && Calls(waiting[|waiting| - 1])
    requires |outcomes| == |waiting[|waiting| - 1].calls| && NoneAborts(outcomes)
    ensures WellFormed(waiting + ToolReplies(c, waiting[|waiting| - 1].calls, outcomes))
  {
    var front, m := waiting[..|waiting| - 1], waiting[|waiting| - 1];
    var round := [m] + ToolReplies(c, m.calls, outcomes);
    assert waiting + ToolReplies(c, m.calls, outcomes) == front + round;
    RoundIsAnswered(c, m, outcomes);
    RoundIsPaired(c, m, outcomes);
    AnsweredAppend(front, round);
    PairedAppend(front, round);
  }

  lemma ClosingKeepsShape(messages: seq<Message>, s: State, m: Message, next: State)
    requires m.Assistant? && m.calls == [] && next == s.(messages := s.messages + [m], node := AtEnd)
    requires Shaped(messages, s, false) && (s.node.AtLimit? || s.node.AtToolErrors?)
    ensures Shaped(messages, next, s.node.AtLimit?)
  {
    var before, added := Added(messages, s), Added(messages, next);
    assert added == before + [m];
    if s.node.AtLimit? {
      LastTwo(before, m);
    } else {
      AloneIsWellFormed(m);
      AnsweredAppend(before, [m]);
      PairedAppend(before, [m]);
    }
  }

  lemma LastTwo(before: seq<Message>, m: Message)
    requires before != []
    ensures (before + [m])[..|before| - 1] == before[..|before| - 1] && (before + [m])[|before| - 1] == before[|before| - 1]
  {
  }

  lemma StepKeepsShape(c: Config, messages: seq<Message>, s: State, step: Step)
    requires Shaped(messages, s, false) && Enabled(s, step)
    ensures Shaped(messages, Apply(c, s, step), step.LimitReached?)
  {
    hide Shaped, LastCalls, ToolErrors;
    var next := Apply(c, s, step);
    match step {
      case CallModel(refused, reply) =>
        var m := next.messages[|next.messages| - 1];
        assert next == Spoken(c, s, m, next.usage, next.refused);
        ModelKeepsShape(c, messages, s, m, next.usage, next.refused);
      case ExecuteTools(outcomes) => ToolsKeepShape(c, messages, s, outcomes);
      case LimitReached => ClosingKeepsShape(messages, s, Assistant(LIMIT_REPLY, []), next);
      case ToolErrorsReached => ClosingKeepsShape(messages, s, Assistant(c.toolErrorReply, []), next);
    }
  }

  lemma {:induction false} RunIsShaped(c: Config, messages: seq<Message>, steps: seq<Step>)
    requires Legal(c, messages, steps)
    ensures Shaped(messages, Run(c, messages, steps).value, LimitReached in steps)
    ensures LimitReached in steps ==> Run(c, messages, steps).value.node.AtEnd?
    decreases |steps|
  {
    if steps == [] {
      assert Added(messages, Initial(messages)) == [];
    } else {
      var front, last := steps[..|steps| - 1], steps[|steps| - 1];
      assert steps == front + [last];
      RunIsShaped(c, messages, front);
      StepKeepsShape(c, messages, Run(c, messages, front).value, last);
    }
  }

  /**
   A turn only appends. What a finished turn appended has no reply without its
   call, and all its calls are answered exactly when it did not stop at the
   tool-call limit.
   */
  lemma TurnAddsWholeRounds(c: Config, messages: seq<Message>, steps: seq<Step>)
    requires Legal(c, messages, steps)
    ensures var s := Run(c, messages, steps).value;
      && s.messages == messages + Added(messages, s)
      && (s.node.AtEnd? ==> (Answered(Added(messages, s)) <==> LimitReached !in steps))
      && (s.node.AtEnd? ==> EndsInReply(Added(messages, s)) && Paired(Added(messages, s)))
  {
    RunIsShaped(c, messages, steps);
    StepsAreCounted(c, messages, steps);
    ShapeIsWhole(messages, Run(c, messages, steps).value, LimitReached in steps);
  }

  lemma ShapeIsWhole(messages: seq<Message>, s: State, limited: bool)
    requires Shaped(messages, s, limited) && (s.node.AtEnd? ==> EndsInReply(s.messages))
    ensures s.messages == messages + Added(messages, s)
    ensures s.node.AtEnd? ==> (Answered(Added(messages, s)) <==> !limited)
    ensures s.node.AtEnd? ==> EndsInReply(Added(messages, s)) && Paired(Added(messages, s))
  {
    assert s.messages == messages + Added(messages, s);
    if s.node.AtEnd? {
      EndIsWhole(messages, s, limited);
    }
  }

  lemma EndIsWhole(messages: seq<Message>, s: State, limited: bool)
    requires Shaped(messages, s, limited) && s.node.AtEnd? && EndsInReply(s.messages)
    ensures var added := Added(messages, s);
      (Answered(added) <==> !limited) && EndsInReply(added) && Paired(added)
  {
    var added := Added(messages, s);
    assert added[|added| - 1] == s.messages[|s.messages| - 1];
    if limited {
      OpenCalls(added);
    }
  }

  lemma OpenCalls(added: seq<Message>)
    requires |added| >= 2 && WellFormed(added[..|added| - 2]) && Calls(added[|added| - 2])
    requires added[|added| - 1].Assistant?
    ensures !Answered(added) && Paired(added)
  {
    var n := |added| - 2;
    var m := added[n];
    assert m.calls[0] in m.calls && !Replied(added, n, m.calls[0].id);
    assert Paired(added[n..]);
    PairedAppend(added[..n], added[n..]);
    assert added == added[..n] + added[n..];
  }
}
