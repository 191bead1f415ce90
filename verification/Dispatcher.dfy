/**
 One dispatcher's run, uninterrupted: the code of a claim and its delivery,
 shown to be a run of the delivery protocol.
 */
module Dispatcher {
  import opened Common
  import opened ProactiveQueue
  import opened Delivery
  import QuietHours

  datatype Outcome =
    | Idle
    | Finished(status: Status, error: Option<string>)
    | RateLimited(retryAfter: int)
    | Deferred(reason: string)

  /** How the dispatch behind an outcome ended, given why it was refused, if it was. */
  predicate EndedAs(x: Dispatch, refusal: Option<string>, outcome: Outcome) {
    match outcome
    case Idle => false
    case Finished(status, error) =>
      && x.phase.Concluded?
      && (if refusal.Some? then x.call == Unsent && status == Failed && error == refusal else x.call == Ended)
    case RateLimited(_) => refusal.None? && x.phase.Returned? && x.call == Call.RateLimited
    case Deferred(_) => refusal.None? && x.phase.Returned? && x.call == Unsent
  }

  function OutcomeOf(reply: Reply): Outcome {
    match reply
    case Accepted => Finished(Sent, None)
    case TooManyRequests(retryAfter) => Outcome.RateLimited(retryAfter)
    case Rejected => Finished(Failed, Some("rejected"))
    case Unknown => Finished(Ambiguous, Some("send_error"))
  }

  lemma {:induction false} LegalThen(p: Policy, s: System, actions: seq<Action>, a: Action)
    requires Legal(p, s, actions) && Enabled(Run(p, s, actions), a)
    ensures Legal(p, s, actions + [a])
    ensures Run(p, s, actions + [a]) == Apply(p, Run(p, s, actions), a)
    decreases actions
  {
    var longer := actions + [a];
    if actions == [] {
      assert longer[1..] == [];
    } else {
      assert longer[0] == actions[0] && longer[1..] == actions[1..] + [a];
      LegalThen(p, Apply(p, s, actions[0]), actions[1..], a);
    }
  }

  /** The actions are a legal run from s to t. */
  ghost predicate Leads(p: Policy, s: System, actions: seq<Action>, t: System) {
    Legal(p, s, actions) && Run(p, s, actions) == t
  }

  lemma LeadsThen(p: Policy, s: System, actions: seq<Action>, t: System, a: Action)
    requires Leads(p, s, actions, t) && Enabled(t, a)
    ensures Leads(p, s, actions + [a], Apply(p, t, a))
  {
    LegalThen(p, s, actions, a);
  }

  lemma {:induction false} LeadsAppend(p: Policy, s: System, first: seq<Action>, t: System, second: seq<Action>, u: System)
    requires Leads(p, s, first, t) && Leads(p, t, second, u)
    ensures Leads(p, s, first + second, u)
    decreases second
  {
    if second == [] {
      assert first + second == first;
    } else {
      LeadsThen(p, s, first, t, second[0]);
      LeadsAppend(p, s, first + [second[0]], Apply(p, t, second[0]), second[1..], u);
      assert first + [second[0]] + second[1..] == first + second;
    }
  }

  lemma WithTwice(s: System, d: nat, x: Dispatch, y: Dispatch)
    requires d < |s.dispatches|
    ensures With(With(s, d, x), d, y) == With(s, d, y)
  {
    assert s.dispatches[d := x][d := y] == s.dispatches[d := y];
  }

  /** The system just after the last dispatch claimed message k. */
  predicate JustClaimed(s: System, d: nat, k: nat, now: int) {
    && d + 1 == |s.dispatches|
    && s.dispatches[d] == Dispatch(k, now, Screening, Unsent, false, false, false)
    && k < |s.queue.messages|
  }

  lemma RefusedRun(p: Policy, s: System, d: nat, k: nat, now: int, refusal: string) returns (actions: seq<Action>, t: System)
    requires JustClaimed(s, d, k, now)
    ensures Leads(p, s, actions, t)
    ensures t.queue == AfterFinish(s.queue, s.queue.messages[k].id, Failed, Some(refusal))
    ensures t.dispatches == s.dispatches[d := s.dispatches[d].(phase := Concluded)]
  {
    var x := s.dispatches[d].(phase := Concluding(Failed, Some(refusal)));
    LeadsThen(p, s, [], s, Screen(d, Some(refusal)));
    LeadsThen(p, s, [] + [Screen(d, Some(refusal))], With(s, d, x), Conclude(d));
    actions := [] + [Screen(d, Some(refusal))] + [Conclude(d)];
    t := Apply(p, With(s, d, x), Conclude(d));
    assert s.dispatches[d := x][d := x.(phase := Concluded)] == s.dispatches[d := x.(phase := Concluded)];
  }

  lemma ScreenedRun(p: Policy, s: System, d: nat, k: nat, now: int) returns (actions: seq<Action>)
    requires JustClaimed(s, d, k, now)
    ensures Leads(p, s, actions, With(s, d, Dispatch(k, now, Screened, Unsent, true, false, false)))
  {
    LeadsThen(p, s, [], s, Screen(d, None));
    actions := [] + [Screen(d, None)];
  }

  lemma RecipientRun(p: Policy, s: System, d: nat, k: nat, now: int) returns (actions: seq<Action>)
    requires JustClaimed(s, d, k, now)
    requires RecipientVerdict(p, s.queue, s.queue.messages[k], now).None?
    ensures Leads(p, s, actions, With(s, d, Dispatch(k, now, RecipientChecked, Unsent, true, true, false)))
  {
    actions := ScreenedRun(p, s, d, k, now);
    var x := Dispatch(k, now, Screened, Unsent, true, false, false);
    LeadsThen(p, s, actions, With(s, d, x), CheckRecipient(d));
    actions := actions + [CheckRecipient(d)];
    WithTwice(s, d, x, Dispatch(k, now, RecipientChecked, Unsent, true, true, false));
  }

  lemma GuardedRun(p: Policy, s: System, d: nat, k: nat, now: int) returns (actions: seq<Action>)
    requires JustClaimed(s, d, k, now)
    requires RecipientVerdict(p, s.queue, s.queue.messages[k], now).None?
    requires RuntimeVerdict(p, s.queue, s.queue.messages[k], now).None?
    ensures Leads(p, s, actions, With(s, d, Dispatch(k, now, Guarded, Unsent, true, true, true)))
  {
    actions := RecipientRun(p, s, d, k, now);
    var x := Dispatch(k, now, RecipientChecked, Unsent, true, true, false);
    LeadsThen(p, s, actions, With(s, d, x), CheckRuntime(d));
    actions := actions + [CheckRuntime(d)];
    WithTwice(s, d, x, Dispatch(k, now, Guarded, Unsent, true, true, true));
  }

  /** A message the guard holds goes back to the queue, due when the first failing check says. */
  lemma HeldRun(p: Policy, s: System, d: nat, k: nat, now: int, until: int) returns (actions: seq<Action>, t: System)
    requires JustClaimed(s, d, k, now)
    requires
      var first := RecipientVerdict(p, s.queue, s.queue.messages[k], now);
      var second := RuntimeVerdict(p, s.queue, s.queue.messages[k], now);
      (first == Some(until)) || (first.None? && second == Some(until))
    ensures Leads(p, s, actions, t)
    ensures t.queue == AfterDefer(s.queue, s.queue.messages[k].id, until)
    ensures |t.dispatches| == d + 1 && t.dispatches[d].phase.Returned? && t.dispatches[d].call == Unsent
  {
    var x, check;
    if RecipientVerdict(p, s.queue, s.queue.messages[k], now).Some? {
      actions := ScreenedRun(p, s, d, k, now);
      x, check := Dispatch(k, now, Screened, Unsent, true, false, false), CheckRecipient(d);
    } else {
      actions := RecipientRun(p, s, d, k, now);
      x, check := Dispatch(k, now, RecipientChecked, Unsent, true, true, false), CheckRuntime(d);
    }
    LeadsThen(p, s, actions, With(s, d, x), check);
    actions := actions + [check];
    WithTwice(s, d, x, x.(phase := Held(until)));
    LeadsThen(p, s, actions, With(s, d, x.(phase := Held(until))), Hold(d));
    actions, t := actions + [Hold(d)], Return(With(s, d, x.(phase := Held(until))), d, until);
  }

  /** The call and its answer. */
  lemma AnsweredRun(p: Policy, s: System, d: nat, k: nat, now: int, reply: Reply) returns (actions: seq<Action>)
    requires JustClaimed(s, d, k, now)
    requires RecipientVerdict(p, s.queue, s.queue.messages[k], now).None?
    requires RuntimeVerdict(p, s.queue, s.queue.messages[k], now).None?
    ensures Leads(p, s, actions, With(s, d, Answered(Dispatch(k, now, InFlight, Started, true, true, true), reply)))
  {
    actions := GuardedRun(p, s, d, k, now);
    var x, y := Dispatch(k, now, Guarded, Unsent, true, true, true), Dispatch(k, now, InFlight, Started, true, true, true);
    LeadsThen(p, s, actions, With(s, d, x), Send(d));
    actions := actions + [Send(d)];
    WithTwice(s, d, x, y);
    LeadsThen(p, s, actions, With(s, d, y), Answer(d, reply));
    actions := actions + [Answer(d, reply)];
    WithTwice(s, d, y, Answered(y, reply));
  }

  /** What a reply makes of the queue, and how the dispatch ends. */
  function QueueAfter(q: Queue, id: string, now: int, reply: Reply): Queue {
    match reply
    case Accepted => AfterFinish(q, id, Sent, None)
    case TooManyRequests(retryAfter) => AfterDefer(q, id, now + retryAfter)
    case Rejected => AfterFinish(q, id, Failed, Some("rejected"))
    case Unknown => AfterFinish(q, id, Ambiguous, Some("send_error"))
  }

  lemma SentRun(p: Policy, s: System, d: nat, k: nat, now: int, reply: Reply) returns (actions: seq<Action>, t: System)
    requires JustClaimed(s, d, k, now)
    requires RecipientVerdict(p, s.queue, s.queue.messages[k], now).None?
    requires RuntimeVerdict(p, s.queue, s.queue.messages[k], now).None?
    ensures Leads(p, s, actions, t)
    ensures t.queue == QueueAfter(s.queue, s.queue.messages[k].id, now, reply)
    ensures |t.dispatches| == d + 1
    ensures reply.TooManyRequests? ==> t.dispatches[d].phase.Returned? && t.dispatches[d].call == Call.RateLimited
    ensures !reply.TooManyRequests? ==> t.dispatches[d].phase.Concluded? && t.dispatches[d].call == Ended
  {
    actions := AnsweredRun(p, s, d, k, now, reply);
    var u := With(s, d, Answered(Dispatch(k, now, InFlight, Started, true, true, true), reply));
    var last := if reply.TooManyRequests? then ReturnRefused(d) else Conclude(d);
    LeadsThen(p, s, actions, u, last);
    actions, t := actions + [last], Apply(p, u, last);
  }

  /** When the guard makes the message due again, if it holds it. */
  ghost function Verdict(p: Policy, q: Queue, m: Message, now: int): Option<int> {
    var first := RecipientVerdict(p, q, m, now);
    if first.Some? then first else RuntimeVerdict(p, q, m, now)
  }

  function HeldReason(p: Policy, now: int): string {
    if QuietFor(p, now).Some? then "quiet_hours" else "rate_limit"
  }

  /** How the delivery of a claimed message ends: refused, held by the guard, or as the provider answers. */
  ghost function OutcomeFor(p: Policy, q: Queue, m: Message, now: int, refusal: Option<string>, reply: Reply): Outcome {
    if refusal.Some? then Finished(Failed, refusal)
    else if Verdict(p, q, m, now).Some? then Deferred(HeldReason(p, now))
    else OutcomeOf(reply)
  }

  ghost function QueueFor(p: Policy, q: Queue, m: Message, now: int, refusal: Option<string>, reply: Reply): Queue {
    var held := Verdict(p, q, m, now);
    if refusal.Some? then AfterFinish(q, m.id, Failed, refusal)
    else if held.Some? then AfterDefer(q, m.id, held.value)
    else QueueAfter(q, m.id, now, reply)
  }

  /** The status that the outcome reports is the one the message now has in the queue. */
  lemma OutcomeIsStatus(p: Policy, q: Queue, k: nat, now: int, refusal: Option<string>, reply: Reply)
    requires UniqueIds(q.messages) && k < |q.messages|
    ensures var m := q.messages[k];
      var outcome, after := OutcomeFor(p, q, m, now, refusal, reply), QueueFor(p, q, m, now, refusal, reply);
      && |after.messages| == |q.messages|
      && after.messages[k].status == (if outcome.Finished? then outcome.status else Queued)
      && forall j :: 0 <= j < |q.messages| && j != k ==> after.messages[j] == q.messages[j]
  {
  }

  /** What the provider answered decides what becomes of a message that was neither refused nor held. */
  lemma ReplyDecides(p: Policy, q: Queue, k: nat, now: int, reply: Reply)
    requires UniqueIds(q.messages) && k < |q.messages| && Verdict(p, q, q.messages[k], now).None?
    ensures var after := QueueFor(p, q, q.messages[k], now, None, reply);
      var m := after.messages[k];
      && (m.status == Sent <==> reply == Accepted)
      && (m.status == Failed <==> reply == Rejected)
      && (m.status == Ambiguous <==> reply == Unknown)
      && (m.status == Queued <==> reply.TooManyRequests?)
      && (reply.TooManyRequests? ==> m.availableAt == Some(now + reply.retryAfter) && m.id !in after.times)
  {
  }

  /** A message held for quiet hours is due again from the first instant that is not quiet, and not before. */
  lemma HeldUntilQuietEnds(p: Policy, q: Queue, k: nat, now: int, x: int)
    requires UniqueIds(q.messages) && k < |q.messages| && now <= x
    requires p.quietHours.Some? && QuietHours.Quiet(p.quietHours.value, p.offset, now)
    requires p.quietHours.value.end % MINUTE == 0
    ensures
      var verdict := RecipientVerdict(p, q, q.messages[k], now);
      verdict.Some?
      && (Due(AfterDefer(q, q.messages[k].id, verdict.value).messages[k], x)
          <==> exists y :: now <= y <= x && !QuietHours.Quiet(p.quietHours.value, p.offset, y))
  {
    QuietHours.QuietUntilExact(p.quietHours.value, p.offset, now);
    var until := QuietFor(p, now).value;
    assert QuietHours.IsQuietEnd(p.quietHours.value, p.offset, now, until);
    assert !QuietHours.Quiet(p.quietHours.value, p.offset, until);
  }

  class ProactiveDispatcher {
    const queue: InMemoryProactiveQueue
    const policy: Policy
    const lease: int

    constructor (queue: InMemoryProactiveQueue, policy: Policy, lease: int)
      ensures this.queue == queue && this.policy == policy && this.lease == lease
    {
      this.queue := queue;
      this.policy := policy;
      this.lease := lease;
    }

    method WithinLimit(limit: Option<Limit>, m: Message, subject: Option<string>, now: int) returns (within: bool)
      ensures within == Delivery.WithinLimit(limit, queue.View(), m.runtime, subject, now, m.id)
    {
      if limit.None? {
        return true;
      }
      var used := queue.AttemptsSince(m.runtime, subject, now - limit.value.window * SECOND, m.id);
      return used < limit.value.count;
    }

    /**
     Lets the message through exactly outside quiet hours when both limits still
     have room; otherwise defers it and says why.
     */
    method Guard(worker: string, m: Message, now: int) returns (held: Option<string>)
      requires queue.Valid()
      modifies queue
      ensures queue.Valid()
      ensures var verdict := Verdict(policy, old(queue.View()), m, now);
        && held == (if verdict.Some? then Some(HeldReason(policy, now)) else None)
        && queue.View() == if verdict.Some? then AfterDefer(old(queue.View()), m.id, verdict.value) else old(queue.View())
      ensures held.Some? ==> held.value == if QuietAt(policy, now) then "quiet_hours" else "rate_limit"
      ensures held.None? <==>
        && !QuietAt(policy, now)
        && (policy.perRecipient.Some? ==>
              var (count, since) := (policy.perRecipient.value.count, now - policy.perRecipient.value.window * SECOND);
              |Attempts(old(queue.View()), m.runtime, Some(m.subject), since, m.id)| < count)
        && (policy.perRuntime.Some? ==>
              var (count, since) := (policy.perRuntime.value.count, now - policy.perRuntime.value.window * SECOND);
              |Attempts(old(queue.View()), m.runtime, None, since, m.id)| < count)
    {
      QuietForExact(policy, now);
      var until := QuietFor(policy, now);
      var reason := "quiet_hours";
      if until.None? {
        reason := "rate_limit";
        var within := WithinLimit(policy.perRecipient, m, Some(m.subject), now);
        if within {
          within := WithinLimit(policy.perRuntime, m, None, now);
        }
        if !within {
          until := Some(now + policy.recheck);
        }
      }
      if until.None? {
        return None;
      }
      queue.Defer(m.id, worker, until.value);
      held := Some(reason);
    }

    /** Calls the provider, which gives this reply, and settles the message. */
    method Settle(worker: string, m: Message, now: int, reply: Reply) returns (outcome: Outcome)
      requires queue.Valid()
      modifies queue
      ensures queue.Valid()
      ensures queue.View() == QueueAfter(old(queue.View()), m.id, now, reply)
      ensures outcome == OutcomeOf(reply)
    {
      outcome := OutcomeOf(reply);
      match reply {
        case TooManyRequests(retryAfter) => queue.Defer(m.id, worker, now + retryAfter);
        case Accepted => queue.Finish(m.id, worker, Sent, None);
        case Rejected => queue.Finish(m.id, worker, Failed, Some("rejected"));
        case Unknown => queue.Finish(m.id, worker, Ambiguous, Some("send_error"));
      }
    }

    /** The delivery of a claimed message: refusal is why it may not be sent, reply is what the provider answers. */
    method Dispatch(
      worker: string, m: Message, now: int, refusal: Option<string>, reply: Reply, ghost s: System, ghost d: nat, ghost k: nat)
      returns (outcome: Outcome, ghost actions: seq<Action>, ghost t: System)
      requires queue.Valid() && s.queue == queue.View()
      requires JustClaimed(s, d, k, now) && s.queue.messages[k] == m
      modifies queue
      ensures queue.Valid()
      ensures outcome == OutcomeFor(policy, old(queue.View()), m, now, refusal, reply)
      ensures queue.View() == QueueFor(policy, old(queue.View()), m, now, refusal, reply)
      ensures Leads(policy, s, actions, t) && t.queue == queue.View()
      ensures |t.dispatches| == d + 1 && EndedAs(t.dispatches[d], refusal, outcome)
    {
      if refusal.Some? {
        actions, t := RefusedRun(policy, s, d, k, now, refusal.value);
        queue.Finish(m.id, worker, Failed, refusal);
        return Finished(Failed, refusal), actions, t;
      }
      ghost var verdict := Verdict(policy, s.queue, m, now);
      var held := Guard(worker, m, now);
      if held.Some? {
        actions, t := HeldRun(policy, s, d, k, now, verdict.value);
        return Deferred(held.value), actions, t;
      }
      actions, t := SentRun(policy, s, d, k, now, reply);
      outcome := Settle(worker, m, now, reply);
    }

    /**
     One whole run: what it does to the queue is a legal run of the protocol,
     idle exactly when nothing is due. k is the message it claims.
     */
    method RunOnce(worker: string, now: int, refusal: Option<string>, reply: Reply, ghost s: System)
      returns (outcome: Outcome, ghost actions: seq<Action>, ghost t: System, ghost k: nat)
      requires queue.Valid() && s.queue == queue.View()
      modifies queue
      ensures queue.Valid()
      ensures Leads(policy, s, actions, t) && t.queue == queue.View()
      ensures outcome.Idle? <==> forall j :: 0 <= j < |old(queue.messages)| ==> !Due(old(queue.messages)[j], now)
      ensures outcome.Idle? ==> queue.View() == AfterExpire(old(queue.View()), now)
      ensures !outcome.Idle? ==>
        var expired := AfterExpire(old(queue.View()), now);
        && IsChoice(expired.messages, now, k)
        && var claimed := AfterClaim(expired, k, worker, now, lease);
           && k < |claimed.messages|
           && outcome == OutcomeFor(policy, claimed, claimed.messages[k], now, refusal, reply)
           && queue.View() == QueueFor(policy, claimed, claimed.messages[k], now, refusal, reply)
      ensures !outcome.Idle? ==> |t.dispatches| == |s.dispatches| + 1 && EndedAs(t.dispatches[|s.dispatches|], refusal, outcome)
    {
      hide Verdict, OutcomeFor, QueueFor, EndedAs, RecipientVerdict, RuntimeVerdict;
      var _ := queue.ExpireLeases(now);
      ghost var e := Apply(policy, s, Action.ExpireLeases(now));
      LeadsThen(policy, s, [], s, Action.ExpireLeases(now));
      actions, t := [] + [Action.ExpireLeases(now)], e;
      assert forall j :: 0 <= j < |e.queue.messages| ==> (Due(e.queue.messages[j], now) <==> Due(s.queue.messages[j], now));
      ghost var again := ExpireAll(e.queue.messages, now);
      assert again == e.queue.messages;
      var claimed;
      claimed, k := queue.Claim(worker, now, lease);
      if claimed.None? {
        return Idle, actions, t, k;
      }
      ghost var claim := Action.Claim(worker, now, lease, k);
      LeadsThen(policy, s, actions, e, claim);
      ghost var c := Apply(policy, e, claim);
      ghost var more;
      outcome, more, t := Dispatch(worker, claimed.value, now, refusal, reply, c, |s.dispatches|, k);
      LeadsAppend(policy, s, actions + [claim], c, more, t);
      actions := actions + [claim] + more;
    }
  }
}
