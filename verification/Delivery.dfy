/**
 The proactive delivery protocol: any number of dispatchers working on one
 queue. One action is what a method body does between two awaits; dispatchers
 interleave in any way, may stall for ever, be cancelled, outlive their lease
 and read any clock.
 */
module Delivery {
  import opened Common
  import opened ProactiveQueue
  import opened QuietHours

  /** At most count attempts in window seconds. */
  datatype Limit = Limit(count: int, window: int)

  datatype Policy = Policy(
    perRecipient: Option<Limit>, perRuntime: Option<Limit>,
    quietHours: Option<Hours>, offset: int, recheck: int)

  /** How far one provider call got. */
  datatype Call = Unsent | Started | RateLimited | Ended

  datatype Phase =
    | Screening                     // permission, recipient and channel are being looked up
    | Screened                      // about to check quiet hours and the recipient's limit
    | RecipientChecked              // about to check the runtime's limit
    | Guarded                       // about to call the provider
    | InFlight                      // the provider call has not answered yet
    | Refused(retryAfter: int)      // the provider answered 429
    | Held(until: int)              // the guard decided to defer
    | Concluding(status: Status, error: Option<string>)
    | Returned                      // the message went back to the queue
    | Concluded
    | Dead                          // cancelled

  /**
   One claim: which message (its position in the list), the clock read for it,
   how far it got, and which checks it passed.
   */
  datatype Dispatch = Dispatch(
    message: nat, now: int, phase: Phase, call: Call,
    screened: bool, checkedRecipient: bool, checkedRuntime: bool)

  /** current maps a message to its present claim; a claim that returned the message is no longer present. */
  datatype System = System(queue: Queue, dispatches: seq<Dispatch>, current: map<nat, nat>)

  /** What the provider answered. Unknown is a timeout, a 5xx or any other error. */
  datatype Reply = Accepted | TooManyRequests(retryAfter: int) | Rejected | Unknown

  datatype Action =
    | Submit(m: Message)
    | ExpireLeases(now: int)
    | Claim(worker: string, now: int, lease: int, k: nat)
    | Screen(d: nat, refusal: Option<string>)
    | CheckRecipient(d: nat)
    | CheckRuntime(d: nat)
    | Hold(d: nat)
    | Send(d: nat)
    | Answer(d: nat, reply: Reply)
    | ReturnRefused(d: nat)
    | Conclude(d: nat)
    | Cancel(d: nat)

  const Init := System(Queue([], map[]), [], map[])

  predicate Live(d: Dispatch) {
    !d.phase.Returned? && !d.phase.Concluded? && !d.phase.Dead?
  }

  /** The provider may have been reached: the call started and was not refused with a 429. */
  predicate Reached(d: Dispatch) {
    d.call.Started? || d.call.Ended?
  }

  // The guard

  function QuietFor(p: Policy, now: int): Option<int> {
    QuietUntil(p.quietHours, p.offset, now)
  }

  predicate QuietAt(p: Policy, now: int) {
    p.quietHours.Some? && Quiet(p.quietHours.value, p.offset, now)
  }

  lemma QuietForExact(p: Policy, now: int)
    ensures QuietFor(p, now).Some? <==> QuietAt(p, now)
  {
    if p.quietHours.Some? {
      QuietUntilExact(p.quietHours.value, p.offset, now);
    }
  }

  ghost predicate WithinLimit(limit: Option<Limit>, q: Queue, runtime: string, subject: Option<string>, now: int, id: string) {
    limit.None? || |Attempts(q, runtime, subject, now - limit.value.window * SECOND, id)| < limit.value.count
  }

  /** The first half of the guard: quiet hours, then the recipient's limit. */
  ghost function RecipientVerdict(p: Policy, q: Queue, m: Message, now: int): Option<int> {
    if QuietFor(p, now).Some? then QuietFor(p, now)
    else if WithinLimit(p.perRecipient, q, m.runtime, Some(m.subject), now, m.id) then None
    else Some(now + p.recheck)
  }

  /** The second half: the runtime's limit. */
  ghost function RuntimeVerdict(p: Policy, q: Queue, m: Message, now: int): Option<int> {
    if WithinLimit(p.perRuntime, q, m.runtime, None, now, m.id) then None else Some(now + p.recheck)
  }

  // Steps

  predicate InPhase(s: System, d: nat, phase: Phase) {
    d < |s.dispatches| && s.dispatches[d].phase == phase
  }

  ghost predicate Enabled(s: System, a: Action) {
    match a
    case Submit(m) =>
      m.status == Queued && forall k :: 0 <= k < |s.queue.messages| ==> s.queue.messages[k].id != m.id
    case ExpireLeases(_) => true
    case Claim(_, now, _, k) => IsChoice(s.queue.messages, now, k)
    case Screen(d, _) => InPhase(s, d, Screening)
    case CheckRecipient(d) => InPhase(s, d, Screened) && s.dispatches[d].message < |s.queue.messages|
    case CheckRuntime(d) => InPhase(s, d, RecipientChecked) && s.dispatches[d].message < |s.queue.messages|
    case Hold(d) => d < |s.dispatches| && s.dispatches[d].phase.Held? && s.dispatches[d].message < |s.queue.messages|
    case Send(d) => InPhase(s, d, Guarded)
    case Answer(d, _) => InPhase(s, d, InFlight)
    case ReturnRefused(d) => d < |s.dispatches| && s.dispatches[d].phase.Refused? && s.dispatches[d].message < |s.queue.messages|
    case Conclude(d) => d < |s.dispatches| && s.dispatches[d].phase.Concluding? && s.dispatches[d].message < |s.queue.messages|
    case Cancel(d) => d < |s.dispatches| && Live(s.dispatches[d])
  }

  function With(s: System, d: nat, changed: Dispatch): System
    requires d < |s.dispatches|
  {
    s.(dispatches := s.dispatches[d := changed])
  }

  /** The dispatch returns its message to the queue. */
  function Return(s: System, d: nat, until: int): System
    requires d < |s.dispatches| && s.dispatches[d].message < |s.queue.messages|
  {
    var k := s.dispatches[d].message;
    System(
      AfterDefer(s.queue, s.queue.messages[k].id, until),
      s.dispatches[d := s.dispatches[d].(phase := Returned)],
      s.current - {k})
  }

  function Answered(x: Dispatch, reply: Reply): Dispatch {
    match reply
    case Accepted => x.(phase := Concluding(Sent, None), call := Ended)
    case TooManyRequests(retryAfter) => x.(phase := Refused(retryAfter), call := RateLimited)
    case Rejected => x.(phase := Concluding(Failed, Some("rejected")), call := Ended)
    case Unknown => x.(phase := Concluding(Ambiguous, Some("send_error")), call := Ended)
  }

  ghost function Apply(p: Policy, s: System, a: Action): System
    requires Enabled(s, a)
  {
    match a
    case Submit(m) => s.(queue := AfterEnqueue(s.queue, m))
    case ExpireLeases(now) => s.(queue := AfterExpire(s.queue, now))
    case Claim(worker, now, lease, k) =>
      System(
        AfterClaim(s.queue, k, worker, now, lease),
        s.dispatches + [Dispatch(k, now, Screening, Unsent, false, false, false)],
        s.current[k := |s.dispatches|])
    case Screen(d, refusal) =>
      var x := s.dispatches[d];
      With(s, d, if refusal.Some? then x.(phase := Concluding(Failed, refusal)) else x.(phase := Screened, screened := true))
    case CheckRecipient(d) =>
      var x := s.dispatches[d];
      var held := RecipientVerdict(p, s.queue, s.queue.messages[x.message], x.now);
      With(s, d, if held.Some? then x.(phase := Held(held.value)) else x.(phase := RecipientChecked, checkedRecipient := true))
    case CheckRuntime(d) =>
      var x := s.dispatches[d];
      var held := RuntimeVerdict(p, s.queue, s.queue.messages[x.message], x.now);
      With(s, d, if held.Some? then x.(phase := Held(held.value)) else x.(phase := Guarded, checkedRuntime := true))
    case Hold(d) => Return(s, d, s.dispatches[d].phase.until)
    case Send(d) => With(s, d, s.dispatches[d].(phase := InFlight, call := Started))
    case Answer(d, reply) => With(s, d, Answered(s.dispatches[d], reply))
    case ReturnRefused(d) => Return(s, d, s.dispatches[d].now + s.dispatches[d].phase.retryAfter)
    case Conclude(d) =>
      var x := s.dispatches[d];
      var q := AfterFinish(s.queue, s.queue.messages[x.message].id, x.phase.status, x.phase.error);
      With(s, d, x.(phase := Concluded)).(queue := q)
    case Cancel(d) => With(s, d, s.dispatches[d].(phase := Dead))
  }

  // The inductive invariant

  /** What one dispatch's own fields say about each other. */
  predicate Coherent(p: Policy, d: Dispatch) {
    && (d.phase.Screening? || d.phase.Screened? || d.phase.RecipientChecked? || d.phase.Guarded? || d.phase.Held? ==>
          d.call == Unsent)
    && (d.phase.Screening? ==> !d.screened)
    && (d.phase.Screened? ==> d.screened)
    && (d.phase.InFlight? ==> d.call == Started)
    && (d.phase.Refused? ==> d.call == RateLimited)
    && (d.phase.Returned? ==> !Reached(d))
    && (d.phase.Screening? || d.phase.Screened? ==> !d.checkedRecipient)
    && (d.phase.RecipientChecked? ==> d.checkedRecipient && !d.checkedRuntime)
    && (d.phase.Guarded? ==> d.checkedRuntime)
    && (d.phase.Concluding? ==> d.phase.status == Sent || d.phase.status == Failed || d.phase.status == Ambiguous)
    && (d.call != Unsent ==> d.checkedRuntime)
    && (d.checkedRuntime ==> d.checkedRecipient)
    && (d.checkedRecipient ==> d.screened && QuietFor(p, d.now).None?)
  }

  /** A message is queued exactly when it has no present claim, and the times record the present claims. */
  predicate CurrentClaims(s: System) {
    && (forall k :: k in s.current ==>
          && k < |s.queue.messages|
          && s.current[k] < |s.dispatches|
          && s.dispatches[s.current[k]].message == k
          && !s.dispatches[s.current[k]].phase.Returned?
          && s.queue.messages[k].id in s.queue.times
          && s.queue.times[s.queue.messages[k].id] == s.dispatches[s.current[k]].now)
    && (forall k: nat :: k < |s.queue.messages| ==> (s.queue.messages[k].status == Queued <==> k !in s.current))
  }

  /** Every claim that did not return its message is the present claim; a live one holds a message that is being sent or lapsed. */
  predicate OneClaim(s: System) {
    forall i :: 0 <= i < |s.dispatches| ==>
      var d := s.dispatches[i];
      && d.message < |s.queue.messages|
      && (!d.phase.Returned? ==> d.message in s.current && s.current[d.message] == i)
      && (Live(d) ==> s.queue.messages[d.message].status == Sending || s.queue.messages[d.message].status == Ambiguous)
  }

  predicate Inv(p: Policy, s: System) {
    && UniqueIds(s.queue.messages)
    && CurrentClaims(s)
    && OneClaim(s)
    && forall i :: 0 <= i < |s.dispatches| ==> Coherent(p, s.dispatches[i])
  }

  lemma InvWith(p: Policy, s: System, d: nat, changed: Dispatch)
    requires Inv(p, s) && d < |s.dispatches| && Live(s.dispatches[d])
    requires changed.message == s.dispatches[d].message && changed.now == s.dispatches[d].now
    requires !changed.phase.Returned? && Coherent(p, changed)
    ensures Inv(p, With(s, d, changed))
  {
  }

  /** The step that gives up the present claim of k: k is queued again and loses its claim time. */
  predicate GivesUp(s: System, s': System, k: nat, m: Message) {
    && k in s.current && k < |s.queue.messages| && s.current[k] < |s.dispatches|
    && (forall j :: 0 <= j < |s.queue.messages| && j != k ==> s.queue.messages[j].id != s.queue.messages[k].id)
    && m.status == Queued && m.id == s.queue.messages[k].id
    && s'.queue == Queue(s.queue.messages[k := m], s.queue.times - {m.id})
    && s'.current == s.current - {k}
    && s'.dispatches == s.dispatches[s.current[k] := s.dispatches[s.current[k]].(phase := Returned)]
  }

  lemma ReturnKeepsCurrent(s: System, s': System, k: nat, m: Message)
    requires CurrentClaims(s) && OneClaim(s) && GivesUp(s, s', k, m)
    ensures CurrentClaims(s')
  {
    assert forall j :: j in s'.current ==> j != k && s'.current[j] == s.current[j] && s.current[j] != s.current[k];
  }

  lemma ReturnKeepsOne(s: System, s': System, k: nat, m: Message)
    requires CurrentClaims(s) && OneClaim(s) && GivesUp(s, s', k, m)
    ensures OneClaim(s')
  {
  }

  lemma ReturnedIsCoherent(p: Policy, x: Dispatch)
    requires Coherent(p, x) && (x.phase.Held? || x.phase.Refused?)
    ensures Coherent(p, x.(phase := Returned))
  {
  }

  lemma InvReturn(p: Policy, s: System, d: nat, until: int)
    requires Inv(p, s) && d < |s.dispatches|
    requires s.dispatches[d].phase.Held? || s.dispatches[d].phase.Refused?
    ensures Inv(p, Return(s, d, until))
  {
    var k := s.dispatches[d].message;
    var m := s.queue.messages[k];
    RewriteAt(s.queue.messages, k, x => Deferred(x, until));
    ReturnedIsCoherent(p, s.dispatches[d]);
    assert GivesUp(s, Return(s, d, until), k, Deferred(m, until));
    hide CurrentClaims, OneClaim, UniqueIds, Coherent, GivesUp;
    ReturnKeepsCurrent(s, Return(s, d, until), k, Deferred(m, until));
    ReturnKeepsOne(s, Return(s, d, until), k, Deferred(m, until));
  }

  lemma InvConclude(p: Policy, s: System, d: nat)
    requires Inv(p, s) && Enabled(s, Conclude(d))
    ensures Inv(p, Apply(p, s, Conclude(d)))
  {
    var s' := Apply(p, s, Conclude(d));
    var x := s.dispatches[d];
    RewriteAt(s.queue.messages, x.message, m => Finished(m, x.phase.status, x.phase.error));
    hide CurrentClaims, OneClaim, UniqueIds;
    FinishKeepsClaims(s, s', d, Finished(s.queue.messages[x.message], x.phase.status, x.phase.error));
  }

  /** A final status for the message of a dispatch keeps the bookkeeping. */
  lemma FinishKeepsClaims(s: System, s': System, d: nat, m: Message)
    requires CurrentClaims(s) && OneClaim(s) && d < |s.dispatches| && s.dispatches[d].phase.Concluding?
    requires s.dispatches[d].message < |s.queue.messages|
    requires m.id == s.queue.messages[s.dispatches[d].message].id && m.status != Queued
    requires s' == s.(queue := s.queue.(messages := s.queue.messages[s.dispatches[d].message := m]),
                      dispatches := s.dispatches[d := s.dispatches[d].(phase := Concluded)])
    ensures CurrentClaims(s') && OneClaim(s')
  {
  }

  lemma InvExpire(p: Policy, s: System, now: int)
    requires Inv(p, s)
    ensures Inv(p, Apply(p, s, ExpireLeases(now)))
  {
    var s' := Apply(p, s, ExpireLeases(now));
    assert UniqueIds(s'.queue.messages);
    assert CurrentClaims(s');
    assert OneClaim(s');
  }

  /** The step that makes the next dispatch the present claim of a queued message k. */
  predicate TakesUp(s: System, s': System, k: nat, m: Message, now: int) {
    && k < |s.queue.messages| && k !in s.current
    && (forall j :: 0 <= j < |s.queue.messages| && j != k ==> s.queue.messages[j].id != s.queue.messages[k].id)
    && m.status == Sending && m.id == s.queue.messages[k].id
    && s'.queue == Queue(s.queue.messages[k := m], s.queue.times[m.id := now])
    && s'.current == s.current[k := |s.dispatches|]
    && s'.dispatches == s.dispatches + [Dispatch(k, now, Screening, Unsent, false, false, false)]
  }

  lemma ClaimKeepsCurrent(s: System, s': System, k: nat, m: Message, now: int)
    requires CurrentClaims(s) && TakesUp(s, s', k, m, now)
    ensures CurrentClaims(s')
  {
  }

  lemma ClaimKeepsOne(s: System, s': System, k: nat, m: Message, now: int)
    requires OneClaim(s) && TakesUp(s, s', k, m, now)
    ensures OneClaim(s')
  {
  }

  lemma InvClaim(p: Policy, s: System, worker: string, now: int, lease: int, k: nat)
    requires Inv(p, s) && Enabled(s, Claim(worker, now, lease, k))
    ensures Inv(p, Apply(p, s, Claim(worker, now, lease, k)))
  {
    var e := Apply(p, s, ExpireLeases(now));
    InvExpire(p, s, now);
    var m := e.queue.messages[k];
    RewriteAt(e.queue.messages, k, x => ProactiveQueue.Claimed(x, worker, now, lease));
    var s' := Apply(p, s, Claim(worker, now, lease, k));
    ClaimKeepsCurrent(e, s', k, ProactiveQueue.Claimed(m, worker, now, lease), now);
    ClaimKeepsOne(e, s', k, ProactiveQueue.Claimed(m, worker, now, lease), now);
  }

  /** The steps that change nothing but one dispatch. */
  predicate DispatchOnly(a: Action) {
    a.Screen? || a.CheckRecipient? || a.CheckRuntime? || a.Send? || a.Answer? || a.Cancel?
  }

  lemma InvDispatchOnly(p: Policy, s: System, a: Action)
    requires Inv(p, s) && Enabled(s, a) && DispatchOnly(a)
    ensures Inv(p, Apply(p, s, a))
  {
    InvWith(p, s, a.d, Apply(p, s, a).dispatches[a.d]);
  }

  lemma InvSubmit(p: Policy, s: System, m: Message)
    requires Inv(p, s) && Enabled(s, Submit(m))
    ensures Inv(p, Apply(p, s, Submit(m)))
  {
    var s' := Apply(p, s, Submit(m));
    assert UniqueIds(s'.queue.messages);
    assert CurrentClaims(s');
    assert OneClaim(s');
  }

  predicate Returns(a: Action) {
    a.Hold? || a.ReturnRefused?
  }

  ghost function ReturnTime(s: System, a: Action): int
    requires Returns(a) && Enabled(s, a)
  {
    if a.Hold? then s.dispatches[a.d].phase.until else s.dispatches[a.d].now + s.dispatches[a.d].phase.retryAfter
  }

  lemma ReturnsAre(p: Policy, s: System, a: Action)
    requires Returns(a) && Enabled(s, a)
    ensures a.d < |s.dispatches| && (s.dispatches[a.d].phase.Held? || s.dispatches[a.d].phase.Refused?)
    ensures s.dispatches[a.d].message < |s.queue.messages| && Apply(p, s, a) == Return(s, a.d, ReturnTime(s, a))
  {
  }

  lemma InvPreserved(p: Policy, s: System, a: Action)
    requires Inv(p, s) && Enabled(s, a)
    ensures Inv(p, Apply(p, s, a))
  {
    hide Inv, Enabled, Apply, Return, ReturnTime;
    if DispatchOnly(a) {
      InvDispatchOnly(p, s, a);
    } else if Returns(a) {
      ReturnsAre(p, s, a);
      InvReturn(p, s, a.d, ReturnTime(s, a));
    } else {
      match a
      case Submit(m) => InvSubmit(p, s, m);
      case ExpireLeases(now) => InvExpire(p, s, now);
      case Claim(worker, now, lease, k) => InvClaim(p, s, worker, now, lease, k);
      case Conclude(d) => InvConclude(p, s, d);
    }
  }

  // At most once

  /** No two claims of one message both reached the provider. */
  predicate AtMostOnce(s: System) {
    forall i, j :: 0 <= i < j < |s.dispatches| && s.dispatches[i].message == s.dispatches[j].message ==>
      !(Reached(s.dispatches[i]) && Reached(s.dispatches[j]))
  }

  /** A queued message never reached the provider and nobody is working on it. */
  predicate QueuedUntouched(s: System) {
    forall i ::
      (0 <= i < |s.dispatches| && s.dispatches[i].message < |s.queue.messages|
       && s.queue.messages[s.dispatches[i].message].status == Queued) ==>
      !Reached(s.dispatches[i]) && !Live(s.dispatches[i])
  }

  /** No provider call was started for a claim made inside quiet hours. */
  predicate NoQuietSend(p: Policy, s: System) {
    forall i :: 0 <= i < |s.dispatches| && s.dispatches[i].call != Unsent ==> !QuietAt(p, s.dispatches[i].now)
  }

  /** No provider call was started for a claim whose permission, recipient or channel was refused. */
  predicate NoUnscreenedSend(s: System) {
    forall i :: 0 <= i < |s.dispatches| && s.dispatches[i].call != Unsent ==> s.dispatches[i].screened
  }

  lemma InvIsSafe(p: Policy, s: System)
    requires Inv(p, s)
    ensures AtMostOnce(s) && QueuedUntouched(s) && NoQuietSend(p, s) && NoUnscreenedSend(s)
  {
    forall i | 0 <= i < |s.dispatches| && s.dispatches[i].call != Unsent
      ensures !QuietAt(p, s.dispatches[i].now)
    {
      QuietForExact(p, s.dispatches[i].now);
    }
  }

  // Rate limits

  /** What a limit ranges over: one recipient of a runtime, or the whole runtime. */
  datatype Scope = OneRecipient(runtime: string, subject: string) | WholeRuntime(runtime: string)

  function LimitOf(p: Policy, scope: Scope): Option<Limit> {
    if scope.OneRecipient? then p.perRecipient else p.perRuntime
  }

  predicate InScope(m: Message, scope: Scope) {
    m.runtime == scope.runtime && (scope.OneRecipient? ==> m.subject == scope.subject)
  }

  predicate Checked(d: Dispatch, scope: Scope) {
    if scope.OneRecipient? then d.checkedRecipient else d.checkedRuntime
  }

  /** The provider may have been reached for message k, and its present claim passed the check of this scope. */
  predicate Spent(s: System, scope: Scope, k: nat) {
    && k < |s.queue.messages|
    && InScope(s.queue.messages[k], scope)
    && Attempted(s.queue.messages[k].status)
    && k in s.current && s.current[k] < |s.dispatches|
    && Checked(s.dispatches[s.current[k]], scope)
  }

  function ClaimTime(s: System, k: nat): int
    requires k in s.current && s.current[k] < |s.dispatches|
  {
    s.dispatches[s.current[k]].now
  }

  /** Messages of one scope whose claim times lie within one window. */
  predicate Burst(s: System, scope: Scope, window: int, ks: set<nat>) {
    && (forall k :: k in ks ==> Spent(s, scope, k))
    && (forall a, b :: a in ks && b in ks ==> ClaimTime(s, a) - ClaimTime(s, b) <= window)
  }

  ghost predicate RateBounded(p: Policy, s: System) {
    forall scope, ks ::
      LimitOf(p, scope).Some? && ks != {}
      && Burst(s, scope, LimitOf(p, scope).value.window * SECOND, ks) ==>
      |ks| <= LimitOf(p, scope).value.count
  }

  /** The step by which message k comes to count in the scope, if the step is such a check. */
  predicate Spends(s: System, a: Action, scope: Scope, k: nat) {
    match a
    case CheckRecipient(d) => scope.OneRecipient? && d < |s.dispatches| && s.dispatches[d].message == k
    case CheckRuntime(d) => scope.WholeRuntime? && d < |s.dispatches| && s.dispatches[d].message == k
    case _ => false
  }

  lemma SpentBeforeDispatchStep(p: Policy, s: System, a: Action, scope: Scope, k: nat)
    requires CurrentClaims(s) && OneClaim(s) && Enabled(s, a) && DispatchOnly(a)
    requires Spent(Apply(p, s, a), scope, k) && !Spends(s, a, scope, k)
    ensures Spent(s, scope, k) && ClaimTime(Apply(p, s, a), k) == ClaimTime(s, k)
  {
    hide RecipientVerdict, RuntimeVerdict, Attempted, InScope;
    var d := s.current[k];
    assert s.dispatches[d].message == k;
  }

  lemma SpentBeforeReturn(p: Policy, s: System, a: Action, scope: Scope, k: nat)
    requires Inv(p, s) && Enabled(s, a) && Returns(a)
    requires Spent(Apply(p, s, a), scope, k)
    ensures Spent(s, scope, k) && ClaimTime(Apply(p, s, a), k) == ClaimTime(s, k)
  {
    var j := s.dispatches[a.d].message;
    var until := ReturnTime(s, a);
    RewriteAt(s.queue.messages, j, x => Deferred(x, until));
    assert s.current[k] != a.d;
    hide UniqueIds, Coherent, CurrentClaims;
  }

  lemma SpentBeforeConclude(p: Policy, s: System, a: Action, scope: Scope, k: nat)
    requires Inv(p, s) && Enabled(s, a) && a.Conclude?
    requires Spent(Apply(p, s, a), scope, k)
    ensures Spent(s, scope, k) && ClaimTime(Apply(p, s, a), k) == ClaimTime(s, k)
  {
    var x := s.dispatches[a.d];
    RewriteAt(s.queue.messages, x.message, m => Finished(m, x.phase.status, x.phase.error));
    hide UniqueIds, Coherent;
  }

  lemma SpentBeforeClaim(p: Policy, s: System, a: Action, scope: Scope, k: nat)
    requires Inv(p, s) && Enabled(s, a) && a.Claim?
    requires Spent(Apply(p, s, a), scope, k)
    ensures Spent(s, scope, k) && ClaimTime(Apply(p, s, a), k) == ClaimTime(s, k)
  {
    var e := Apply(p, s, ExpireLeases(a.now));
    InvExpire(p, s, a.now);
    RewriteAt(e.queue.messages, a.k, m => ProactiveQueue.Claimed(m, a.worker, a.now, a.lease));
    assert Spent(e, scope, k);
  }

  /** Only the check itself makes a message count; every other step can only make it stop counting. */
  lemma SpentBefore(p: Policy, s: System, a: Action, scope: Scope, k: nat)
    requires Inv(p, s) && Enabled(s, a)
    requires Spent(Apply(p, s, a), scope, k) && !Spends(s, a, scope, k)
    ensures Spent(s, scope, k) && ClaimTime(Apply(p, s, a), k) == ClaimTime(s, k)
  {
    if DispatchOnly(a) {
      SpentBeforeDispatchStep(p, s, a, scope, k);
    } else if Returns(a) {
      SpentBeforeReturn(p, s, a, scope, k);
    } else if a.Conclude? {
      SpentBeforeConclude(p, s, a, scope, k);
    } else if a.Claim? {
      SpentBeforeClaim(p, s, a, scope, k);
    }
  }

  /** What the check of message k counts: the attempts of its scope in the window before its claim. */
  ghost function Seen(s: System, scope: Scope, window: int, k: nat): set<nat>
    requires k < |s.queue.messages| && k in s.current && s.current[k] < |s.dispatches|
  {
    var m := s.queue.messages[k];
    var subject := if scope.OneRecipient? then Some(m.subject) else None;
    Attempts(s.queue, m.runtime, subject, ClaimTime(s, k) - window, m.id)
  }

  /** A check lets message k through only when it counts fewer attempts than the limit. */
  lemma PassedCheckSawFew(p: Policy, s: System, a: Action, scope: Scope, k: nat)
    requires CurrentClaims(s) && OneClaim(s) && Enabled(s, a)
    requires Spends(s, a, scope, k) && LimitOf(p, scope).Some? && k in s.current
    requires s.current[k] == a.d && Coherent(p, s.dispatches[a.d])
    requires Spent(Apply(p, s, a), scope, k)
    ensures
      var limit := LimitOf(p, scope).value;
      |Seen(s, scope, limit.window * SECOND, k)| < limit.count
  {
  }

  /** Every other message of the burst was counted by the check. */
  lemma CheckSawOthers(p: Policy, s: System, a: Action, scope: Scope, window: int, k: nat, j: nat)
    requires Inv(p, s) && Enabled(s, a) && Spends(s, a, scope, k) && j != k && k in s.current
    requires Spent(Apply(p, s, a), scope, j) && InScope(s.queue.messages[k], scope)
    requires ClaimTime(s, k) - ClaimTime(Apply(p, s, a), j) <= window
    ensures j in Seen(s, scope, window, k)
  {
    SpentBefore(p, s, a, scope, j);
    RewriteAt(s.queue.messages, k, m => m);
  }

  lemma CheckBoundsBurst(p: Policy, s: System, a: Action, scope: Scope, k: nat, ks: set<nat>)
    requires Inv(p, s) && Enabled(s, a) && Spends(s, a, scope, k) && k in ks
    requires LimitOf(p, scope).Some?
    requires Burst(Apply(p, s, a), scope, LimitOf(p, scope).value.window * SECOND, ks)
    ensures |ks| <= LimitOf(p, scope).value.count
  {
    var window := LimitOf(p, scope).value.window * SECOND;
    var s' := Apply(p, s, a);
    assert Spent(s', scope, k) && ClaimTime(s', k) == ClaimTime(s, k);
    PassedCheckSawFew(p, s, a, scope, k);
    var others := ks - {k};
    forall j | j in others
      ensures j in Seen(s, scope, window, k)
    {
      assert Spent(s', scope, j) && ClaimTime(s', k) - ClaimTime(s', j) <= window;
      CheckSawOthers(p, s, a, scope, window, k, j);
    }
    SubsetSize(others, Seen(s, scope, window, k));
    assert ks == others + {k};
  }

  lemma RatePreserved(p: Policy, s: System, a: Action)
    requires Inv(p, s) && Enabled(s, a) && RateBounded(p, s)
    ensures RateBounded(p, Apply(p, s, a))
  {
    var s' := Apply(p, s, a);
    forall scope, ks | LimitOf(p, scope).Some? && ks != {}
      && Burst(s', scope, LimitOf(p, scope).value.window * SECOND, ks)
      ensures |ks| <= LimitOf(p, scope).value.count
    {
      var window := LimitOf(p, scope).value.window * SECOND;
      if k :| k in ks && Spends(s, a, scope, k) {
        CheckBoundsBurst(p, s, a, scope, k, ks);
      } else {
        forall k | k in ks
          ensures Spent(s, scope, k) && ClaimTime(s', k) == ClaimTime(s, k)
        {
          SpentBefore(p, s, a, scope, k);
        }
        assert Burst(s, scope, window, ks);
      }
    }
  }

  // Runs

  /** Every action is enabled when its turn comes. */
  ghost predicate Legal(p: Policy, s: System, actions: seq<Action>)
    decreases actions
  {
    actions == [] || (Enabled(s, actions[0]) && Legal(p, Apply(p, s, actions[0]), actions[1..]))
  }

  ghost function Run(p: Policy, s: System, actions: seq<Action>): System
    requires Legal(p, s, actions)
    decreases actions
  {
    if actions == [] then s else Run(p, Apply(p, s, actions[0]), actions[1..])
  }

  lemma {:induction false} InvOverRuns(p: Policy, s: System, actions: seq<Action>)
    requires Inv(p, s) && RateBounded(p, s) && Legal(p, s, actions)
    ensures Inv(p, Run(p, s, actions)) && RateBounded(p, Run(p, s, actions))
    decreases actions
  {
    if actions != [] {
      InvPreserved(p, s, actions[0]);
      RatePreserved(p, s, actions[0]);
      InvOverRuns(p, Apply(p, s, actions[0]), actions[1..]);
    }
  }

  lemma DeliveryIsSafe(p: Policy, actions: seq<Action>)
    requires Legal(p, Init, actions)
    ensures AtMostOnce(Run(p, Init, actions))
    ensures QueuedUntouched(Run(p, Init, actions))
    ensures NoQuietSend(p, Run(p, Init, actions))
    ensures NoUnscreenedSend(Run(p, Init, actions))
  {
    assert RateBounded(p, Init);
    InvOverRuns(p, Init, actions);
    InvIsSafe(p, Run(p, Init, actions));
  }

  lemma RateLimitHolds(p: Policy, actions: seq<Action>)
    requires Legal(p, Init, actions)
    ensures RateBounded(p, Run(p, Init, actions))
  {
    assert RateBounded(p, Init);
    InvOverRuns(p, Init, actions);
  }
}
