/**
 The rate limits from below. A check passes exactly when fewer messages than
 the limit were attempted, and what keeps to the limits can all go out at once.
 */
module Allowance {
  import opened Common
  import opened ProactiveQueue
  import opened Delivery
  import Dispatcher

  // One check

  /** The other messages of the scope that were claimed since then and may have been sent. */
  ghost function Rivals(s: System, scope: Scope, since: int, k: nat): set<nat> {
    set j: nat |
      && j < |s.queue.messages| && j != k && InScope(s.queue.messages[j], scope)
      && s.queue.messages[j].status != Queued && s.queue.messages[j].status != Failed
      && j in s.current && s.current[j] < |s.dispatches| && ClaimTime(s, j) >= since
  }

  /** The limit leaves room for one more message. */
  ghost predicate HasRoom(s: System, limit: Option<Limit>, scope: Scope, now: int, k: nat) {
    limit.Some? ==> |Rivals(s, scope, now - limit.value.window * SECOND, k)| < limit.value.count
  }

  function RecipientOf(m: Message): Scope {
    OneRecipient(m.runtime, m.subject)
  }

  function RuntimeOf(m: Message): Scope {
    WholeRuntime(m.runtime)
  }

  /** In every state the invariant allows, a check counts exactly the rivals. */
  lemma RivalsAreCounted(p: Policy, s: System, since: int, k: nat)
    requires Inv(p, s) && k < |s.queue.messages|
    ensures var m := s.queue.messages[k];
      && Attempts(s.queue, m.runtime, Some(m.subject), since, m.id) == Rivals(s, RecipientOf(m), since, k)
      && Attempts(s.queue, m.runtime, None, since, m.id) == Rivals(s, RuntimeOf(m), since, k)
  {
  }

  /** Outside quiet hours the recipient's check passes exactly when its limit has room; otherwise the message waits. */
  lemma RecipientCheckExact(p: Policy, s: System, d: nat)
    requires Inv(p, s) && Enabled(s, CheckRecipient(d))
    ensures var x := s.dispatches[d];
      var next := Apply(p, s, CheckRecipient(d)).dispatches[d];
      var room := HasRoom(s, p.perRecipient, RecipientOf(s.queue.messages[x.message]), x.now, x.message);
      && (next.phase.RecipientChecked? <==> !QuietAt(p, x.now) && room)
      && (!QuietAt(p, x.now) && !room ==> next.phase == Held(x.now + p.recheck))
  {
    var x := s.dispatches[d];
    QuietForExact(p, x.now);
    if p.perRecipient.Some? {
      RivalsAreCounted(p, s, x.now - p.perRecipient.value.window * SECOND, x.message);
    }
    hide Inv, QuietFor, QuietAt, Rivals, Attempts;
  }

  /** The runtime's check passes exactly when its limit has room; otherwise the message waits. */
  lemma RuntimeCheckExact(p: Policy, s: System, d: nat)
    requires Inv(p, s) && Enabled(s, CheckRuntime(d))
    ensures var x := s.dispatches[d];
      var next := Apply(p, s, CheckRuntime(d)).dispatches[d];
      var room := HasRoom(s, p.perRuntime, RuntimeOf(s.queue.messages[x.message]), x.now, x.message);
      next.phase == if room then Guarded else Held(x.now + p.recheck)
  {
    var x := s.dispatches[d];
    if p.perRuntime.Some? {
      RivalsAreCounted(p, s, x.now - p.perRuntime.value.window * SECOND, x.message);
    }
    hide Inv, Rivals, Attempts;
  }

  // A batch of messages

  /** New messages, all due. */
  predicate IsBatch(ms: seq<Message>, now: int) {
    UniqueIds(ms) && forall k :: 0 <= k < |ms| ==> Due(ms[k], now)
  }

  /** The messages of the batch in a scope. */
  function Members(ms: seq<Message>, scope: Scope): set<nat> {
    set k: nat | k < |ms| && InScope(ms[k], scope)
  }

  ghost predicate KeepsLimit(p: Policy, ms: seq<Message>, scope: Scope) {
    LimitOf(p, scope).Some? ==> |Members(ms, scope)| <= LimitOf(p, scope).value.count
  }

  /** No recipient gets more of the batch than its limit; and with runtimes, no runtime sends more. */
  ghost predicate KeepsLimits(p: Policy, ms: seq<Message>, runtimes: bool) {
    forall k :: 0 <= k < |ms| ==>
      KeepsLimit(p, ms, RecipientOf(ms[k])) && (runtimes ==> KeepsLimit(p, ms, RuntimeOf(ms[k])))
  }

  /** A claim of message k at this time that passed the recipient's check, or both checks and reached the provider. */
  function Passed(k: nat, now: int, sent: bool): Dispatch {
    if sent then Dispatch(k, now, InFlight, Started, true, true, true)
    else Dispatch(k, now, RecipientChecked, Unsent, true, true, false)
  }

  function Underway(m: Message, now: int): Message {
    Claimed(m, "", now, 1)
  }

  /** The first n messages of the batch are in the queue, each claimed once and passed as above. */
  predicate Out(s: System, ms: seq<Message>, n: nat, now: int, sent: bool) {
    && n <= |ms| && |s.queue.messages| == n && |s.dispatches| == n
    && forall k: nat :: k < n ==>
         && s.queue.messages[k] == Underway(ms[k], now)
         && s.dispatches[k] == Passed(k, now, sent)
         && k in s.current && s.current[k] == k
  }

  /** The state just after message n was claimed. */
  ghost function Arrived(p: Policy, s: System, m: Message, now: int): System
    requires Enabled(s, Submit(m)) && Enabled(Apply(p, s, Submit(m)), Action.Claim("", now, 1, |s.queue.messages|))
  {
    Apply(p, Apply(p, s, Submit(m)), Action.Claim("", now, 1, |s.queue.messages|))
  }

  /** The state with message n claimed as well. */
  predicate HasArrived(t: System, ms: seq<Message>, n: nat, now: int, sent: bool) {
    && n < |ms| && |t.queue.messages| == |t.dispatches| == n + 1
    && (forall k: nat :: k <= n ==> t.queue.messages[k] == Underway(ms[k], now) && k in t.current && t.current[k] == k)
    && (forall k: nat :: k < n ==> t.dispatches[k] == Passed(k, now, sent))
    && t.dispatches[n] == Dispatch(n, now, Screening, Unsent, false, false, false)
  }

  /** One more message, claimed as dispatch n; nothing else changed. */
  predicate JoinedBy(s: System, t: System, n: nat, m: Message, now: int) {
    && t.queue.messages == s.queue.messages + [m]
    && t.dispatches == s.dispatches + [Dispatch(n, now, Screening, Unsent, false, false, false)]
    && t.current == s.current[n := n]
  }

  /** Behind messages that are being sent the new one is the one to claim, and claiming it leaves them alone. */
  lemma LastIsClaimed(q: Queue, before: seq<Message>, m: Message, now: int)
    requires q.messages == before + [m] && UniqueIds(q.messages) && Due(m, now)
    requires forall k :: 0 <= k < |before| ==> before[k].status == Sending && before[k].leaseExpiresAt == Some(now + 1)
    ensures IsChoice(q.messages, now, |before|)
    ensures AfterClaim(q, |before|, "", now, 1).messages == before + [Underway(m, now)]
  {
    var n, expired := |before|, ExpireAll(q.messages, now);
    assert forall k :: 0 <= k < n ==> q.messages[k] == before[k] && !Due(q.messages[k], now);
    assert q.messages[n] == m;
    assert expired == q.messages;
    RewriteAt(expired, n, x => Claimed(x, "", now, 1));
  }

  lemma CanArrive(p: Policy, s: System, ms: seq<Message>, n: nat, now: int, sent: bool)
    requires IsBatch(ms, now) && Out(s, ms, n, now, sent) && n < |ms|
    ensures Enabled(s, Submit(ms[n])) && Enabled(Apply(p, s, Submit(ms[n])), Action.Claim("", now, 1, n))
    ensures JoinedBy(s, Arrived(p, s, ms[n], now), n, Underway(ms[n], now), now)
  {
    var before, m := s.queue.messages, ms[n];
    var q := AfterEnqueue(s.queue, m);
    assert forall k :: 0 <= k < n ==> before[k] == Underway(ms[k], now) && before[k].id == ms[k].id;
    assert UniqueIds(q.messages);
    LastIsClaimed(q, before, m, now);
    hide UniqueIds, IsChoice, AfterClaim, Out;
  }

  lemma AllHaveArrived(s: System, t: System, ms: seq<Message>, n: nat, now: int, sent: bool)
    requires Out(s, ms, n, now, sent) && n < |ms| && JoinedBy(s, t, n, Underway(ms[n], now), now)
    ensures HasArrived(t, ms, n, now, sent)
  {
  }

  lemma RivalsAreMembers(t: System, ms: seq<Message>, n: nat, now: int, scope: Scope, since: int)
    requires n < |ms| && |t.queue.messages| == n + 1 && InScope(ms[n], scope)
    requires forall k: nat :: k <= n ==> t.queue.messages[k] == Underway(ms[k], now)
    ensures |Rivals(t, scope, since, n)| < |Members(ms, scope)|
  {
    var others := Members(ms, scope) - {n};
    assert Members(ms, scope) == others + {n};
    SubsetSize(Rivals(t, scope, since, n), others);
  }

  /** A batch that keeps the limit leaves room for each of its messages. */
  lemma RoomInBatch(p: Policy, t: System, ms: seq<Message>, n: nat, now: int, scope: Scope)
    requires n < |ms| && |t.queue.messages| == n + 1 && InScope(ms[n], scope) && KeepsLimit(p, ms, scope)
    requires forall k: nat :: k <= n ==> t.queue.messages[k] == Underway(ms[k], now)
    ensures HasRoom(t, LimitOf(p, scope), scope, now, n)
  {
    if LimitOf(p, scope).Some? {
      RivalsAreMembers(t, ms, n, now, scope, now - LimitOf(p, scope).value.window * SECOND);
    }
  }

  lemma VerdictsPass(p: Policy, t: System, n: nat, now: int)
    requires Inv(p, t) && n < |t.queue.messages| && !QuietAt(p, now)
    requires HasRoom(t, p.perRecipient, RecipientOf(t.queue.messages[n]), now, n)
    ensures RecipientVerdict(p, t.queue, t.queue.messages[n], now).None?
    ensures HasRoom(t, p.perRuntime, RuntimeOf(t.queue.messages[n]), now, n) ==>
      RuntimeVerdict(p, t.queue, t.queue.messages[n], now).None?
  {
    QuietForExact(p, now);
    if p.perRecipient.Some? {
      RivalsAreCounted(p, t, now - p.perRecipient.value.window * SECOND, n);
    }
    if p.perRuntime.Some? {
      RivalsAreCounted(p, t, now - p.perRuntime.value.window * SECOND, n);
    }
    hide Inv, QuietFor, QuietAt, Rivals, Attempts;
  }

  /** A claimed message for which the limits have room passes, and is sent. */
  lemma PassedRun(p: Policy, t: System, n: nat, now: int, sent: bool) returns (actions: seq<Action>)
    requires Inv(p, t) && Dispatcher.JustClaimed(t, n, n, now) && !QuietAt(p, now)
    requires HasRoom(t, p.perRecipient, RecipientOf(t.queue.messages[n]), now, n)
    requires sent ==> HasRoom(t, p.perRuntime, RuntimeOf(t.queue.messages[n]), now, n)
    ensures Dispatcher.Leads(p, t, actions, With(t, n, Passed(n, now, sent)))
  {
    VerdictsPass(p, t, n, now);
    hide Inv, HasRoom, RecipientVerdict, RuntimeVerdict, Dispatcher.Leads;
    if sent {
      actions := Dispatcher.GuardedRun(p, t, n, n, now);
      var x := Dispatch(n, now, Guarded, Unsent, true, true, true);
      Dispatcher.LeadsThen(p, t, actions, With(t, n, x), Send(n));
      Dispatcher.WithTwice(t, n, x, Passed(n, now, true));
      actions := actions + [Send(n)];
    } else {
      actions := Dispatcher.RecipientRun(p, t, n, n, now);
    }
  }

  lemma ArrivalRun(p: Policy, s: System, m: Message, now: int) returns (actions: seq<Action>)
    requires Inv(p, s)
    requires Enabled(s, Submit(m)) && Enabled(Apply(p, s, Submit(m)), Action.Claim("", now, 1, |s.queue.messages|))
    ensures Dispatcher.Leads(p, s, actions, Arrived(p, s, m, now)) && Inv(p, Arrived(p, s, m, now))
  {
    var s1, claim := Apply(p, s, Submit(m)), Action.Claim("", now, 1, |s.queue.messages|);
    InvPreserved(p, s, Submit(m));
    InvPreserved(p, s1, claim);
    hide Inv, Enabled, Apply;
    Dispatcher.LeadsThen(p, s, [], s, Submit(m));
    Dispatcher.LeadsThen(p, s, [] + [Submit(m)], s1, claim);
    actions := [] + [Submit(m)] + [claim];
  }

  lemma ArrivesBehind(p: Policy, s: System, ms: seq<Message>, n: nat, now: int, sent: bool) returns (actions: seq<Action>, t: System)
    requires Inv(p, s) && IsBatch(ms, now) && Out(s, ms, n, now, sent) && n < |ms|
    ensures Dispatcher.Leads(p, s, actions, t) && Inv(p, t) && HasArrived(t, ms, n, now, sent)
  {
    CanArrive(p, s, ms, n, now, sent);
    t := Arrived(p, s, ms[n], now);
    AllHaveArrived(s, t, ms, n, now, sent);
    assert |s.queue.messages| == n;
    hide *;
    actions := ArrivalRun(p, s, ms[n], now);
  }

  lemma OneMoreOut(p: Policy, s: System, ms: seq<Message>, n: nat, now: int, sent: bool) returns (actions: seq<Action>, t: System)
    requires Inv(p, s) && IsBatch(ms, now) && Out(s, ms, n, now, sent) && n < |ms|
    requires KeepsLimits(p, ms, sent) && !QuietAt(p, now)
    ensures Dispatcher.Leads(p, s, actions, t) && Out(t, ms, n + 1, now, sent)
  {
    hide Inv, HasRoom, Dispatcher.Leads, Out, QuietAt, IsBatch;
    var first, u := ArrivesBehind(p, s, ms, n, now, sent);
    RoomInBatch(p, u, ms, n, now, RecipientOf(ms[n]));
    if sent {
      RoomInBatch(p, u, ms, n, now, RuntimeOf(ms[n]));
    }
    var second := PassedRun(p, u, n, now, sent);
    t := With(u, n, Passed(n, now, sent));
    OutWith(u, ms, n, now, sent);
    Dispatcher.LeadsAppend(p, s, first, u, second, t);
    actions := first + second;
  }

  lemma OutWith(t: System, ms: seq<Message>, n: nat, now: int, sent: bool)
    requires HasArrived(t, ms, n, now, sent)
    ensures Out(With(t, n, Passed(n, now, sent)), ms, n + 1, now, sent)
  {
  }

  lemma {:induction false} FirstOut(p: Policy, ms: seq<Message>, n: nat, now: int, sent: bool)
    returns (actions: seq<Action>, s: System)
    requires IsBatch(ms, now) && KeepsLimits(p, ms, sent) && !QuietAt(p, now) && n <= |ms|
    ensures Dispatcher.Leads(p, Init, actions, s) && Out(s, ms, n, now, sent)
  {
    if n == 0 {
      actions, s := [], Init;
    } else {
      var front, t := FirstOut(p, ms, n - 1, now, sent);
      assert RateBounded(p, Init);
      InvOverRuns(p, Init, front);
      var more, u := OneMoreOut(p, t, ms, n - 1, now, sent);
      Dispatcher.LeadsAppend(p, Init, front, t, more, u);
      actions, s := front + more, u;
    }
  }

  /** The messages of the batch are out, each sent once, after a legal run that ends now. */
  ghost predicate CanGoOut(p: Policy, ms: seq<Message>, now: int) {
    exists actions :: Legal(p, Init, actions) && Out(Run(p, Init, actions), ms, |ms|, now, true)
  }

  lemma OutKeepsLimit(p: Policy, s: System, ms: seq<Message>, now: int, scope: Scope)
    requires RateBounded(p, s) && Out(s, ms, |ms|, now, true) && Members(ms, scope) != {}
    requires LimitOf(p, scope).Some? ==> LimitOf(p, scope).value.window >= 0
    ensures KeepsLimit(p, ms, scope)
  {
    if LimitOf(p, scope).Some? {
      forall k | k in Members(ms, scope)
        ensures Spent(s, scope, k) && ClaimTime(s, k) == now
      {
        assert s.queue.messages[k] == Underway(ms[k], now);
      }
      assert Burst(s, scope, LimitOf(p, scope).value.window * SECOND, Members(ms, scope));
    }
  }

  /**
   Outside quiet hours a batch of new messages can be sent within one instant
   if and only if no recipient and no runtime has more of it than its limit.
   */
  lemma GoesOutExact(p: Policy, ms: seq<Message>, now: int)
    requires IsBatch(ms, now) && !QuietAt(p, now)
    requires p.perRecipient.Some? ==> p.perRecipient.value.window >= 0
    requires p.perRuntime.Some? ==> p.perRuntime.value.window >= 0
    ensures CanGoOut(p, ms, now) <==> KeepsLimits(p, ms, true)
  {
    if KeepsLimits(p, ms, true) {
      var actions, s := FirstOut(p, ms, |ms|, now, true);
    }
    if actions :| Legal(p, Init, actions) && Out(Run(p, Init, actions), ms, |ms|, now, true) {
      RateLimitHolds(p, actions);
      OutKeepsLimits(p, Run(p, Init, actions), ms, now);
    }
  }

  lemma OutKeepsLimits(p: Policy, s: System, ms: seq<Message>, now: int)
    requires RateBounded(p, s) && Out(s, ms, |ms|, now, true)
    requires p.perRecipient.Some? ==> p.perRecipient.value.window >= 0
    requires p.perRuntime.Some? ==> p.perRuntime.value.window >= 0
    ensures KeepsLimits(p, ms, true)
  {
    forall k | 0 <= k < |ms|
      ensures KeepsLimit(p, ms, RecipientOf(ms[k])) && KeepsLimit(p, ms, RuntimeOf(ms[k]))
    {
      assert k in Members(ms, RecipientOf(ms[k])) && k in Members(ms, RuntimeOf(ms[k]));
      hide RateBounded, Out;
      OutKeepsLimit(p, s, ms, now, RecipientOf(ms[k]));
      OutKeepsLimit(p, s, ms, now, RuntimeOf(ms[k]));
    }
  }

  // The limit is reached

  function Name(n: nat): string {
    seq(n, _ => 'm')
  }

  /** n new messages in the scope, each of another recipient where the scope allows it. */
  function Crowd(scope: Scope, n: nat): seq<Message> {
    seq(n, k requires 0 <= k < n =>
      Message(Name(k), scope.runtime, if scope.OneRecipient? then scope.subject else Name(k), "", "", Queued, None, None, None, None))
  }

  lemma CrowdKeepsLimits(p: Policy, scope: Scope, n: nat, now: int)
    requires LimitOf(p, scope).Some? && n <= LimitOf(p, scope).value.count
    requires scope.WholeRuntime? && p.perRecipient.Some? ==> p.perRecipient.value.count >= 1
    ensures var ms := Crowd(scope, n);
      IsBatch(ms, now) && KeepsLimits(p, ms, scope.WholeRuntime?) && |Members(ms, scope)| == n
  {
    var ms := Crowd(scope, n);
    assert forall i, j :: 0 <= i < j < n ==> |ms[i].id| == i < j == |ms[j].id|;
    AllAreMembers(ms, scope);
    forall k | 0 <= k < n
      ensures KeepsLimit(p, ms, RecipientOf(ms[k])) && (scope.WholeRuntime? ==> KeepsLimit(p, ms, RuntimeOf(ms[k])))
    {
      if scope.OneRecipient? {
        assert RecipientOf(ms[k]) == scope;
      } else {
        assert RuntimeOf(ms[k]) == scope;
        assert forall j :: 0 <= j < n && ms[j].subject == ms[k].subject ==> |ms[j].subject| == j == k;
        assert Members(ms, RecipientOf(ms[k])) == {k};
      }
    }
  }

  lemma {:induction false} AllAreMembers(ms: seq<Message>, scope: Scope)
    requires forall k :: 0 <= k < |ms| ==> InScope(ms[k], scope)
    ensures |Members(ms, scope)| == |ms|
  {
    if ms != [] {
      var front := ms[..|ms| - 1];
      AllAreMembers(front, scope);
      assert Members(ms, scope) == Members(front, scope) + {|ms| - 1};
    }
  }

  /** Every limit is reached: outside quiet hours as many messages of its scope as it allows pass their check at one instant. */
  lemma LimitIsReached(p: Policy, scope: Scope, now: int) returns (actions: seq<Action>, ks: set<nat>)
    requires LimitOf(p, scope).Some? && LimitOf(p, scope).value.count >= 1 && LimitOf(p, scope).value.window >= 0
    requires scope.WholeRuntime? && p.perRecipient.Some? ==> p.perRecipient.value.count >= 1
    requires !QuietAt(p, now)
    ensures Legal(p, Init, actions) && |ks| == LimitOf(p, scope).value.count
    ensures Burst(Run(p, Init, actions), scope, LimitOf(p, scope).value.window * SECOND, ks)
  {
    var n := LimitOf(p, scope).value.count;
    var ms := Crowd(scope, n);
    CrowdKeepsLimits(p, scope, n, now);
    var s;
    actions, s := FirstOut(p, ms, n, now, scope.WholeRuntime?);
    ks := Members(ms, scope);
    forall k | k in ks
      ensures Spent(s, scope, k) && ClaimTime(s, k) == now
    {
      assert s.queue.messages[k] == Underway(ms[k], now);
    }
  }
}
