/**
 The in-memory queue of proactive messages: a list that only grows and the
 claim time of every message whose provider may have been reached.
 */
module ProactiveQueue {
  import opened Common

  datatype Status = Queued | Sending | Sent | Failed | Ambiguous

  datatype Message = Message(
    id: string, runtime: string, subject: string, text: string, actor: string,
    status: Status, availableAt: Option<int>,
    leaseOwner: Option<string>, leaseExpiresAt: Option<int>, lastError: Option<string>)

  /** The value of the queue's two fields. */
  datatype Queue = Queue(messages: seq<Message>, times: map<string, int>)

  /** Statuses that count against a rate limit: the provider may have been reached. */
  predicate Attempted(status: Status) {
    status == Sending || status == Sent || status == Ambiguous
  }

  predicate UniqueIds(messages: seq<Message>) {
    forall i, j :: 0 <= i < j < |messages| ==> messages[i].id != messages[j].id
  }

  predicate Lapsed(m: Message, now: int) {
    m.status == Sending && m.leaseExpiresAt.Some? && m.leaseExpiresAt.value <= now
  }

  function LeaseExpired(m: Message): Message {
    m.(status := Ambiguous, lastError := Some("lease_expired"))
  }

  function Expire(m: Message, now: int): Message {
    if Lapsed(m, now) then LeaseExpired(m) else m
  }

  function ExpireAll(messages: seq<Message>, now: int): (r: seq<Message>)
    ensures |r| == |messages|
    ensures forall k :: 0 <= k < |r| ==> r[k] == Expire(messages[k], now)
  {
    seq(|messages|, k requires 0 <= k < |messages| => Expire(messages[k], now))
  }

  /** The messages whose lease has lapsed, in list order, as they become. */
  function LapsedOf(messages: seq<Message>, now: int): seq<Message> {
    if messages == [] then []
    else
      var rest := LapsedOf(messages[..|messages| - 1], now);
      var last := messages[|messages| - 1];
      if Lapsed(last, now) then rest + [Expire(last, now)] else rest
  }

  function DueAt(m: Message, now: int): int {
    match m.availableAt case Some(t) => t case None => now
  }

  predicate Due(m: Message, now: int) {
    m.status == Queued && DueAt(m, now) <= now
  }

  /** Position k holds the due message that became due first, the earliest in the list among equals. */
  predicate IsChoice(messages: seq<Message>, now: int, k: nat) {
    && k < |messages|
    && Due(messages[k], now)
    && (forall j :: 0 <= j < |messages| && Due(messages[j], now) ==>
          DueAt(messages[k], now) < DueAt(messages[j], now)
          || (DueAt(messages[k], now) == DueAt(messages[j], now) && k <= j))
  }

  function Claimed(m: Message, worker: string, now: int, lease: int): Message {
    m.(status := Sending, leaseOwner := Some(worker), leaseExpiresAt := Some(now + lease))
  }

  function Finished(m: Message, status: Status, error: Option<string>): Message {
    m.(status := status, lastError := error, leaseOwner := None, leaseExpiresAt := None)
  }

  function Deferred(m: Message, until: int): Message {
    m.(status := Queued, availableAt := Some(until), leaseOwner := None, leaseExpiresAt := None)
  }

  /** The list with every message of this id changed; an unknown id changes nothing. */
  function Rewrite(messages: seq<Message>, id: string, change: Message -> Message): (r: seq<Message>)
    ensures |r| == |messages|
    ensures forall k :: 0 <= k < |r| ==> r[k] == if messages[k].id == id then change(messages[k]) else messages[k]
  {
    seq(|messages|, k requires 0 <= k < |messages| =>
      if messages[k].id == id then change(messages[k]) else messages[k])
  }

  /** Ids are unique, so rewriting by id changes one position. */
  lemma RewriteAt(messages: seq<Message>, k: nat, change: Message -> Message)
    requires UniqueIds(messages) && k < |messages| && change(messages[k]).id == messages[k].id
    ensures Rewrite(messages, messages[k].id, change) == messages[k := change(messages[k])]
    ensures UniqueIds(Rewrite(messages, messages[k].id, change))
    ensures forall j :: 0 <= j < |messages| && j != k ==> messages[j].id != messages[k].id
  {
  }

  // What each operation makes of the queue.

  function AfterEnqueue(q: Queue, m: Message): Queue {
    q.(messages := q.messages + [m])
  }

  function AfterExpire(q: Queue, now: int): Queue {
    q.(messages := ExpireAll(q.messages, now))
  }

  function AfterClaim(q: Queue, k: nat, worker: string, now: int, lease: int): Queue
    requires k < |q.messages|
  {
    var id := q.messages[k].id;
    Queue(Rewrite(ExpireAll(q.messages, now), id, m => Claimed(m, worker, now, lease)), q.times[id := now])
  }

  function AfterFinish(q: Queue, id: string, status: Status, error: Option<string>): Queue {
    q.(messages := Rewrite(q.messages, id, m => Finished(m, status, error)))
  }

  function AfterDefer(q: Queue, id: string, until: int): Queue {
    Queue(Rewrite(q.messages, id, m => Deferred(m, until)), q.times - {id})
  }

  /** A queued message is due from its time on, and at once when it has none. */
  lemma DueFromItsTime(m: Message, now: int)
    requires m.status == Queued
    ensures Due(m, now) <==> m.availableAt.None? || m.availableAt.value <= now
  {
  }

  /** A claim becomes ambiguous when its lease has run out, and not before. */
  lemma LeaseRunsOut(q: Queue, k: nat, worker: string, now: int, lease: int, x: int)
    requires UniqueIds(q.messages) && k < |q.messages|
    ensures var claimed := AfterClaim(q, k, worker, now, lease).messages;
      && k < |claimed| && claimed[k].status == Sending
      && ExpireAll(claimed, x)[k].status == if x >= now + lease then Ambiguous else Sending
  {
  }

  /** A finished message has its outcome and no lease; nothing else about it changes, and no other message. */
  lemma FinishReleases(q: Queue, k: nat, status: Status, error: Option<string>)
    requires UniqueIds(q.messages) && k < |q.messages|
    ensures var before, after := q.messages, AfterFinish(q, q.messages[k].id, status, error);
      && after.times == q.times && |after.messages| == |before|
      && (forall j :: 0 <= j < |before| && j != k ==> after.messages[j] == before[j])
      && var m := after.messages[k];
         && m.status == status && m.lastError == error && m.leaseOwner.None? && m.leaseExpiresAt.None?
         && m.(status := before[k].status, lastError := before[k].lastError,
               leaseOwner := before[k].leaseOwner, leaseExpiresAt := before[k].leaseExpiresAt) == before[k]
  {
  }

  /** A deferred message is due from the given time on and has no lease; nothing else about it changes, and no other message. */
  lemma DeferReleases(q: Queue, k: nat, until: int, x: int)
    requires UniqueIds(q.messages) && k < |q.messages|
    ensures var before, after := q.messages, AfterDefer(q, q.messages[k].id, until);
      && after.times == q.times - {before[k].id} && |after.messages| == |before|
      && (forall j :: 0 <= j < |before| && j != k ==> after.messages[j] == before[j])
      && var m := after.messages[k];
         && (Due(m, x) <==> x >= until) && m.leaseOwner.None? && m.leaseExpiresAt.None?
         && m.(status := before[k].status, availableAt := before[k].availableAt,
               leaseOwner := before[k].leaseOwner, leaseExpiresAt := before[k].leaseExpiresAt) == before[k]
  {
  }

  /** What expiring returns are the messages that became ambiguous by it, as they are then. */
  lemma {:induction false} LapsedOfExact(messages: seq<Message>, now: int, m: Message)
    ensures m in LapsedOf(messages, now) <==>
      exists k :: 0 <= k < |messages| && Lapsed(messages[k], now) && m == ExpireAll(messages, now)[k]
    ensures m in LapsedOf(messages, now) ==> m.status == Ambiguous && m.lastError == Some("lease_expired")
  {
    if messages != [] {
      var n := |messages| - 1;
      LapsedOfExact(messages[..n], now, m);
      assert forall k :: 0 <= k < n ==> ExpireAll(messages, now)[k] == ExpireAll(messages[..n], now)[k];
      assert ExpireAll(messages, now)[n] == Expire(messages[n], now);
    }
  }

  // Attempts

  predicate Counts(q: Queue, runtime: string, subject: Option<string>, since: int, exclude: string, k: nat)
    requires k < |q.messages|
  {
    var m := q.messages[k];
    && m.runtime == runtime
    && (subject.None? || m.subject == subject.value)
    && Attempted(m.status)
    && m.id != exclude
    && (m.id in q.times ==> q.times[m.id] >= since)
  }

  /** Positions of the messages the provider may have been reached for since the given time. */
  ghost function Attempts(q: Queue, runtime: string, subject: Option<string>, since: int, exclude: string): set<nat> {
    set k: nat | k < |q.messages| && Counts(q, runtime, subject, since, exclude, k)
  }

  /** The list in which the first k messages have been looked at for lapsed leases. */
  predicate ExpiredUpTo(was: seq<Message>, messages: seq<Message>, k: nat, now: int) {
    && |messages| == |was| && k <= |was|
    && (forall j :: 0 <= j < k ==> messages[j] == Expire(was[j], now))
    && (forall j :: k <= j < |was| ==> messages[j] == was[j])
  }

  lemma ExpiredOneMore(was: seq<Message>, messages: seq<Message>, k: nat, now: int)
    requires UniqueIds(messages) && ExpiredUpTo(was, messages, k, now) && k < |was|
    ensures LapsedOf(was[..k + 1], now)
      == if Lapsed(was[k], now) then LapsedOf(was[..k], now) + [Expire(was[k], now)] else LapsedOf(was[..k], now)
    ensures Lapsed(messages[k], now) <==> Lapsed(was[k], now)
    ensures var next := if Lapsed(was[k], now) then Rewrite(messages, messages[k].id, LeaseExpired) else messages;
      UniqueIds(next) && ExpiredUpTo(was, next, k + 1, now)
  {
    assert was[..k + 1][..k] == was[..k];
    RewriteAt(messages, k, LeaseExpired);
  }

  class InMemoryProactiveQueue {
    var messages: seq<Message>
    var times: map<string, int>

    function View(): Queue
      reads this
    {
      Queue(messages, times)
    }

    predicate Valid()
      reads this
    {
      UniqueIds(messages)
    }

    constructor ()
      ensures Valid()
      ensures View() == Queue([], map[])
    {
      messages := [];
      times := map[];
    }

    /** Rewrites the message with this id, keeping its id. */
    method Replace(id: string, change: Message -> Message)
      requires Valid() && forall m: Message :: change(m).id == m.id
      modifies this`messages
      ensures Valid()
      ensures messages == Rewrite(old(messages), id, change)
    {
      messages := Rewrite(messages, id, change);
    }

    method Enqueue(m: Message)
      requires Valid() && forall k :: 0 <= k < |messages| ==> messages[k].id != m.id
      modifies this`messages
      ensures Valid()
      ensures View() == AfterEnqueue(old(View()), m)
    {
      messages := messages + [m];
    }

    method ExpireLeases(now: int) returns (lapsed: seq<Message>)
      requires Valid()
      modifies this`messages
      ensures Valid()
      ensures View() == AfterExpire(old(View()), now)
      ensures lapsed == LapsedOf(old(messages), now)
    {
      lapsed := [];
      ghost var was := messages;
      for k := 0 to |messages|
        invariant ExpiredUpTo(was, messages, k, now) && UniqueIds(messages)
        invariant lapsed == LapsedOf(was[..k], now)
      {
        ExpiredOneMore(was, messages, k, now);
        if Lapsed(messages[k], now) {
          lapsed := lapsed + [Expire(messages[k], now)];
          Replace(messages[k].id, LeaseExpired);
        }
      }
      assert was[..|was|] == was;
      assert messages == ExpireAll(was, now);
    }

    method Claim(worker: string, now: int, lease: int) returns (claimed: Option<Message>, ghost k: nat)
      requires Valid()
      modifies this
      ensures Valid()
      ensures claimed.None? ==>
        && (forall j :: 0 <= j < |old(messages)| ==> !Due(old(messages)[j], now))
        && View() == AfterExpire(old(View()), now)
      ensures claimed.Some? ==>
        && IsChoice(old(messages), now, k)
        && View() == AfterClaim(old(View()), k, worker, now, lease)
        && claimed.value == messages[k]
    {
      var _ := ExpireLeases(now);
      var found, best := FirstDue(now);
      k := best;
      assert forall j :: 0 <= j < |messages| ==> (Due(messages[j], now) <==> Due(old(messages)[j], now));
      if !found {
        return None, k;
      }
      var id := messages[best].id;
      Replace(id, m => Claimed(m, worker, now, lease));
      times := times[id := now];
      claimed := Some(messages[best]);
    }

    /** Of the due messages the one that is due soonest, the first of them where several are. */
    method FirstDue(now: int) returns (found: bool, best: nat)
      ensures found ==> best < |messages| && Due(messages[best], now)
      ensures found ==> forall i :: 0 <= i < |messages| && Due(messages[i], now) ==>
        DueAt(messages[best], now) < DueAt(messages[i], now)
        || (DueAt(messages[best], now) == DueAt(messages[i], now) && best <= i)
      ensures !found ==> forall i :: 0 <= i < |messages| ==> !Due(messages[i], now)
    {
      found := false;
      best := 0;
      for j := 0 to |messages|
        invariant found ==> best < j && Due(messages[best], now)
        invariant found ==> forall i :: 0 <= i < j && Due(messages[i], now) ==>
          DueAt(messages[best], now) < DueAt(messages[i], now)
          || (DueAt(messages[best], now) == DueAt(messages[i], now) && best <= i)
        invariant !found ==> forall i :: 0 <= i < j ==> !Due(messages[i], now)
      {
        if Due(messages[j], now) && (!found || DueAt(messages[j], now) < DueAt(messages[best], now)) {
          best, found := j, true;
        }
      }
    }

    method AttemptsSince(runtime: string, subject: Option<string>, since: int, exclude: string)
      returns (used: nat)
      ensures used == |Attempts(View(), runtime, subject, since, exclude)|
    {
      used := 0;
      ghost var counted: set<nat> := {};
      for k := 0 to |messages|
        invariant counted == set j: nat | j < k && Counts(View(), runtime, subject, since, exclude, j)
        invariant used == |counted|
      {
        if Counts(View(), runtime, subject, since, exclude, k) {
          used := used + 1;
          counted := counted + {k};
        }
      }
      assert counted == Attempts(View(), runtime, subject, since, exclude);
    }

    method Finish(id: string, worker: string, status: Status, error: Option<string>)
      requires Valid()
      modifies this`messages
      ensures Valid()
      ensures View() == AfterFinish(old(View()), id, status, error)
    {
      Replace(id, m => Finished(m, status, error));
    }

    method Defer(id: string, worker: string, until: int)
      requires Valid()
      modifies this
      ensures Valid()
      ensures View() == AfterDefer(old(View()), id, until)
    {
      Replace(id, m => Deferred(m, until));
      times := times - {id};
    }
  }
}
