/** Stored schedules, the workers that claim them, and what a claim leads to. */
module Schedules {
  import opened Common
  import opened Scope
  import opened QuietHours
  import opened Recurrences

  const SCHEDULES_TABLE := "subject_schedules"

  datatype Schedule = Schedule(
    id: string, recurrence: Recurrence, nextRun: int, created: int, lastRun: Option<int>, lastStatus: Option<string>)

  datatype Limits = Limits(maxPerUser: nat, quietHours: Option<Hours>, quietOffset: int, missedGrace: int)

  datatype ClaimedRun = ClaimedRun(subject: Subject, schedule: Schedule, due: int)

  // The order in which due schedules are claimed

  predicate IdBefore(a: string, b: string) {
    if b == "" then false
    else if a == "" then true
    else a[0] < b[0] || (a[0] == b[0] && IdBefore(a[1..], b[1..]))
  }

  lemma {:induction false} IdOrderTransitive(a: string, b: string, c: string)
    requires IdBefore(a, b) && IdBefore(b, c)
    ensures IdBefore(a, c)
  {
    if a != "" && a[0] == b[0] && b[0] == c[0] {
      IdOrderTransitive(a[1..], b[1..], c[1..]);
    }
  }

  /** a and b are the same up to n, where b goes on with a greater character, or a is already over. */
  predicate DiffersAt(a: string, b: string, n: nat) {
    && n <= |a| && n < |b| && a[..n] == b[..n]
    && (n < |a| ==> a[n] < b[n])
  }

  /** Ids are ordered by the first character in which they differ; one that the other begins with comes before it. */
  lemma {:induction false} IdOrderExact(a: string, b: string)
    ensures IdBefore(a, b) <==> exists n :: DiffersAt(a, b, n)
  {
    if a != "" && b != "" {
      IdOrderExact(a[1..], b[1..]);
      if n: nat :| n > 0 && DiffersAt(a, b, n) {
        assert a[..n][0] == b[..n][0];
        assert a[1..][..n - 1] == a[..n][1..] && b[1..][..n - 1] == b[..n][1..];
        assert DiffersAt(a[1..], b[1..], n - 1);
      }
      if a[0] == b[0] && IdBefore(a[1..], b[1..]) {
        var n: nat :| DiffersAt(a[1..], b[1..], n);
        assert a[..n + 1] == [a[0]] + a[1..][..n] && b[..n + 1] == [b[0]] + b[1..][..n];
        assert DiffersAt(a, b, n + 1);
      }
      if a[0] < b[0] {
        assert DiffersAt(a, b, 0);
      }
    } else if b != "" {
      assert DiffersAt(a, b, 0);
    }
  }

  predicate Sooner(a: Schedule, b: Schedule) {
    a.nextRun < b.nextRun || (a.nextRun == b.nextRun && IdBefore(a.id, b.id))
  }

  lemma SoonerTransitive(a: Schedule, b: Schedule, c: Schedule)
    requires Sooner(a, b) && Sooner(b, c)
    ensures Sooner(a, c)
  {
    if a.nextRun == b.nextRun == c.nextRun {
      IdOrderTransitive(a.id, b.id, c.id);
    }
  }

  function Moved(s: Schedule, now: int): Schedule
    requires Valid(s.recurrence)
  {
    s.(nextRun := Following(s.recurrence, s.nextRun, now))
  }

  // The table as one map

  type Key = (Subject, string)

  /** The schedules of every subject, by owner and id. */
  ghost predicate Holds(store: Store<Schedule>, table: map<Key, Schedule>) {
    forall s, id ::
      GetRow(RowsOf(store, s, SCHEDULES_TABLE), id) == if (s, id) in table then Some(table[(s, id)]) else None
  }

  ghost predicate WellKept(store: Store<Schedule>) {
    forall s :: UniqueKeys(RowsOf(store, s, SCHEDULES_TABLE))
  }

  lemma PutHolds(before: Store<Schedule>, after: Store<Schedule>, table: map<Key, Schedule>, s: Subject, id: string, v: Schedule)
    requires Holds(before, table) && WellKept(before)
    requires RowsOf(after, s, SCHEDULES_TABLE) == PutRow(RowsOf(before, s, SCHEDULES_TABLE), id, v)
    requires OnlyChanges(before, after, s, SCHEDULES_TABLE)
    ensures Holds(after, table[(s, id) := v]) && WellKept(after)
  {
    PutKeepsKeysUnique(RowsOf(before, s, SCHEDULES_TABLE), id, v);
    forall t, i
      ensures GetRow(RowsOf(after, t, SCHEDULES_TABLE), i)
        == if (t, i) in table[(s, id) := v] then Some(table[(s, id) := v][(t, i)]) else None
    {
      PutThenGet(RowsOf(before, s, SCHEDULES_TABLE), id, v, i);
    }
    forall t
      ensures UniqueKeys(RowsOf(after, t, SCHEDULES_TABLE))
    {
      assert t != s ==> RowsOf(after, t, SCHEDULES_TABLE) == RowsOf(before, t, SCHEDULES_TABLE);
    }
  }

  lemma DeleteHolds(before: Store<Schedule>, after: Store<Schedule>, table: map<Key, Schedule>, s: Subject, id: string)
    requires Holds(before, table) && WellKept(before)
    requires RowsOf(after, s, SCHEDULES_TABLE) == Without(RowsOf(before, s, SCHEDULES_TABLE), id)
    requires OnlyChanges(before, after, s, SCHEDULES_TABLE)
    ensures Holds(after, table - {(s, id)}) && WellKept(after)
  {
    DeleteKeepsKeysUnique(RowsOf(before, s, SCHEDULES_TABLE), id);
    forall t, i
      ensures GetRow(RowsOf(after, t, SCHEDULES_TABLE), i)
        == if (t, i) in table - {(s, id)} then Some((table - {(s, id)})[(t, i)]) else None
    {
      DeleteThenGet(RowsOf(before, s, SCHEDULES_TABLE), id, i);
    }
    forall t
      ensures UniqueKeys(RowsOf(after, t, SCHEDULES_TABLE))
    {
      assert t != s ==> RowsOf(after, t, SCHEDULES_TABLE) == RowsOf(before, t, SCHEDULES_TABLE);
    }
  }

  lemma {:induction false} RowIsFound(rows: Rows<Schedule>, id: string, v: Schedule)
    requires UniqueKeys(rows)
    ensures (id, v) in rows <==> GetRow(rows, id) == Some(v)
  {
    if rows != [] {
      RowIsFound(rows[1..], id, v);
      assert (id, v) in rows <==> (id, v) == rows[0] || (id, v) in rows[1..];
    }
  }

  // Claims over runs

  /** started says whether the claim led to a turn. */
  datatype Claim = Claim(key: Key, recurrence: Recurrence, due: int, now: int, started: bool)

  /** used holds every id ever given out; origin the first window of each schedule. */
  datatype Server = Server(table: map<Key, Schedule>, used: set<Key>, origin: map<Key, int>, claims: seq<Claim>)

  datatype Action =
    | Add(key: Key, schedule: Schedule)
    | Remove(key: Key)
    | ClaimDue(key: Key, now: int, permitted: bool)
    | Record(key: Key, status: string, now: int)

  function OwnedBy(table: map<Key, Schedule>, s: Subject): set<Key> {
    set k | k in table && k.0 == s
  }

  /** A due schedule that no other due one comes before. */
  predicate IsNextDue(table: map<Key, Schedule>, key: Key, now: int) {
    && key in table && table[key].nextRun <= now
    && forall k :: k in table && table[k].nextRun <= now ==> !Sooner(table[k], table[key])
  }

  /** The one that is claimed has waited longest; among equals in time no other id comes before its own. */
  lemma NextDueHasWaitedLongest(table: map<Key, Schedule>, key: Key, now: int, k: Key)
    requires IsNextDue(table, key, now) && k in table && table[k].nextRun <= now
    ensures table[key].nextRun <= table[k].nextRun
    ensures table[key].nextRun == table[k].nextRun ==> !exists n :: DiffersAt(table[k].id, table[key].id, n)
  {
    IdOrderExact(table[k].id, table[key].id);
  }

  /** The checks before a turn is started; permitted stands for the runtime being there and granted, and the recipient found. */
  predicate Starts(limits: Limits, permitted: bool, due: int, now: int) {
    && permitted
    && now - due <= limits.missedGrace
    && QuietUntil(limits.quietHours, limits.quietOffset, now).None?
  }

  predicate Enabled(limits: Limits, s: Server, a: Action) {
    match a
    case Add(key, schedule) =>
      key !in s.used && schedule.id == key.1 && Valid(schedule.recurrence) && |OwnedBy(s.table, key.0)| < limits.maxPerUser
    case Remove(_) => true
    case ClaimDue(key, now, _) => IsNextDue(s.table, key, now) && Valid(s.table[key].recurrence)
    case Record(_, _, _) => true
  }

  /** A schedule that is gone stays gone. */
  function Recorded(table: map<Key, Schedule>, key: Key, status: string, now: int): map<Key, Schedule> {
    if key in table then table[key := table[key].(lastRun := Some(now), lastStatus := Some(status))] else table
  }

  function Apply(limits: Limits, s: Server, a: Action): Server
    requires Enabled(limits, s, a)
  {
    match a
    case Add(key, schedule) =>
      s.(table := s.table[key := schedule], used := s.used + {key}, origin := s.origin[key := schedule.nextRun])
    case Remove(key) => s.(table := s.table - {key})
    case ClaimDue(key, now, permitted) =>
      var schedule := s.table[key];
      s.(table := s.table[key := Moved(schedule, now)],
         claims := s.claims + [Claim(key, schedule.recurrence, schedule.nextRun, now, Starts(limits, permitted, schedule.nextRun, now))])
    case Record(key, status, now) => s.(table := Recorded(s.table, key, status, now))
  }

  function Empty(): Server {
    Server(map[], {}, map[], [])
  }

  predicate Legal(limits: Limits, s: Server, actions: seq<Action>)
    decreases actions
  {
    actions == [] || (Enabled(limits, s, actions[0]) && Legal(limits, Apply(limits, s, actions[0]), actions[1..]))
  }

  function Run(limits: Limits, s: Server, actions: seq<Action>): Server
    requires Legal(limits, s, actions)
    decreases actions
  {
    if actions == [] then s else Run(limits, Apply(limits, s, actions[0]), actions[1..])
  }

  ghost predicate OnItsGrid(s: Server, key: Key, x: int)
    requires key in s.table && key in s.origin
  {
    s.table[key].recurrence.Interval? ==> OnGrid(s.origin[key], s.table[key].recurrence.seconds * SECOND, x)
  }

  predicate Timely(limits: Limits, c: Claim) {
    && c.due <= c.now
    && (c.started ==> c.now - c.due <= limits.missedGrace)
    && (c.started && limits.quietHours.Some? ==> !Quiet(limits.quietHours.value, limits.quietOffset, c.now))
  }

  ghost predicate RowsKept(limits: Limits, s: Server) {
    && (forall k :: k in s.table ==> k in s.used && k in s.origin && Valid(s.table[k].recurrence))
    && (forall k :: k in s.table && k in s.origin ==> OnItsGrid(s, k, s.table[k].nextRun))
    && forall o :: |OwnedBy(s.table, o)| <= limits.maxPerUser
  }

  predicate ClaimsKept(limits: Limits, s: Server) {
    && (forall i :: 0 <= i < |s.claims| ==> Timely(limits, s.claims[i]) && s.claims[i].key in s.used)
    && (forall i, j :: 0 <= i < j < |s.claims| && s.claims[i].key == s.claims[j].key ==>
          s.claims[i].now < s.claims[j].now && s.claims[i].due < s.claims[j].due && s.claims[i].now < s.claims[j].due)
    && (forall i :: 0 <= i < |s.claims| && s.claims[i].key in s.table ==>
          s.claims[i].now < s.table[s.claims[i].key].nextRun && s.claims[i].due < s.table[s.claims[i].key].nextRun)
  }

  lemma OwnedAfterPut(table: map<Key, Schedule>, key: Key, v: Schedule, o: Subject)
    ensures OwnedBy(table[key := v], o) == if key.0 == o then OwnedBy(table, o) + {key} else OwnedBy(table, o)
  {
  }

  lemma OwnedAfterDelete(table: map<Key, Schedule>, key: Key, o: Subject)
    ensures OwnedBy(table - {key}, o) == OwnedBy(table, o) - {key}
  {
  }

  lemma OwnedStaysBounded(limits: Limits, s: Server, a: Action, o: Subject)
    requires Enabled(limits, s, a) && |OwnedBy(s.table, o)| <= limits.maxPerUser
    ensures |OwnedBy(Apply(limits, s, a).table, o)| <= limits.maxPerUser
  {
    var next := Apply(limits, s, a);
    if !a.Record? || a.key in s.table {
      if a.key in next.table {
        OwnedAfterPut(s.table, a.key, next.table[a.key], o);
      }
      OwnedAfterDelete(s.table, a.key, o);
      SubsetSize(OwnedBy(s.table, o) - {a.key}, OwnedBy(s.table, o));
      assert a.key in s.table && a.key.0 == o ==> OwnedBy(s.table, o) + {a.key} == OwnedBy(s.table, o);
    }
  }

  lemma RowsStayKept(limits: Limits, s: Server, a: Action)
    requires RowsKept(limits, s) && Enabled(limits, s, a)
    ensures RowsKept(limits, Apply(limits, s, a))
  {
    var next := Apply(limits, s, a);
    forall o
      ensures |OwnedBy(next.table, o)| <= limits.maxPerUser
    {
      OwnedStaysBounded(limits, s, a, o);
    }
    if a.ClaimDue? && s.table[a.key].recurrence.Interval? {
      var schedule := s.table[a.key];
      FollowingIsNextGridPoint(schedule.recurrence, schedule.nextRun, a.now, 0);
      GridIsTransitive(s.origin[a.key], schedule.nextRun, next.table[a.key].nextRun, schedule.recurrence.seconds * SECOND);
    }
    if a.Add? && a.schedule.recurrence.Interval? {
      assert a.schedule.nextRun == a.schedule.nextRun + Times(a.schedule.recurrence.seconds * SECOND, 0);
    }
  }

  lemma ClaimsStayKept(limits: Limits, s: Server, a: Action)
    requires RowsKept(limits, s) && ClaimsKept(limits, s) && Enabled(limits, s, a)
    ensures ClaimsKept(limits, Apply(limits, s, a))
  {
    if a.ClaimDue? {
      var schedule := s.table[a.key];
      FollowingIsNextWindow(schedule.recurrence, schedule.nextRun, a.now, schedule.nextRun);
      if limits.quietHours.Some? {
        QuietUntilExact(limits.quietHours.value, limits.quietOffset, a.now);
      }
    }
  }

  // No window is left out

  /** The claim is the last one of its schedule among the first n. */
  predicate LastOf(claims: seq<Claim>, i: nat, n: nat) {
    i < n <= |claims| && forall k :: i < k < n ==> claims[k].key != claims[i].key
  }

  /** x is the first window of the claimed schedule after the instant of the claim. */
  ghost predicate IsNextOf(c: Claim, x: int) {
    IsNextWindow(c.recurrence, c.due, c.now, x)
  }

  /** Each claim takes the first window after the claim before it, and the table holds the first one after the last claim. */
  ghost predicate NoneLeftOut(s: Server) {
    && (forall i, j :: 0 <= i < j < |s.claims| && LastOf(s.claims, i, j) && s.claims[j].key == s.claims[i].key ==>
          s.claims[j].recurrence == s.claims[i].recurrence && IsNextOf(s.claims[i], s.claims[j].due))
    && (forall i :: 0 <= i < |s.claims| && LastOf(s.claims, i, |s.claims|) && s.claims[i].key in s.table ==>
          s.table[s.claims[i].key].recurrence == s.claims[i].recurrence
          && IsNextOf(s.claims[i], s.table[s.claims[i].key].nextRun))
  }

  lemma NoneIsLeftOut(limits: Limits, s: Server, a: Action)
    requires RowsKept(limits, s) && ClaimsKept(limits, s) && NoneLeftOut(s) && Enabled(limits, s, a)
    ensures NoneLeftOut(Apply(limits, s, a))
  {
    if a.ClaimDue? {
      ClaimLeavesNoneOut(limits, s, a);
    }
  }

  lemma ClaimLeavesNoneOut(limits: Limits, s: Server, a: Action)
    requires NoneLeftOut(s) && Enabled(limits, s, a) && a.ClaimDue?
    ensures NoneLeftOut(Apply(limits, s, a))
  {
    var next, n := Apply(limits, s, a), |s.claims|;
    var schedule := s.table[a.key];
    FollowingIsNextWindow(schedule.recurrence, schedule.nextRun, a.now, next.table[a.key].nextRun);
    assert IsNextOf(next.claims[n], next.table[a.key].nextRun);
    hide IsNextOf, Sooner, Following;
    forall i, j | 0 <= i < j <= n && LastOf(next.claims, i, j)
      ensures LastOf(s.claims, i, j)
    {
      assert forall k :: i < k < j ==> next.claims[k] == s.claims[k];
    }
    forall i | 0 <= i < n && LastOf(next.claims, i, n + 1)
      ensures LastOf(s.claims, i, n) && s.claims[i].key != a.key
    {
      assert next.claims[n].key == a.key;
      assert LastOf(next.claims, i, n);
    }
  }

  lemma {:induction false} KeptOverRuns(limits: Limits, s: Server, actions: seq<Action>)
    requires RowsKept(limits, s) && ClaimsKept(limits, s) && NoneLeftOut(s) && Legal(limits, s, actions)
    ensures RowsKept(limits, Run(limits, s, actions)) && ClaimsKept(limits, Run(limits, s, actions))
    ensures NoneLeftOut(Run(limits, s, actions))
    decreases actions
  {
    if actions != [] {
      RowsStayKept(limits, s, actions[0]);
      ClaimsStayKept(limits, s, actions[0]);
      NoneIsLeftOut(limits, s, actions[0]);
      KeptOverRuns(limits, Apply(limits, s, actions[0]), actions[1..]);
    }
  }

  lemma EmptyIsKept(limits: Limits)
    ensures RowsKept(limits, Empty()) && ClaimsKept(limits, Empty()) && NoneLeftOut(Empty())
  {
    forall o
      ensures OwnedBy(Empty().table, o) == {}
    {
    }
  }

  /**
   Over every run of any workers: the claimed windows of a schedule strictly
   increase, so that none is claimed twice; a turn is only started for a window
   that was due, within its grace, and not in quiet hours.
   */
  lemma WindowsAdvance(limits: Limits, actions: seq<Action>, i: nat, j: nat)
    requires Legal(limits, Empty(), actions) && i < j < |Run(limits, Empty(), actions).claims|
    ensures var claims := Run(limits, Empty(), actions).claims;
      && (claims[i].key == claims[j].key ==> claims[i].due < claims[j].due && claims[i].now < claims[j].due)
      && Timely(limits, claims[i]) && Timely(limits, claims[j])
  {
    EmptyIsKept(limits);
    KeptOverRuns(limits, Empty(), actions);
  }

  /**
   Over every run, nobody's window is passed over: between the instant of a
   claim and the window claimed next, or still waiting in the table, lies no
   other occurrence and no other point of the grid.
   */
  lemma NoWindowIsLeftOut(limits: Limits, actions: seq<Action>)
    requires Legal(limits, Empty(), actions)
    ensures NoneLeftOut(Run(limits, Empty(), actions))
  {
    EmptyIsKept(limits);
    KeptOverRuns(limits, Empty(), actions);
  }

  /** The windows of an interval schedule stay on the grid of its first one, and nobody holds too many schedules. */
  lemma GridNeverDrifts(limits: Limits, actions: seq<Action>, key: Key)
    requires Legal(limits, Empty(), actions) && key in Run(limits, Empty(), actions).table
    ensures var s := Run(limits, Empty(), actions);
      && key in s.origin && OnItsGrid(s, key, s.table[key].nextRun)
      && |OwnedBy(s.table, key.0)| <= limits.maxPerUser
  {
    EmptyIsKept(limits);
    KeptOverRuns(limits, Empty(), actions);
  }

  /** Recording a result notes it and the time, changes nothing else and no other schedule, and revives no deleted one. */
  lemma RecordKeepsWindows(limits: Limits, s: Server, key: Key, status: string, now: int)
    ensures var next := Apply(limits, s, Record(key, status, now));
      && next.table.Keys == s.table.Keys
      && (forall k :: k in s.table && k != key ==> next.table[k] == s.table[k])
      && (key in s.table ==>
            && next.table[key].lastRun == Some(now) && next.table[key].lastStatus == Some(status)
            && next.table[key].(lastRun := None, lastStatus := None) == s.table[key].(lastRun := None, lastStatus := None))
  {
  }

  // The stores

  class InMemoryScheduleStore {
    const provider: InMemoryScopeProvider<Schedule>

    constructor (provider: InMemoryScopeProvider<Schedule>)
      ensures this.provider == provider
    {
      this.provider := provider;
    }

    /** Claims the soonest due schedule and moves it to its next window. */
    method ClaimDue(now: int, ghost table: map<Key, Schedule>) returns (claimed: Option<ClaimedRun>)
      requires Holds(provider.store, table) && WellKept(provider.store)
      requires forall k :: k in table ==> k.1 == table[k].id && Valid(table[k].recurrence)
      modifies provider
      ensures WellKept(provider.store)
      ensures claimed.None? ==> provider.store == old(provider.store) && forall k :: k in table ==> table[k].nextRun > now
      ensures claimed.Some? ==>
        var c := claimed.value;
        var key := (c.subject, c.schedule.id);
        && IsNextDue(table, key, now)
        && c.due == table[key].nextRun && c.schedule == Moved(table[key], now)
        && c.schedule == table[key].(nextRun := c.schedule.nextRun)
        && IsNextWindow(table[key].recurrence, c.due, now, c.schedule.nextRun)
        && Holds(provider.store, table[key := c.schedule])
    {
      var all, _ := provider.AllRows(SCHEDULES_TABLE);
      ghost var before := provider.store;
      var found, best := FirstDue(all, now);
      NothingSooner(before, table, all, now, found, best);
      if !found {
        return None;
      }
      var (subject, id, schedule) := all[best];
      var moved := Moved(schedule, now);
      FollowingIsNextWindow(schedule.recurrence, schedule.nextRun, now, moved.nextRun);
      provider.Put(subject, SCHEDULES_TABLE, schedule.id, moved);
      PutHolds(before, provider.store, table, subject, schedule.id, moved);
      claimed := Some(ClaimedRun(subject, moved, schedule.nextRun));
    }

    method Record(subject: Subject, id: string, status: string, now: int, ghost table: map<Key, Schedule>)
      requires Holds(provider.store, table) && WellKept(provider.store)
      modifies provider
      ensures WellKept(provider.store)
      ensures Holds(provider.store, Recorded(table, (subject, id), status, now))
    {
      var current := provider.Get(subject, SCHEDULES_TABLE, id);
      if current.Some? {
        ghost var before := provider.store;
        var updated := current.value.(lastRun := Some(now), lastStatus := Some(status));
        provider.Put(subject, SCHEDULES_TABLE, id, updated);
        PutHolds(before, provider.store, table, subject, id, updated);
      }
    }
  }

  /** One subject's schedules. */
  class InMemoryScheduleBackend {
    const provider: InMemoryScopeProvider<Schedule>
    const owner: Subject

    constructor (provider: InMemoryScopeProvider<Schedule>, owner: Subject)
      ensures this.provider == provider && this.owner == owner
    {
      this.provider := provider;
      this.owner := owner;
    }

    /** Stores the schedule unless the subject already holds as many as it may. */
    method Add(schedule: Schedule, maxPerUser: nat, ghost table: map<Key, Schedule>) returns (added: bool)
      requires Holds(provider.store, table) && WellKept(provider.store)
      modifies provider
      ensures added <==> |OwnedBy(table, owner)| < maxPerUser
      ensures Holds(provider.store, if added then table[(owner, schedule.id) := schedule] else table)
      ensures WellKept(provider.store)
    {
      var rows := provider.ReadRows(owner, SCHEDULES_TABLE);
      OwnedIsCounted(provider.store, table, owner);
      if |rows| >= maxPerUser {
        return false;
      }
      ghost var before := provider.store;
      provider.Put(owner, SCHEDULES_TABLE, schedule.id, schedule);
      PutHolds(before, provider.store, table, owner, schedule.id, schedule);
      added := true;
    }

    method Remove(id: string, ghost table: map<Key, Schedule>) returns (existed: bool)
      requires Holds(provider.store, table) && WellKept(provider.store)
      modifies provider
      ensures existed <==> (owner, id) in table
      ensures Holds(provider.store, table - {(owner, id)}) && WellKept(provider.store)
    {
      var row := provider.Get(owner, SCHEDULES_TABLE, id);
      existed := row.Some?;
      ghost var before := provider.store;
      provider.Delete(owner, SCHEDULES_TABLE, id);
      DeleteHolds(before, provider.store, table, owner, id);
    }
  }

  ghost function KeysOf(s: Subject, rows: Rows<Schedule>): (keys: set<Key>) {
    if rows == [] then {} else KeysOf(s, rows[1..]) + {(s, rows[0].0)}
  }

  lemma {:induction false} KeysAreCounted(s: Subject, rows: Rows<Schedule>)
    requires UniqueKeys(rows)
    ensures |KeysOf(s, rows)| == |rows|
    ensures forall k :: k in KeysOf(s, rows) <==> k.0 == s && GetRow(rows, k.1).Some?
  {
    if rows != [] {
      KeysAreCounted(s, rows[1..]);
    }
  }

  lemma OwnedIsCounted(store: Store<Schedule>, table: map<Key, Schedule>, s: Subject)
    requires Holds(store, table) && WellKept(store)
    ensures |OwnedBy(table, s)| == |RowsOf(store, s, SCHEDULES_TABLE)|
  {
    var rows := RowsOf(store, s, SCHEDULES_TABLE);
    KeysAreCounted(s, rows);
    forall k
      ensures k in OwnedBy(table, s) <==> k in KeysOf(s, rows)
    {
      assert k.0 == s ==> GetRow(rows, k.1) == if (k.0, k.1) in table then Some(table[(k.0, k.1)]) else None;
    }
    assert OwnedBy(table, s) == KeysOf(s, rows);
  }

  // Running a claimed schedule

  datatype Lookup = Found | NotAuthorized | LookupFailed

  datatype TurnResult = Raised | BudgetRefused | TimedOut | Said(text: string)

  datatype Handover = Accepted | NoRecipient | NotPermitted | Broken

  /** What the rest of the platform answers while a claim is executed. */
  datatype Platform = Platform(
    known: bool, granted: bool, recipient: Lookup, turn: TurnResult, handover: Handover, recorded: bool)

  datatype Status = Delivered | Skipped | Failed

  datatype Outcome = Outcome(status: Status, reason: string)

  function Execute(limits: Limits, p: Platform, due: int, now: int): Outcome {
    if !p.known then Outcome(Failed, "runtime_unavailable")
    else if !p.granted then Outcome(Skipped, "not_permitted")
    else if now - due > limits.missedGrace then Outcome(Skipped, "missed_window")
    else if QuietUntil(limits.quietHours, limits.quietOffset, now).Some? then Outcome(Skipped, "quiet_hours")
    else if p.recipient.LookupFailed? then Outcome(Failed, "recipient_lookup_failed")
    else if p.recipient.NotAuthorized? then Outcome(Failed, "recipient_not_authorized")
    else
      match p.turn
      case Raised => Outcome(Failed, "turn_failed")
      case BudgetRefused => Outcome(Skipped, "budget_refused")
      case TimedOut => Outcome(Failed, "turn_timed_out")
      case Said(text) =>
        if text == "" then Outcome(Skipped, "empty_reply")
        else
          match p.handover
          case Accepted => Outcome(Delivered, "")
          case NoRecipient => Outcome(Failed, "recipient_not_authorized")
          case NotPermitted => Outcome(Failed, "delivery_not_permitted")
          case Broken => Outcome(Failed, "delivery_failed")
  }

  predicate Permitted(p: Platform) {
    p.known && p.granted && p.recipient.Found?
  }

  /** What the turn itself did matters exactly when it was started, and only then is anything delivered. */
  lemma OnlyStartedTurnsDeliver(limits: Limits, p: Platform, due: int, now: int, other: TurnResult)
    ensures Execute(limits, p, due, now).status.Delivered? <==>
      Starts(limits, Permitted(p), due, now) && p.turn.Said? && p.turn.text != "" && p.handover.Accepted?
    ensures !Starts(limits, Permitted(p), due, now) ==>
      Execute(limits, p, due, now) == Execute(limits, p.(turn := other), due, now)
    ensures Starts(limits, Permitted(p), due, now) && p.turn != other && (p.turn.Raised? || other.Raised?) ==>
      Execute(limits, p, due, now) != Execute(limits, p.(turn := other), due, now)
  {
  }

  /** What a claim came to grief on is the first of the checks that fails, and decides between skipped and failed. */
  lemma ReasonsAreExact(limits: Limits, p: Platform, due: int, now: int)
    ensures var o := Execute(limits, p, due, now);
      var late := now - due > limits.missedGrace;
      var quiet := limits.quietHours.Some? && Quiet(limits.quietHours.value, limits.quietOffset, now);
      var asked := p.known && p.granted && !late && !quiet;
      var started := asked && p.recipient.Found?;
      var spoke := started && p.turn.Said? && p.turn.text != "";
      && (o.status.Delivered? <==> o.reason == "")
      && (o.reason == "runtime_unavailable" <==> !p.known)
      && (o.reason == "not_permitted" <==> p.known && !p.granted)
      && (o.reason == "missed_window" <==> p.known && p.granted && late)
      && (o.reason == "quiet_hours" <==> p.known && p.granted && !late && quiet)
      && (o.reason == "recipient_lookup_failed" <==> asked && p.recipient.LookupFailed?)
      && (o.reason == "recipient_not_authorized" <==>
            (asked && p.recipient.NotAuthorized?) || (spoke && p.handover.NoRecipient?))
      && (o.reason == "turn_failed" <==> started && p.turn.Raised?)
      && (o.reason == "budget_refused" <==> started && p.turn.BudgetRefused?)
      && (o.reason == "turn_timed_out" <==> started && p.turn.TimedOut?)
      && (o.reason == "empty_reply" <==> started && p.turn == Said(""))
      && (o.reason == "delivery_not_permitted" <==> spoke && p.handover.NotPermitted?)
      && (o.reason == "delivery_failed" <==> spoke && p.handover.Broken?)
      && (o.status.Skipped? <==>
            o.reason in {"not_permitted", "missed_window", "quiet_hours", "budget_refused", "empty_reply"})
  {
    if limits.quietHours.Some? {
      QuietUntilExact(limits.quietHours.value, limits.quietOffset, now);
    }
  }

  function StatusText(status: Status): string {
    match status case Delivered => "delivered" case Skipped => "skipped" case Failed => "failed"
  }

  function Label(o: Outcome): string {
    if o.reason == "" then StatusText(o.status) else StatusText(o.status) + ":" + o.reason
  }

  /** What is recorded tells how the run ended. */
  lemma LabelIsReadable(a: Outcome, b: Outcome)
    requires Label(a) == Label(b)
    ensures a == b
  {
    assert Label(a)[0] == StatusText(a.status)[0] && Label(b)[0] == StatusText(b.status)[0];
    assert a.status == b.status;
    var n := |StatusText(a.status)|;
    assert a.reason != "" ==> Label(a)[n + 1..] == a.reason;
    assert b.reason != "" ==> Label(b)[n + 1..] == b.reason;
  }

  /** The claim moves the schedule; the result is recorded unless that fails. */
  function AfterRun(s: Server, key: Key, now: int, p: Platform, o: Outcome): map<Key, Schedule>
    requires key in s.table && Valid(s.table[key].recurrence)
  {
    var claimed := s.table[key := Moved(s.table[key], now)];
    if p.recorded then Recorded(claimed, key, Label(o), now) else claimed
  }

  /** What a worker does is a claim and a record of the runs above; what it delivers was started. */
  lemma RunIsClaimThenRecord(limits: Limits, s: Server, key: Key, now: int, p: Platform, o: Outcome)
    requires key in s.table && Valid(s.table[key].recurrence) && IsNextDue(s.table, key, now)
    requires o == Execute(limits, p, s.table[key].nextRun, now)
    ensures var claimed := Apply(limits, s, ClaimDue(key, now, Permitted(p)));
      && AfterRun(s, key, now, p, o) ==
           (if p.recorded then Apply(limits, claimed, Record(key, Label(o), now)).table else claimed.table)
      && (o.status.Delivered? ==> claimed.claims[|s.claims|].started)
  {
    OnlyStartedTurnsDeliver(limits, p, s.table[key].nextRun, now, p.turn);
  }

  class ScheduledTurnRunner {
    const store: InMemoryScheduleStore
    const limits: Limits

    constructor (store: InMemoryScheduleStore, limits: Limits)
      ensures this.store == store && this.limits == limits
    {
      this.store := store;
      this.limits := limits;
    }

    /** Claims one due schedule, runs it and records how it went. None stands for idle. */
    method RunOnce(now: int, p: Platform, ghost s: Server) returns (outcome: Option<Outcome>, ghost key: Key)
      requires Holds(store.provider.store, s.table) && WellKept(store.provider.store)
      requires forall k :: k in s.table ==> k.1 == s.table[k].id && Valid(s.table[k].recurrence)
      modifies store.provider
      ensures WellKept(store.provider.store)
      ensures outcome.None? ==> Holds(store.provider.store, s.table) && forall k :: k in s.table ==> s.table[k].nextRun > now
      ensures outcome.Some? ==>
        && IsNextDue(s.table, key, now)
        && outcome.value == Execute(limits, p, s.table[key].nextRun, now)
        && Holds(store.provider.store, AfterRun(s, key, now, p, outcome.value))
    {
      var claimed := store.ClaimDue(now, s.table);
      if claimed.None? {
        key := (Subject("", ""), "");
        return None, key;
      }
      var c := claimed.value;
      key := (c.subject, c.schedule.id);
      var result := Execute(limits, p, c.due, now);
      if p.recorded {
        store.Record(c.subject, c.schedule.id, Label(result), now, s.table[key := c.schedule]);
      }
      outcome := Some(result);
    }
  }

  /** best is due, and none that is due comes before it; not found means that none is due. */
  predicate IsFirstDue(all: seq<(Subject, string, Schedule)>, now: int, found: bool, best: nat) {
    if found then
      && best < |all| && all[best].2.nextRun <= now
      && forall j :: 0 <= j < |all| && all[j].2.nextRun <= now ==> !Sooner(all[j].2, all[best].2)
    else
      forall j :: 0 <= j < |all| ==> all[j].2.nextRun > now
  }

  method FirstDue(all: seq<(Subject, string, Schedule)>, now: int) returns (found: bool, best: nat)
    ensures IsFirstDue(all, now, found, best)
  {
    found, best := false, 0;
    for i := 0 to |all|
      invariant IsFirstDue(all[..i], now, found, best)
    {
      var schedule := all[i].2;
      assert all[..i + 1] == all[..i] + [all[i]];
      if schedule.nextRun <= now && (!found || Sooner(schedule, all[best].2)) {
        forall j | 0 <= j < i && found && Sooner(all[j].2, schedule)
          ensures Sooner(all[j].2, all[best].2)
        {
          SoonerTransitive(all[j].2, schedule, all[best].2);
        }
        NotSoonerThanItself(schedule);
        found, best := true, i;
      }
    }
    assert all[..|all|] == all;
  }

  lemma NothingSooner(
    store: Store<Schedule>, table: map<Key, Schedule>, all: seq<(Subject, string, Schedule)>, now: int, found: bool, best: nat)
    requires Holds(store, table) && WellKept(store) && IsFirstDue(all, now, found, best)
    requires forall k :: k in table ==> k.1 == table[k].id
    requires forall s, k, v :: (s, k, v) in all <==> (k, v) in RowsOf(store, s, SCHEDULES_TABLE)
    ensures found ==>
      var (subject, id, schedule) := all[best];
      id == schedule.id && IsNextDue(table, (subject, id), now) && table[(subject, id)] == schedule
    ensures !found ==> forall k :: k in table ==> table[k].nextRun > now
  {
    AllAreRows(store, table, all);
    if found {
      var (subject, id, schedule) := all[best];
      assert all[best] in all;
      RowIsFound(RowsOf(store, subject, SCHEDULES_TABLE), id, schedule);
    }
  }

  lemma {:induction false} NotBeforeItself(id: string)
    ensures !IdBefore(id, id)
  {
    if id != "" {
      NotBeforeItself(id[1..]);
    }
  }

  lemma NotSoonerThanItself(s: Schedule)
    ensures !Sooner(s, s)
  {
    NotBeforeItself(s.id);
  }

  lemma AllAreRows(store: Store<Schedule>, table: map<Key, Schedule>, all: seq<(Subject, string, Schedule)>)
    requires Holds(store, table) && WellKept(store)
    requires forall s, k, v :: (s, k, v) in all <==> (k, v) in RowsOf(store, s, SCHEDULES_TABLE)
    ensures forall k :: k in table ==> exists i :: 0 <= i < |all| && all[i].2 == table[k]
  {
    forall k | k in table
      ensures exists i :: 0 <= i < |all| && all[i].2 == table[k]
    {
      RowIsFound(RowsOf(store, k.0, SCHEDULES_TABLE), k.1, table[k]);
      assert (k.0, k.1, table[k]) in all;
    }
  }
}
