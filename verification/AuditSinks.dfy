/**
 The audit sink: producers that never wait, one drainer task, and a shutdown
 that counts what it could not write. Each operation below is what the code
 does between two awaits.
 */
module AuditSinks {
  import opened Common

  type Event = string

  const MAX_BATCH := 50

  /** Where the drainer task stands. Flushing remembers whether the commit has landed; Exited whether the task ended by itself. */
  datatype Drainer =
    | NotStarted
    | Ready
    | Waiting
    | Flushing(final: bool, landed: bool)
    | Exited(clean: bool, landed: bool)

  /** The value of the sink's fields. */
  datatype Sink = Sink(
    queue: seq<Event>, maxsize: int, pending: seq<Event>,
    started: bool, shutdown: bool, closed: bool, dropped: nat, drainer: Drainer)

  function Fresh(maxsize: int): Sink {
    Sink([], maxsize, [], false, false, false, 0, NotStarted)
  }

  /** A queue with no positive maximum is never full. */
  predicate Full(s: Sink) {
    0 < s.maxsize <= |s.queue|
  }

  predicate Accepts(s: Sink) {
    !s.closed && !Full(s)
  }

  function AfterRecord(s: Sink, e: Event): Sink {
    if Accepts(s) then s.(queue := s.queue + [e]) else s.(dropped := s.dropped + 1)
  }

  /** The drainer is back at the head of its loop: it waits, or on shutdown closes and sweeps the queue. */
  function AtLoopHead(s: Sink): Sink {
    if !s.shutdown then s.(drainer := Waiting)
    else
      var swept := s.pending + s.queue;
      s.(closed := true, pending := swept, queue := [],
         drainer := if swept == [] then Exited(true, false) else Flushing(true, false))
  }

  /** The wait ended, with an event or at its timeout; elapsed says the flush interval has passed. */
  function AfterWake(s: Sink, got: bool, elapsed: bool): Sink
    requires got ==> s.queue != []
  {
    var t := if got then s.(pending := s.pending + [s.queue[0]], queue := s.queue[1..]) else s;
    if |t.pending| >= MAX_BATCH || (t.pending != [] && elapsed)
    then t.(drainer := Flushing(false, false))
    else AtLoopHead(t)
  }

  /** The flush returned: the batch is committed, or it failed and is counted. */
  function AfterFlush(s: Sink, failed: bool): Sink
    requires s.drainer.Flushing?
  {
    var t := s.(pending := [], dropped := if failed then s.dropped + |s.pending| else s.dropped);
    if s.drainer.final then t.(drainer := Exited(true, false)) else AtLoopHead(t)
  }

  function AfterCancel(s: Sink): Sink {
    s.(drainer := Exited(false, s.drainer.Flushing? && s.drainer.landed))
  }

  /** The end of stop, once the drainer is gone: whatever is left is counted. */
  function AfterStop(s: Sink): Sink {
    s.(closed := true, pending := [], queue := [], dropped := s.dropped + |s.pending| + |s.queue|)
  }

  class AuditSink {
    var queue: seq<Event>
    const maxsize: int
    var pending: seq<Event>
    var started: bool
    var shutdown: bool
    var closed: bool
    var droppedCount: nat
    var drainer: Drainer

    function View(): Sink
      reads this
    {
      Sink(queue, maxsize, pending, started, shutdown, closed, droppedCount, drainer)
    }

    constructor (maxsize: int)
      ensures View() == Fresh(maxsize)
    {
      this.maxsize := maxsize;
      queue, pending := [], [];
      started, shutdown, closed := false, false, false;
      droppedCount, drainer := 0, NotStarted;
    }

    method Start()
      modifies this
      ensures View() == if old(started) then old(View()) else old(View()).(started := true, drainer := Ready)
    {
      if started {
        return;
      }
      started := true;
      drainer := Ready;
    }

    method Record(e: Event) returns (r: Result<(), string>)
      modifies this
      ensures r.Err? <==> !old(started)
      ensures View() == if old(started) then AfterRecord(old(View()), e) else old(View())
      ensures old(started) ==>
        if !old(closed) && (maxsize <= 0 || |old(queue)| < maxsize) then
          queue == old(queue) + [e] && droppedCount == old(droppedCount)
        else
          queue == old(queue) && droppedCount == old(droppedCount) + 1
    {
      if !started {
        return Err("record() called before start()");
      }
      if closed {
        droppedCount := droppedCount + 1;
      } else if 0 < maxsize <= |queue| {
        droppedCount := droppedCount + 1;
      } else {
        queue := queue + [e];
      }
      r := Ok(());
    }

    /** Removes and returns everything queued. */
    method TakeQueued() returns (events: seq<Event>)
      modifies this`queue
      ensures events == old(queue) && queue == []
    {
      events := [];
      while queue != []
        invariant events + queue == old(queue)
        decreases |queue|
      {
        events := events + [queue[0]];
        queue := queue[1..];
      }
    }

    method LoopHead()
      modifies this
      ensures View() == AtLoopHead(old(View()))
    {
      if !shutdown {
        drainer := Waiting;
        return;
      }
      closed := true;
      var rest := TakeQueued();
      pending := pending + rest;
      drainer := if pending == [] then Exited(true, false) else Flushing(true, false);
    }

    method Wake(got: bool, elapsed: bool)
      requires drainer.Waiting? && (got ==> queue != [])
      modifies this
      ensures View() == AfterWake(old(View()), got, elapsed)
      ensures var batch := old(pending) + if got then [old(queue)[0]] else [];
        if |batch| >= 50 || (batch != [] && elapsed) then drainer == Flushing(false, false) && pending == batch
        else drainer != Flushing(false, false)
    {
      if got {
        pending := pending + [queue[0]];
        queue := queue[1..];
      }
      if |pending| >= MAX_BATCH || (pending != [] && elapsed) {
        drainer := Flushing(false, false);
      } else {
        LoopHead();
      }
    }

    method FlushReturned(failed: bool)
      requires drainer.Flushing?
      modifies this
      ensures View() == AfterFlush(old(View()), failed)
    {
      if failed {
        droppedCount := droppedCount + |pending|;
      }
      pending := [];
      if drainer.final {
        drainer := Exited(true, false);
      } else {
        LoopHead();
      }
    }

    method StopBegin()
      modifies this
      ensures View() == if old(started) then old(View()).(shutdown := true) else old(View())
    {
      if !started {
        return;
      }
      shutdown := true;
    }

    method StopEnd()
      requires started && shutdown && drainer.Exited?
      modifies this
      ensures View() == AfterStop(old(View()))
    {
      closed := true;
      var inFlight := |pending|;
      pending := [];
      var rest := TakeQueued();
      droppedCount := droppedCount + inFlight + |rest|;
    }
  }

  // Histories

  /** What became of a batch. landed says its commit reached the database before the flush failed or was cancelled. */
  datatype Fate = Written | Failed(landed: bool) | Cancelled(landed: bool) | Swept

  datatype Batch = Batch(events: seq<Event>, fate: Fate)

  predicate IsCommitted(f: Fate) {
    f.Written? || ((f.Failed? || f.Cancelled?) && f.landed)
  }

  predicate IsCounted(f: Fate) {
    !f.Written?
  }

  /**
   A sink with everything that happened to it: the events given, those accepted
   and rejected, the settled batches, and the events that reached the database.
   */
  datatype History = History(
    sink: Sink, given: seq<Event>, accepted: seq<Event>, rejected: seq<Event>, settled: seq<Batch>, stored: seq<Event>)

  datatype Action =
    | Start
    | Record(e: Event)
    | DrainerStarts
    | Wake(got: bool, elapsed: bool)
    | CommitLands
    | FlushReturns(failed: bool)
    | CancelDrainer
    | StopBegins
    | StopEnds

  function Begin(maxsize: int): History {
    History(Fresh(maxsize), [], [], [], [], [])
  }

  predicate Enabled(h: History, a: Action) {
    match a
    case Start => true
    case Record(_) => h.sink.started
    case DrainerStarts => h.sink.drainer.Ready?
    case Wake(got, _) => h.sink.drainer.Waiting? && (got ==> h.sink.queue != [])
    case CommitLands => h.sink.drainer.Flushing? && !h.sink.drainer.landed
    case FlushReturns(failed) => h.sink.drainer.Flushing? && (!failed ==> h.sink.drainer.landed)
    case CancelDrainer => !h.sink.drainer.NotStarted? && !h.sink.drainer.Exited?
    case StopBegins => h.sink.started
    case StopEnds => h.sink.shutdown && h.sink.drainer.Exited?
  }

  function Apply(h: History, a: Action): History
    requires Enabled(h, a)
  {
    var s := h.sink;
    match a
    case Start => if s.started then h else h.(sink := s.(started := true, drainer := Ready))
    case Record(e) =>
      var t := h.(sink := AfterRecord(s, e), given := h.given + [e]);
      if Accepts(s) then t.(accepted := h.accepted + [e]) else t.(rejected := h.rejected + [e])
    case DrainerStarts => h.(sink := AtLoopHead(s))
    case Wake(got, elapsed) => h.(sink := AfterWake(s, got, elapsed))
    case CommitLands => h.(sink := s.(drainer := Flushing(s.drainer.final, true)), stored := h.stored + s.pending)
    case FlushReturns(failed) =>
      h.(sink := AfterFlush(s, failed),
         settled := h.settled + [Batch(s.pending, if failed then Failed(s.drainer.landed) else Written)])
    case CancelDrainer => h.(sink := AfterCancel(s))
    case StopBegins => h.(sink := s.(shutdown := true))
    case StopEnds =>
      h.(sink := AfterStop(s),
         settled := h.settled + [Batch(s.pending, Cancelled(s.drainer.landed)), Batch(s.queue, Swept)])
  }

  // Accounting

  function EventsOf(batches: seq<Batch>): seq<Event> {
    if batches == [] then [] else EventsOf(batches[..|batches| - 1]) + batches[|batches| - 1].events
  }

  function CountedIn(batches: seq<Batch>): nat {
    if batches == [] then 0
    else
      var last := batches[|batches| - 1];
      CountedIn(batches[..|batches| - 1]) + if IsCounted(last.fate) then |last.events| else 0
  }

  /** The events of the batches whose commit landed. */
  function CommittedIn(batches: seq<Batch>): seq<Event> {
    if batches == [] then []
    else
      var last := batches[|batches| - 1];
      var rest := CommittedIn(batches[..|batches| - 1]);
      if IsCommitted(last.fate) then rest + last.events else rest
  }

  /** How many events are committed and counted as lost all the same. */
  function Overlap(batches: seq<Batch>): nat {
    if batches == [] then 0
    else
      var last := batches[|batches| - 1];
      Overlap(batches[..|batches| - 1]) + if IsCommitted(last.fate) && IsCounted(last.fate) then |last.events| else 0
  }

  /** The events the sink still holds, oldest first. */
  function Held(s: Sink): seq<Event> {
    s.pending + s.queue
  }

  predicate Divided(h: History) {
    multiset(h.given) == multiset(h.accepted) + multiset(h.rejected)
  }

  predicate InOrder(h: History) {
    h.accepted == EventsOf(h.settled) + Held(h.sink)
  }

  predicate Counted(h: History) {
    h.sink.dropped == |h.rejected| + CountedIn(h.settled)
  }

  /** The commit of the pending batch has landed, but its flush has not returned. */
  predicate Landed(s: Sink) {
    (s.drainer.Flushing? || s.drainer.Exited?) && s.drainer.landed
  }

  predicate Stored(h: History) {
    h.stored == if Landed(h.sink) then CommittedIn(h.settled) + h.sink.pending else CommittedIn(h.settled)
  }

  /**
   Nothing is lost in silence: the accepted events are, in the order given, the
   settled batches, then what is pending, then what is queued; the counter is
   exactly the rejected events plus every settled batch that was not written.
   */
  predicate Accounted(h: History) {
    Divided(h) && InOrder(h) && Counted(h)
  }

  predicate Disciplined(s: Sink) {
    && (s.drainer.NotStarted? <==> !s.started)
    && (s.closed ==> s.queue == [] && s.shutdown && (s.drainer.Exited? || (s.drainer.Flushing? && s.drainer.final)))
    && (s.drainer.Flushing? && s.drainer.final ==> s.closed)
    && (s.shutdown ==> s.started)
    && (s.drainer.Exited? && s.drainer.clean ==> s.closed && s.pending == [])
    && (s.drainer.NotStarted? || s.drainer.Ready? ==> s.pending == [])
    && (s.drainer.Waiting? ==> |s.pending| < MAX_BATCH)
    && (s.drainer.Flushing? && !s.drainer.final ==> 0 < |s.pending| <= MAX_BATCH)
  }

  predicate Inv(h: History) {
    Accounted(h) && Disciplined(h.sink) && Stored(h)
  }

  lemma SettleOne(batches: seq<Batch>, b: Batch)
    ensures EventsOf(batches + [b]) == EventsOf(batches) + b.events
    ensures CountedIn(batches + [b]) == CountedIn(batches) + if IsCounted(b.fate) then |b.events| else 0
  {
    assert (batches + [b])[..|batches|] == batches;
  }

  lemma CommitOne(batches: seq<Batch>, b: Batch)
    ensures CommittedIn(batches + [b]) == if IsCommitted(b.fate) then CommittedIn(batches) + b.events else CommittedIn(batches)
  {
    assert (batches + [b])[..|batches|] == batches;
  }

  lemma LoopHeadHolds(s: Sink)
    ensures Held(AtLoopHead(s)) == Held(s) && AtLoopHead(s).dropped == s.dropped
  {
  }

  lemma WakeHolds(s: Sink, got: bool, elapsed: bool)
    requires got ==> s.queue != []
    ensures Held(AfterWake(s, got, elapsed)) == Held(s) && AfterWake(s, got, elapsed).dropped == s.dropped
  {
    if got {
      var t := s.(pending := s.pending + [s.queue[0]], queue := s.queue[1..]);
      assert Held(t) == Held(s);
      LoopHeadHolds(t);
    } else {
      LoopHeadHolds(s);
    }
  }

  /** What a flush leaves held, and what it counts. */
  lemma FlushHolds(s: Sink, failed: bool)
    requires s.drainer.Flushing?
    ensures s.pending + Held(AfterFlush(s, failed)) == Held(s)
    ensures AfterFlush(s, failed).dropped == s.dropped + if failed then |s.pending| else 0
  {
    LoopHeadHolds(s.(pending := [], dropped := if failed then s.dropped + |s.pending| else s.dropped));
  }

  lemma Associate(a: seq<Event>, b: seq<Event>, c: seq<Event>)
    ensures a + b + c == a + (b + c)
  {
  }

  lemma FlushAccounts(h: History, failed: bool)
    requires Enabled(h, FlushReturns(failed)) && Accounted(h)
    ensures Accounted(Apply(h, FlushReturns(failed)))
  {
    SettleOne(h.settled, Batch(h.sink.pending, if failed then Failed(h.sink.drainer.landed) else Written));
    FlushHolds(h.sink, failed);
    Associate(EventsOf(h.settled), h.sink.pending, Held(AfterFlush(h.sink, failed)));
  }

  lemma StopAccounts(h: History)
    requires Enabled(h, StopEnds) && Accounted(h)
    ensures Accounted(Apply(h, StopEnds))
  {
    var cancelled, swept := Batch(h.sink.pending, Cancelled(h.sink.drainer.landed)), Batch(h.sink.queue, Swept);
    SettleOne(h.settled, cancelled);
    SettleOne(h.settled + [cancelled], swept);
    assert h.settled + [cancelled, swept] == h.settled + [cancelled] + [swept];
    Associate(EventsOf(h.settled), h.sink.pending, h.sink.queue);
    assert Held(AfterStop(h.sink)) == [];
  }

  lemma RecordDivides(h: History, e: Event)
    requires Enabled(h, Record(e)) && Divided(h)
    ensures Divided(Apply(h, Record(e)))
  {
    assert multiset(h.given + [e]) == multiset(h.given) + multiset{e};
    assert multiset(h.accepted + [e]) == multiset(h.accepted) + multiset{e};
    assert multiset(h.rejected + [e]) == multiset(h.rejected) + multiset{e};
  }

  lemma RecordKeepsOrder(h: History, e: Event)
    requires Enabled(h, Record(e)) && InOrder(h)
    ensures InOrder(Apply(h, Record(e)))
  {
    if Accepts(h.sink) {
      Associate(h.sink.pending, h.sink.queue, [e]);
      Associate(EventsOf(h.settled), Held(h.sink), [e]);
    }
  }

  lemma RecordAccounts(h: History, e: Event)
    requires Enabled(h, Record(e)) && Accounted(h)
    ensures Accounted(Apply(h, Record(e)))
  {
    RecordDivides(h, e);
    RecordKeepsOrder(h, e);
  }

  lemma AccountsPreserved(h: History, a: Action)
    requires Accounted(h) && Enabled(h, a)
    ensures Accounted(Apply(h, a))
  {
    match a
    case Record(e) => RecordAccounts(h, e);
    case FlushReturns(failed) => FlushAccounts(h, failed);
    case StopEnds => StopAccounts(h);
    case Wake(got, elapsed) => WakeHolds(h.sink, got, elapsed);
    case DrainerStarts => LoopHeadHolds(h.sink);
    case _ =>
  }

  lemma LoopHeadDisciplined(s: Sink)
    requires s.started && !s.closed && |s.pending| < MAX_BATCH
    ensures Disciplined(AtLoopHead(s))
  {
  }

  lemma WakeDisciplined(s: Sink, got: bool, elapsed: bool)
    requires Disciplined(s) && s.drainer.Waiting? && (got ==> s.queue != [])
    ensures Disciplined(AfterWake(s, got, elapsed))
  {
    var t := if got then s.(pending := s.pending + [s.queue[0]], queue := s.queue[1..]) else s;
    if |t.pending| < MAX_BATCH && (t.pending == [] || !elapsed) {
      LoopHeadDisciplined(t);
    }
  }

  lemma DisciplinePreserved(h: History, a: Action)
    requires Disciplined(h.sink) && Enabled(h, a)
    ensures Disciplined(Apply(h, a).sink)
  {
    match a
    case Wake(got, elapsed) => WakeDisciplined(h.sink, got, elapsed);
    case _ =>
  }

  lemma FlushStores(h: History, failed: bool)
    requires Stored(h) && Enabled(h, FlushReturns(failed))
    ensures Stored(Apply(h, FlushReturns(failed)))
  {
    CommitOne(h.settled, Batch(h.sink.pending, if failed then Failed(h.sink.drainer.landed) else Written));
    assert !Landed(AfterFlush(h.sink, failed));
  }

  lemma StopStores(h: History)
    requires Stored(h) && Enabled(h, StopEnds)
    ensures Stored(Apply(h, StopEnds))
  {
    var cancelled, swept := Batch(h.sink.pending, Cancelled(h.sink.drainer.landed)), Batch(h.sink.queue, Swept);
    CommitOne(h.settled, cancelled);
    CommitOne(h.settled + [cancelled], swept);
    assert h.settled + [cancelled, swept] == h.settled + [cancelled] + [swept];
  }

  lemma WakeStores(h: History, got: bool, elapsed: bool)
    requires Stored(h) && Enabled(h, Wake(got, elapsed))
    ensures Stored(Apply(h, Wake(got, elapsed)))
  {
    assert !Landed(AfterWake(h.sink, got, elapsed));
  }

  /** The database holds what the fates say it holds. */
  lemma StoredPreserved(h: History, a: Action)
    requires Stored(h) && Disciplined(h.sink) && Enabled(h, a)
    ensures Stored(Apply(h, a))
  {
    match a
    case FlushReturns(failed) => FlushStores(h, failed);
    case StopEnds => StopStores(h);
    case Wake(got, elapsed) => WakeStores(h, got, elapsed);
    case _ =>
  }

  lemma InvPreserved(h: History, a: Action)
    requires Inv(h) && Enabled(h, a)
    ensures Inv(Apply(h, a))
  {
    AccountsPreserved(h, a);
    DisciplinePreserved(h, a);
    StoredPreserved(h, a);
  }

  // Runs

  predicate Legal(h: History, actions: seq<Action>)
    decreases actions
  {
    actions == [] || (Enabled(h, actions[0]) && Legal(Apply(h, actions[0]), actions[1..]))
  }

  function Run(h: History, actions: seq<Action>): History
    requires Legal(h, actions)
    decreases actions
  {
    if actions == [] then h else Run(Apply(h, actions[0]), actions[1..])
  }

  lemma {:induction false} InvOverRuns(h: History, actions: seq<Action>)
    requires Inv(h) && Legal(h, actions)
    ensures Inv(Run(h, actions))
    decreases actions
  {
    if actions != [] {
      InvPreserved(h, actions[0]);
      InvOverRuns(Apply(h, actions[0]), actions[1..]);
    }
  }

  lemma NoSilentLoss(maxsize: int, actions: seq<Action>)
    requires Legal(Begin(maxsize), actions)
    ensures Accounted(Run(Begin(maxsize), actions)) && Stored(Run(Begin(maxsize), actions))
  {
    InvOverRuns(Begin(maxsize), actions);
  }

  /** The queue keeps to its maximum, a batch to fifty events; only the last sweep adds the whole queue to one. */
  predicate Bounded(s: Sink) {
    && (s.maxsize > 0 ==> |s.queue| <= s.maxsize && |s.pending| <= MAX_BATCH + s.maxsize)
    && (!s.closed ==> |s.pending| <= MAX_BATCH)
  }

  lemma {:induction false} BoundedOverRuns(h: History, actions: seq<Action>)
    requires Bounded(h.sink) && Disciplined(h.sink) && Legal(h, actions)
    ensures Bounded(Run(h, actions).sink) && Run(h, actions).sink.maxsize == h.sink.maxsize
    decreases actions
  {
    if actions != [] {
      BoundedPreserved(h, actions[0]);
      DisciplinePreserved(h, actions[0]);
      BoundedOverRuns(Apply(h, actions[0]), actions[1..]);
    }
  }

  lemma BoundedPreserved(h: History, a: Action)
    requires Bounded(h.sink) && Disciplined(h.sink) && Enabled(h, a)
    ensures Bounded(Apply(h, a).sink) && Apply(h, a).sink.maxsize == h.sink.maxsize
  {
  }

  /** Whatever is recorded, the sink never holds more than its queue's maximum and a batch beside it. */
  lemma MemoryIsBounded(maxsize: int, actions: seq<Action>)
    requires Legal(Begin(maxsize), actions) && maxsize > 0
    ensures Bounded(Run(Begin(maxsize), actions).sink)
    ensures |Run(Begin(maxsize), actions).sink.queue| <= maxsize
  {
    BoundedOverRuns(Begin(maxsize), actions);
  }

  /** Every settled event is committed or counted; the two overlap exactly where a landed commit's flush failed or was cancelled. */
  lemma {:induction false} EachIsCommittedOrCounted(batches: seq<Batch>)
    ensures |CommittedIn(batches)| + CountedIn(batches) == |EventsOf(batches)| + Overlap(batches)
    ensures Overlap(batches) == 0 <==>
      forall i :: 0 <= i < |batches| && (batches[i].fate.Failed? || batches[i].fate.Cancelled?) && batches[i].fate.landed ==>
        batches[i].events == []
  {
    if batches != [] {
      var front, last := batches[..|batches| - 1], batches[|batches| - 1];
      EachIsCommittedOrCounted(front);
      assert batches == front + [last];
    }
  }

  predicate Finished(s: Sink) {
    s.closed && s.drainer.Exited? && s.queue == [] && s.pending == []
  }

  lemma {:induction false} FinishedForGood(h: History, actions: seq<Action>)
    requires Finished(h.sink) && Disciplined(h.sink) && Legal(h, actions)
    ensures Finished(Run(h, actions).sink)
    ensures Run(h, actions).accepted == h.accepted
    decreases actions
  {
    if actions != [] {
      FinishedForGood(Apply(h, actions[0]), actions[1..]);
    }
  }

  /**
   Once stop has ended nothing is queued or pending, then and ever after. What
   reached the database and what is counted add up to everything that was given,
   but for the events of a commit that landed before its flush failed or was cancelled.
   */
  lemma StopLeavesNothing(maxsize: int, before: seq<Action>, after: seq<Action>)
    requires Legal(Begin(maxsize), before) && Enabled(Run(Begin(maxsize), before), StopEnds)
    requires Legal(Apply(Run(Begin(maxsize), before), StopEnds), after)
    ensures
      var end := Run(Apply(Run(Begin(maxsize), before), StopEnds), after);
      && Finished(end.sink)
      && end.accepted == EventsOf(end.settled)
      && end.stored == CommittedIn(end.settled)
      && |end.stored| + end.sink.dropped == |end.given| + Overlap(end.settled)
  {
    InvOverRuns(Begin(maxsize), before);
    var stopped := Apply(Run(Begin(maxsize), before), StopEnds);
    InvPreserved(Run(Begin(maxsize), before), StopEnds);
    FinishedForGood(stopped, after);
    InvOverRuns(stopped, after);
    var end := Run(stopped, after);
    EachIsCommittedOrCounted(end.settled);
    assert |end.given| == |multiset(end.given)| == |multiset(end.accepted) + multiset(end.rejected)|;
    assert |end.accepted| == |multiset(end.accepted)| && |end.rejected| == |multiset(end.rejected)|;
  }

  /** A drainer that ended by itself left nothing for stop to count. */
  lemma CleanStopDropsNothing(maxsize: int, actions: seq<Action>)
    requires Legal(Begin(maxsize), actions)
    requires Run(Begin(maxsize), actions).sink.drainer == Exited(true, false)
    ensures AfterStop(Run(Begin(maxsize), actions).sink).dropped == Run(Begin(maxsize), actions).sink.dropped
  {
    InvOverRuns(Begin(maxsize), actions);
  }
}
