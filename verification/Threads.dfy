/**
 Conversation threads. A turn reads its thread once before it runs and saves
 its own messages once after it; the read may fail, and a save reads what the
 store holds, then writes it back with the turn added, at any later time or
 never. Turns of one thread may overlap in any way.
 */
module Threads {
  import opened Common
  import opened Messages
  import Repair
  import Turn

  /** A read that failed, timed out or gave something that is not a message list is None. */
  class Thread {
    var history: Option<seq<Message>>

    constructor ()
      ensures history == None
    {
      history := None;
    }

    method Load(snapshot: Option<seq<Message>>) returns (messages: seq<Message>)
      modifies this
      ensures snapshot.Some? ==> history == snapshot && messages == snapshot.value
      ensures snapshot.None? ==> history == old(history) && messages == []
    {
      if snapshot.None? {
        return [];
      }
      history := snapshot;
      messages := snapshot.value;
    }

    /** Sends the turn to the store exactly when the session behind it may begin a save of it. */
    method Save(turn: seq<Message>) returns (update: Option<seq<Message>>)
      ensures update.Some? ==> update.value == turn
      ensures forall s: World, k: nat :: IsSessionOf(s, k, history, turn) ==> (update.Some? <==> Enabled(s, BeginSave(k)))
    {
      if history.None? || turn == [] {
        return None;
      }
      update := Some(turn);
    }
  }

  /** Session k of the world has this history and this turn of its own, and has not begun to save it. */
  predicate IsSessionOf(s: World, k: nat, history: Option<seq<Message>>, turn: seq<Message>) {
    k < |s.sessions| && s.sessions[k].history == history && s.sessions[k].own == Some(turn) && s.sessions[k].base.None?
  }

  predicate Saves(history: Option<seq<Message>>, turn: seq<Message>) {
    history.Some? && turn != []
  }

  // One turn's own messages

  datatype Ending = Completed | TimedOut(reason: string, reply: string)

  predicate CanEnd(c: Turn.Config, before: seq<Message>, steps: seq<Turn.Step>, ending: Ending) {
    Turn.Legal(c, before, steps) && (ending.Completed? ==> Turn.Run(c, before, steps).value.node.AtEnd?)
  }

  /** What the turn adds to a thread with this history: its input, what it said and did and, cut off, an apology. */
  function TurnMessages(c: Turn.Config, history: seq<Message>, input: seq<Message>, steps: seq<Turn.Step>, ending: Ending)
    : seq<Message>
    requires CanEnd(c, history + input, steps, ending)
  {
    var own := Turn.Added(history, Turn.Run(c, history + input, steps).value);
    match ending
    case Completed => own
    case TimedOut(reason, reply) => Repair.Closed(own, reason) + [Assistant(reply, [])]
  }

  lemma OwnMessages(c: Turn.Config, history: seq<Message>, input: seq<Message>, steps: seq<Turn.Step>)
    requires Turn.Legal(c, history + input, steps)
    ensures var s := Turn.Run(c, history + input, steps).value;
      && s.messages == history + Turn.Added(history, s)
      && Turn.Added(history, s) == input + Turn.Added(history + input, s)
  {
    Turn.TurnAddsWholeRounds(c, history + input, steps);
    AddedToHistory(history, input, Turn.Run(c, history + input, steps).value);
  }

  lemma AddedToHistory(history: seq<Message>, input: seq<Message>, s: Turn.State)
    requires s.messages == history + input + Turn.Added(history + input, s)
    ensures s.messages == history + Turn.Added(history, s)
    ensures Turn.Added(history, s) == input + Turn.Added(history + input, s)
  {
    assert s.messages == history + (input + Turn.Added(history + input, s));
  }

  /** A completed turn is its input and what was added to it, and ends in a reply that asks for no tool. */
  lemma CompletedIsWhole(c: Turn.Config, history: seq<Message>, input: seq<Message>, steps: seq<Turn.Step>)
    requires CanEnd(c, history + input, steps, Completed)
    ensures Turn.EndsInReply(TurnMessages(c, history, input, steps, Completed))
    ensures history + TurnMessages(c, history, input, steps, Completed) == Turn.Run(c, history + input, steps).value.messages
  {
    OwnMessages(c, history, input, steps);
    Turn.TurnAddsWholeRounds(c, history + input, steps);
  }

  ghost predicate IsClosed(said: seq<Message>, closed: seq<Message>, reason: string) {
    exists places :: Repair.FilledIn(said, closed, places, reason)
  }

  /** Everything that was said, with a reply for each call that had none, and the apology last. */
  ghost predicate IsCutOff(said: seq<Message>, own: seq<Message>, reason: string, reply: string) {
    && own != [] && own[|own| - 1] == Assistant(reply, [])
    && IsClosed(said, own[..|own| - 1], reason)
  }

  /** own is what the run said after the history, all of it; cut off, it is closed as above. */
  ghost predicate IsSaidIn(c: Turn.Config, history: seq<Message>, input: seq<Message>, steps: seq<Turn.Step>, ending: Ending, own: seq<Message>)
    requires CanEnd(c, history + input, steps, ending)
  {
    var messages := Turn.Run(c, history + input, steps).value.messages;
    && history + input <= messages
    && match ending
       case Completed => messages == history + own
       case TimedOut(reason, reply) => IsCutOff(messages[|history|..], own, reason, reply)
  }

  /** A turn keeps all its own messages, however it ends. */
  lemma TurnKeepsWhatItSaid(c: Turn.Config, history: seq<Message>, input: seq<Message>, steps: seq<Turn.Step>, ending: Ending)
    requires CanEnd(c, history + input, steps, ending)
    ensures IsSaidIn(c, history, input, steps, ending, TurnMessages(c, history, input, steps, ending))
  {
    var s := Turn.Run(c, history + input, steps).value;
    OwnMessages(c, history, input, steps);
    Turn.TurnAddsWholeRounds(c, history + input, steps);
    match ending
    case Completed =>
    case TimedOut(reason, reply) =>
      var said := Turn.Added(history, s);
      var own := TurnMessages(c, history, input, steps, ending);
      assert s.messages[|history|..] == said && own[..|own| - 1] == Repair.Closed(said, reason);
      var places := Repair.RepairFillsIn(said, reason);
  }

  /** A turn that was cut off keeps what it said, and ends in its apology with every tool call answered. */
  lemma CutOffIsAnswered(
    c: Turn.Config, history: seq<Message>, input: seq<Message>, steps: seq<Turn.Step>, reason: string, reply: string)
    requires CanEnd(c, history + input, steps, TimedOut(reason, reply))
    ensures Turn.EndsInReply(TurnMessages(c, history, input, steps, TimedOut(reason, reply)))
    ensures Answered(TurnMessages(c, history, input, steps, TimedOut(reason, reply)))
    ensures IsSaidIn(c, history, input, steps, TimedOut(reason, reply), TurnMessages(c, history, input, steps, TimedOut(reason, reply)))
  {
    var own := Turn.Added(history, Turn.Run(c, history + input, steps).value);
    TurnKeepsWhatItSaid(c, history, input, steps, TimedOut(reason, reply));
    Repair.RepairAnswers(own, reason);
    Turn.AloneIsWellFormed(Assistant(reply, []));
    AnsweredAppend(Repair.Closed(own, reason), [Assistant(reply, [])]);
  }

  /** A turn that was cut off where nothing waited for a reply is saved as it is, and the apology. */
  lemma CutOffBetweenRounds(
    c: Turn.Config, history: seq<Message>, input: seq<Message>, steps: seq<Turn.Step>, reason: string, reply: string)
    requires CanEnd(c, history + input, steps, TimedOut(reason, reply))
    requires Answered(Turn.Added(history, Turn.Run(c, history + input, steps).value))
    ensures history + TurnMessages(c, history, input, steps, TimedOut(reason, reply))
      == Turn.Run(c, history + input, steps).value.messages + [Assistant(reply, [])]
  {
    var s := Turn.Run(c, history + input, steps).value;
    OwnMessages(c, history, input, steps);
    Repair.RepairIsIdentityOnAnswered(Turn.Added(history, s), reason);
  }

  // The store

  /**
   own is set when the turn has finished, base when its save has read the store,
   landed when it has written it. seen is how many saves of the thread had
   landed when this one began.
   */
  datatype Session = Session(
    thread: string, history: Option<seq<Message>>, input: seq<Message>,
    own: Option<seq<Message>>, cutOff: bool, base: Option<seq<Message>>, seen: nat, landed: bool)

  /** landings are the sessions whose saves have landed, in that order. */
  datatype World = World(store: map<string, seq<Message>>, sessions: seq<Session>, landings: seq<nat>)

  datatype Action =
    | Open(thread: string, readable: bool, input: seq<Message>)
    | Finish(k: nat, c: Turn.Config, steps: seq<Turn.Step>, ending: Ending)
    | BeginSave(k: nat)
    | Land(k: nat)

  function Stored(s: World, thread: string): seq<Message> {
    if thread in s.store then s.store[thread] else []
  }

  /** Those of the sessions that are of the thread, in the same order. */
  function OfThread(sessions: seq<Session>, picks: seq<nat>, thread: string): seq<nat> {
    if picks == [] then []
    else
      var front, last := OfThread(sessions, picks[..|picks| - 1], thread), picks[|picks| - 1];
      if last < |sessions| && sessions[last].thread == thread then front + [last] else front
  }

  /** The sessions of a thread whose saves have landed, in landing order. */
  function Landed(s: World, thread: string): seq<nat> {
    OfThread(s.sessions, s.landings, thread)
  }

  function HistoryOf(session: Session): seq<Message> {
    if session.history.Some? then session.history.value else []
  }

  predicate Enabled(s: World, a: Action) {
    match a
    case Open(_, _, _) => true
    case Finish(k, c, steps, ending) =>
      k < |s.sessions| && s.sessions[k].own.None?
      && CanEnd(c, HistoryOf(s.sessions[k]) + s.sessions[k].input, steps, ending)
    case BeginSave(k) =>
      k < |s.sessions| && s.sessions[k].own.Some? && s.sessions[k].base.None?
      && Saves(s.sessions[k].history, s.sessions[k].own.value)
    case Land(k) =>
      k < |s.sessions| && s.sessions[k].base.Some? && s.sessions[k].own.Some? && !s.sessions[k].landed
  }

  function Apply(s: World, a: Action): World
    requires Enabled(s, a)
  {
    match a
    case Open(thread, readable, input) =>
      var history := if readable then Some(Stored(s, thread)) else None;
      s.(sessions := s.sessions + [Session(thread, history, input, None, false, None, 0, false)])
    case Finish(k, c, steps, ending) =>
      var session := s.sessions[k];
      var own := TurnMessages(c, HistoryOf(session), session.input, steps, ending);
      s.(sessions := s.sessions[k := session.(own := Some(own), cutOff := ending.TimedOut?)])
    case BeginSave(k) =>
      var session := s.sessions[k];
      s.(sessions := s.sessions[k := session.(base := Some(Stored(s, session.thread)), seen := |Landed(s, session.thread)|)])
    case Land(k) =>
      var session := s.sessions[k];
      World(s.store[session.thread := session.base.value + session.own.value],
             s.sessions[k := session.(landed := true)],
             s.landings + [k])
  }

  function Empty(): World {
    World(map[], [], [])
  }

  predicate Legal(s: World, actions: seq<Action>)
    decreases actions
  {
    actions == [] || (Enabled(s, actions[0]) && Legal(Apply(s, actions[0]), actions[1..]))
  }

  function Run(s: World, actions: seq<Action>): World
    requires Legal(s, actions)
    decreases actions
  {
    if actions == [] then s else Run(Apply(s, actions[0]), actions[1..])
  }

  // What a thread holds

  /** The turns of these sessions, one after the other. */
  function Joined(sessions: seq<Session>, picks: seq<nat>): seq<Message> {
    if picks == [] then []
    else
      var last := picks[|picks| - 1];
      Joined(sessions, picks[..|picks| - 1]) + if last < |sessions| && sessions[last].own.Some? then sessions[last].own.value else []
  }

  /** A finished turn of the thread that could read it, and whose save landed. */
  predicate Kept(sessions: seq<Session>, thread: string, k: nat) {
    && k < |sessions| && sessions[k].thread == thread && sessions[k].history.Some?
    && sessions[k].own.Some? && sessions[k].landed
  }

  predicate Holds(sessions: seq<Session>, thread: string, picks: seq<nat>, ms: seq<Message>) {
    && Joined(sessions, picks) == ms
    && (forall i :: 0 <= i < |picks| ==> Kept(sessions, thread, picks[i]))
    && (forall i, j :: 0 <= i < j < |picks| ==> picks[i] != picks[j])
  }

  ghost predicate HoldsTurns(sessions: seq<Session>, thread: string, ms: seq<Message>) {
    exists picks :: Holds(sessions, thread, picks, ms)
  }

  /** What the session adds is what a legal run of a turn on its history and input said, all of it. */
  ghost predicate IsTurn(session: Session)
    requires session.own.Some?
  {
    exists c, steps, ending ::
      CanEnd(c, HistoryOf(session) + session.input, steps, ending)
      && session.own.value == TurnMessages(c, HistoryOf(session), session.input, steps, ending)
      && IsSaidIn(c, HistoryOf(session), session.input, steps, ending, session.own.value)
      && (session.cutOff <==> ending.TimedOut?)
  }

  ghost predicate Whole(session: Session) {
    && (session.own.Some? ==> IsTurn(session))
    && (session.own.Some? ==> Turn.EndsInReply(session.own.value))
    && (session.own.Some? && session.cutOff ==> Answered(session.own.value))
    && (session.base.Some? ==> session.history.Some? && session.own.Some?)
  }

  ghost predicate Inv(s: World) {
    && (forall t :: t in s.store ==> HoldsTurns(s.sessions, t, s.store[t]))
    && (forall k :: 0 <= k < |s.sessions| ==> Whole(s.sessions[k]))
    && (forall k :: 0 <= k < |s.sessions| && s.sessions[k].base.Some? ==>
          HoldsTurns(s.sessions, s.sessions[k].thread, s.sessions[k].base.value))
  }

  /** The sessions' past does not change. */
  predicate Extends(before: seq<Session>, after: seq<Session>) {
    && |before| <= |after|
    && forall k :: 0 <= k < |before| ==>
         && after[k].thread == before[k].thread && after[k].history == before[k].history
         && (before[k].own.Some? ==> after[k].own == before[k].own)
         && (before[k].landed ==> after[k].landed)
  }

  lemma {:induction false} JoinedStays(before: seq<Session>, after: seq<Session>, thread: string, picks: seq<nat>)
    requires Extends(before, after) && forall i :: 0 <= i < |picks| ==> Kept(before, thread, picks[i])
    ensures Joined(before, picks) == Joined(after, picks)
  {
    if picks != [] {
      JoinedStays(before, after, thread, picks[..|picks| - 1]);
      assert Kept(before, thread, picks[|picks| - 1]);
    }
  }

  lemma PicksStay(before: seq<Session>, after: seq<Session>, thread: string, picks: seq<nat>, ms: seq<Message>)
    requires Extends(before, after) && Holds(before, thread, picks, ms)
    ensures Holds(after, thread, picks, ms)
  {
    JoinedStays(before, after, thread, picks);
  }

  lemma OneMorePick(sessions: seq<Session>, thread: string, picks: seq<nat>, ms: seq<Message>, k: nat)
    requires Holds(sessions, thread, picks, ms) && Kept(sessions, thread, k) && k !in picks
    ensures Holds(sessions, thread, picks + [k], ms + sessions[k].own.value)
  {
    assert (picks + [k])[..|picks|] == picks;
  }

  lemma HoldsStays(before: seq<Session>, after: seq<Session>, thread: string, ms: seq<Message>)
    requires Extends(before, after) && HoldsTurns(before, thread, ms)
    ensures HoldsTurns(after, thread, ms)
  {
    var picks :| Holds(before, thread, picks, ms);
    PicksStay(before, after, thread, picks, ms);
  }

  lemma ApplyExtends(s: World, a: Action)
    requires Enabled(s, a)
    ensures Extends(s.sessions, Apply(s, a).sessions)
  {
  }

  lemma StoredHolds(s: World, thread: string)
    requires Inv(s)
    ensures HoldsTurns(s.sessions, thread, Stored(s, thread))
  {
    assert thread !in s.store ==> Holds(s.sessions, thread, [], []);
  }

  /** A landing save puts its turn after what it had read, and no turn twice. */
  lemma LandedHolds(s: World, k: nat)
    requires Inv(s) && Enabled(s, Land(k))
    ensures var session := s.sessions[k];
      HoldsTurns(Apply(s, Land(k)).sessions, session.thread, session.base.value + session.own.value)
  {
    var session, after := s.sessions[k], Apply(s, Land(k)).sessions;
    var picks :| Holds(s.sessions, session.thread, picks, session.base.value);
    assert k !in picks;
    assert Kept(after, session.thread, k);
    ApplyExtends(s, Land(k));
    hide Holds, Kept, Extends;
    PicksStay(s.sessions, after, session.thread, picks, session.base.value);
    OneMorePick(after, session.thread, picks, session.base.value, k);
  }

  lemma FinishedIsTurn(s: World, k: nat, c: Turn.Config, steps: seq<Turn.Step>, ending: Ending)
    requires Enabled(s, Finish(k, c, steps, ending))
    ensures IsTurn(Apply(s, Finish(k, c, steps, ending)).sessions[k])
  {
    var session := Apply(s, Finish(k, c, steps, ending)).sessions[k];
    assert HistoryOf(session) == HistoryOf(s.sessions[k]) && session.input == s.sessions[k].input;
    TurnKeepsWhatItSaid(c, HistoryOf(session), session.input, steps, ending);
  }

  lemma TurnStays(before: Session, after: Session)
    requires before.own.Some? && IsTurn(before)
    requires after.history == before.history && after.input == before.input
    requires after.own == before.own && after.cutOff == before.cutOff
    ensures IsTurn(after)
  {
    var c, steps, ending :|
      CanEnd(c, HistoryOf(before) + before.input, steps, ending)
      && before.own.value == TurnMessages(c, HistoryOf(before), before.input, steps, ending)
      && IsSaidIn(c, HistoryOf(before), before.input, steps, ending, before.own.value)
      && (before.cutOff <==> ending.TimedOut?);
    assert HistoryOf(after) == HistoryOf(before);
  }

  lemma FinishedIsWhole(s: World, k: nat, c: Turn.Config, steps: seq<Turn.Step>, ending: Ending)
    requires Inv(s) && Enabled(s, Finish(k, c, steps, ending))
    ensures Whole(Apply(s, Finish(k, c, steps, ending)).sessions[k])
  {
    var history, input := HistoryOf(s.sessions[k]), s.sessions[k].input;
    match ending {
      case Completed => CompletedIsWhole(c, history, input, steps);
      case TimedOut(reason, reply) => CutOffIsAnswered(c, history, input, steps, reason, reply);
    }
    FinishedIsTurn(s, k, c, steps, ending);
  }

  lemma WholeStays(s: World, a: Action)
    requires Inv(s) && Enabled(s, a)
    ensures forall k :: 0 <= k < |Apply(s, a).sessions| ==> Whole(Apply(s, a).sessions[k])
  {
    var next := Apply(s, a);
    forall j | 0 <= j < |next.sessions|
      ensures Whole(next.sessions[j])
    {
      if a.Finish? && j == a.k {
        FinishedIsWhole(s, a.k, a.c, a.steps, a.ending);
      } else if j < |s.sessions| && s.sessions[j].own.Some? {
        TurnStays(s.sessions[j], next.sessions[j]);
      }
    }
  }

  lemma InvPreserved(s: World, a: Action)
    requires Inv(s) && Enabled(s, a)
    ensures Inv(Apply(s, a))
  {
    var next := Apply(s, a);
    ApplyExtends(s, a);
    WholeStays(s, a);
    forall t | t in next.store
      ensures HoldsTurns(next.sessions, t, next.store[t])
    {
      if a.Land? && t == s.sessions[a.k].thread {
        LandedHolds(s, a.k);
      } else {
        HoldsStays(s.sessions, next.sessions, t, s.store[t]);
      }
    }
    forall k | 0 <= k < |next.sessions| && next.sessions[k].base.Some?
      ensures HoldsTurns(next.sessions, next.sessions[k].thread, next.sessions[k].base.value)
    {
      var session := next.sessions[k];
      if a.BeginSave? && k == a.k {
        StoredHolds(s, session.thread);
      }
      HoldsStays(s.sessions, next.sessions, session.thread, session.base.value);
    }
  }

  lemma {:induction false} InvOverRuns(s: World, actions: seq<Action>)
    requires Inv(s) && Legal(s, actions)
    ensures Inv(Run(s, actions))
    decreases actions
  {
    if actions != [] {
      InvPreserved(s, actions[0]);
      InvOverRuns(Apply(s, actions[0]), actions[1..]);
    }
  }

  /**
   Over every run, a stored thread is a sequence of distinct turns of that
   thread, each of them what a legal run on its history and input added, and
   whole: it ends in a reply without tool calls, and if it timed out every tool
   call in it is answered. A turn that could not read the thread is never among them.
   */
  lemma ThreadsHoldWholeTurns(actions: seq<Action>, thread: string) returns (picks: seq<nat>)
    requires Legal(Empty(), actions) && thread in Run(Empty(), actions).store
    ensures var s := Run(Empty(), actions);
      && s.store[thread] == Joined(s.sessions, picks)
      && (forall i, j :: 0 <= i < j < |picks| ==> picks[i] != picks[j])
      && forall i :: 0 <= i < |picks| ==>
           && picks[i] < |s.sessions| && s.sessions[picks[i]].thread == thread
           && s.sessions[picks[i]].history.Some? && s.sessions[picks[i]].own.Some?
           && IsTurn(s.sessions[picks[i]])
           && Turn.EndsInReply(s.sessions[picks[i]].own.value)
           && (s.sessions[picks[i]].cutOff ==> Answered(s.sessions[picks[i]].own.value))
  {
    InvOverRuns(Empty(), actions);
    var s := Run(Empty(), actions);
    picks :| Holds(s.sessions, thread, picks, s.store[thread]);
    forall i | 0 <= i < |picks|
      ensures Kept(s.sessions, thread, picks[i]) && Whole(s.sessions[picks[i]])
    {
    }
  }

  // Nothing is lost

  /** No save of the thread has landed since the one of session k began. */
  predicate InTurn(s: World, k: nat)
    requires k < |s.sessions|
  {
    s.sessions[k].seen == |Landed(s, s.sessions[k].thread)|
  }

  predicate InProgress(session: Session) {
    session.base.Some? && !session.landed
  }

  /** No save lands between the beginning and the landing of another one of its thread. */
  predicate Undisturbed(s: World, actions: seq<Action>)
    requires Legal(s, actions)
    decreases actions
  {
    actions == [] ||
    ((actions[0].Land? ==> InTurn(s, actions[0].k)) && Undisturbed(Apply(s, actions[0]), actions[1..]))
  }

  /** A save in progress has read what is stored, unless others have landed since, each of which made the thread longer. */
  predicate ReadsCurrent(s: World, k: nat)
    requires k < |s.sessions|
  {
    var session := s.sessions[k];
    InProgress(session) ==>
      && session.history.Some? && session.own.Some? && session.own.value != []
      && session.seen <= |Landed(s, session.thread)|
      && |session.base.value| + (|Landed(s, session.thread)| - session.seen) <= |Stored(s, session.thread)|
      && (InTurn(s, k) ==> session.base.value == Stored(s, session.thread))
  }

  predicate LandingsHaveTurns(s: World) {
    forall i :: 0 <= i < |s.landings| ==> s.landings[i] < |s.sessions| && s.sessions[s.landings[i]].own.Some?
  }

  /** The stored thread is the messages of the turns that landed on it, in that order. */
  predicate HoldsLanded(s: World, t: string)
    requires LandingsHaveTurns(s)
  {
    Stored(s, t) == Joined(s.sessions, Landed(s, t))
  }

  ghost predicate Exact(s: World) {
    && LandingsHaveTurns(s)
    && (forall t :: HoldsLanded(s, t))
    && (forall k :: 0 <= k < |s.sessions| ==> ReadsCurrent(s, k))
  }

  lemma {:induction false} OfThreadStays(before: seq<Session>, after: seq<Session>, picks: seq<nat>, thread: string)
    requires Extends(before, after)
    requires forall i :: 0 <= i < |picks| ==> picks[i] < |before| && before[picks[i]].own.Some?
    ensures OfThread(before, picks, thread) == OfThread(after, picks, thread)
    ensures Joined(before, OfThread(before, picks, thread)) == Joined(after, OfThread(after, picks, thread))
  {
    if picks != [] {
      var front, last := picks[..|picks| - 1], picks[|picks| - 1];
      OfThreadStays(before, after, front, thread);
      var mine := OfThread(before, front, thread);
      assert (mine + [last])[..|mine|] == mine;
    }
  }

  lemma LandsLast(s: World, k: nat, thread: string)
    requires Exact(s) && Enabled(s, Land(k))
    ensures var next := Apply(s, Land(k));
      Landed(next, thread) == if thread == s.sessions[k].thread then Landed(s, thread) + [k] else Landed(s, thread)
    ensures var next := Apply(s, Land(k));
      Joined(next.sessions, Landed(next, thread)) ==
        if thread == s.sessions[k].thread then Joined(s.sessions, Landed(s, thread)) + s.sessions[k].own.value
        else Joined(s.sessions, Landed(s, thread))
  {
    var next := Apply(s, Land(k));
    ApplyExtends(s, Land(k));
    OfThreadStays(s.sessions, next.sessions, s.landings, thread);
    assert next.landings[..|s.landings|] == s.landings;
    var mine := OfThread(next.sessions, s.landings, thread);
    assert (mine + [k])[..|mine|] == mine;
  }

  lemma LandStores(s: World, k: nat, thread: string)
    requires Exact(s) && Enabled(s, Land(k)) && InTurn(s, k)
    ensures s.sessions[k].own.value != []
    ensures Stored(Apply(s, Land(k)), thread) ==
      if thread == s.sessions[k].thread then Stored(s, thread) + s.sessions[k].own.value else Stored(s, thread)
  {
    assert ReadsCurrent(s, k);
    hide Landed, Joined;
  }

  /** A world in which at most one more save of session j's thread has landed, and made it longer. */
  predicate Grown(s: World, next: World, j: nat) {
    && j < |s.sessions| && j < |next.sessions|
    && next.sessions[j].(landed := s.sessions[j].landed) == s.sessions[j]
    && (s.sessions[j].landed ==> next.sessions[j].landed)
    && var thread := s.sessions[j].thread;
       || (|Landed(next, thread)| == |Landed(s, thread)| && Stored(next, thread) == Stored(s, thread))
       || (|Landed(next, thread)| == |Landed(s, thread)| + 1 && |Stored(next, thread)| > |Stored(s, thread)|)
  }

  lemma LandGrows(s: World, k: nat, j: nat)
    requires Exact(s) && Enabled(s, Land(k)) && InTurn(s, k) && j < |s.sessions|
    ensures Grown(s, Apply(s, Land(k)), j)
  {
    LandStores(s, k, s.sessions[j].thread);
    LandsLast(s, k, s.sessions[j].thread);
    hide Exact, InTurn, Landed, Stored, Joined, OfThread;
  }

  lemma GrownReadsCurrent(s: World, next: World, j: nat)
    requires Grown(s, next, j) && ReadsCurrent(s, j)
    ensures ReadsCurrent(next, j)
  {
    hide Landed, Stored;
  }

  lemma LandKeepsReads(s: World, k: nat, j: nat)
    requires Exact(s) && Enabled(s, Land(k)) && InTurn(s, k) && j < |s.sessions|
    ensures j < |Apply(s, Land(k)).sessions| && ReadsCurrent(Apply(s, Land(k)), j)
  {
    assert ReadsCurrent(s, j);
    hide *;
    LandGrows(s, k, j);
    GrownReadsCurrent(s, Apply(s, Land(k)), j);
  }

  lemma LandHoldsLanded(s: World, k: nat, t: string)
    requires Exact(s) && Enabled(s, Land(k)) && InTurn(s, k)
    ensures LandingsHaveTurns(Apply(s, Land(k))) && HoldsLanded(Apply(s, Land(k)), t)
  {
    assert HoldsLanded(s, t);
    LandStores(s, k, t);
    LandsLast(s, k, t);
  }

  lemma LandKeepsExact(s: World, k: nat)
    requires Exact(s) && Enabled(s, Land(k)) && InTurn(s, k)
    ensures Exact(Apply(s, Land(k)))
  {
    hide ReadsCurrent, InTurn, HoldsLanded, LandingsHaveTurns;
    var next := Apply(s, Land(k));
    LandHoldsLanded(s, k, s.sessions[k].thread);
    forall t
      ensures HoldsLanded(next, t)
    {
      LandHoldsLanded(s, k, t);
    }
    forall j | 0 <= j < |next.sessions|
      ensures ReadsCurrent(next, j)
    {
      LandKeepsReads(s, k, j);
    }
  }

  lemma OthersKeepExact(s: World, a: Action)
    requires Exact(s) && Enabled(s, a) && !a.Land?
    ensures Exact(Apply(s, a))
  {
    var next := Apply(s, a);
    ApplyExtends(s, a);
    forall t
      ensures Landed(next, t) == Landed(s, t) && Stored(next, t) == Joined(next.sessions, Landed(next, t))
    {
      assert HoldsLanded(s, t);
      OfThreadStays(s.sessions, next.sessions, s.landings, t);
    }
    forall j | 0 <= j < |next.sessions|
      ensures ReadsCurrent(next, j)
    {
      assert j < |s.sessions| ==> ReadsCurrent(s, j);
    }
  }

  lemma {:induction false} ExactOverRuns(s: World, actions: seq<Action>)
    requires Exact(s) && Legal(s, actions) && Undisturbed(s, actions)
    ensures Exact(Run(s, actions))
    decreases actions
  {
    if actions != [] {
      if actions[0].Land? {
        LandKeepsExact(s, actions[0].k);
      } else {
        OthersKeepExact(s, actions[0]);
      }
      ExactOverRuns(Apply(s, actions[0]), actions[1..]);
    }
  }

  /** As long as no save lands in the middle of another one of its thread, a thread holds all turns that landed, in that order. */
  lemma UndisturbedThreadsHoldAll(actions: seq<Action>, thread: string)
    requires Legal(Empty(), actions) && Undisturbed(Empty(), actions)
    ensures var s := Run(Empty(), actions);
      Stored(s, thread) == Joined(s.sessions, Landed(s, thread))
  {
    ExactOverRuns(Empty(), actions);
    assert HoldsLanded(Run(Empty(), actions), thread);
  }

  /** A turn that starts after others of its thread have landed undisturbed is given all of their messages, in that order. */
  lemma NextTurnReadsAll(actions: seq<Action>, thread: string, input: seq<Message>)
    requires Legal(Empty(), actions) && Undisturbed(Empty(), actions)
    ensures var s := Run(Empty(), actions);
      var sessions := Apply(s, Open(thread, true, input)).sessions;
      && sessions[|s.sessions|].history == Some(Joined(s.sessions, Landed(s, thread)))
      && sessions[|s.sessions|].input == input
  {
    UndisturbedThreadsHoldAll(actions, thread);
  }

  /** The first save that loses a turn is the first that lands after another one of its thread that it has not read. */
  lemma LandingLosesNothingExact(actions: seq<Action>, k: nat)
    requires Legal(Empty(), actions) && Undisturbed(Empty(), actions) && Enabled(Run(Empty(), actions), Land(k))
    ensures var s := Run(Empty(), actions);
      var thread := s.sessions[k].thread;
      Stored(Apply(s, Land(k)), thread) == Stored(s, thread) + s.sessions[k].own.value <==> InTurn(s, k)
  {
    ExactOverRuns(Empty(), actions);
    assert ReadsCurrent(Run(Empty(), actions), k);
  }
}
