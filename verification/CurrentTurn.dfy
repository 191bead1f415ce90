/** What trimming does to the current turn: the latest user message and all that follows it. */
module CurrentTurn {
  import opened Messages
  import opened Context

  predicate NoUserMessage(ms: seq<Message>) {
    forall k :: 0 <= k < |ms| ==> !ms[k].Human?
  }

  predicate Shaped(unit: seq<Message>) {
    unit != [] && (forall j :: 0 < j < |unit| ==> unit[j].Tool?) && (Opens(unit) ==> |unit| == 1)
  }

  lemma {:induction false} UnitsAreShaped(ms: seq<Message>)
    ensures forall i :: 0 <= i < |UnitsOf(ms)| ==> Shaped(UnitsOf(ms)[i])
    decreases |ms|
  {
    if ms != [] {
      var n := UnitLength(ms);
      UnitsAreShaped(ms[n..]);
      assert Shaped(ms[..n]);
    }
  }

  lemma {:induction false} NoUserMessageIn(units: seq<seq<Message>>)
    requires forall i :: 0 <= i < |units| ==> Shaped(units[i]) && !Opens(units[i])
    ensures NoUserMessage(Flatten(units))
    ensures units != [] ==> Flatten(units) != []
  {
    if units != [] {
      NoUserMessageIn(units[1..]);
      assert Shaped(units[0]);
    }
  }

  lemma FlattenAt(units: seq<seq<Message>>, i: nat)
    requires i <= |units|
    ensures Flatten(units) == Flatten(units[..i]) + Flatten(units[i..])
  {
    FlattenAppend(units[..i], units[i..]);
    assert units[..i] + units[i..] == units;
  }

  lemma FlattenAround(units: seq<seq<Message>>, i: nat, h: Message)
    requires i < |units| && units[i] == [h]
    ensures Flatten(units) == Flatten(units[..i]) + ([h] + Flatten(units[i + 1..]))
  {
    FlattenAt(units, i);
    assert units[i..] == [[h]] + units[i + 1..];
    hide Flatten;
    FlattenFirst([h], units[i + 1..]);
  }

  /** The anchor of a history with a user message is a user message, with none behind it. */
  lemma AnchorIsUserMessage(history: seq<Message>, anchor: nat, k: nat) returns (h: Message)
    requires IsAnchor(UnitsOf(history), anchor) && k < |history| && history[k].Human?
    ensures anchor < |UnitsOf(history)| && UnitsOf(history)[anchor] == [h] && h.Human?
    ensures forall i :: anchor < i < |UnitsOf(history)| ==> !Opens(UnitsOf(history)[i])
  {
    var j := HumanOpensUnit(history, k);
    UnitsAreShaped(history);
    hide UnitsOf;
    var units := UnitsOf(history);
    assert units[j] in units;
    assert Shaped(units[anchor]) && Opens(units[anchor]);
    h := units[anchor][0];
  }

  /** The unit of the latest user message is that message alone, and stands where it stands. */
  lemma AnchorPlace(history: seq<Message>, anchor: nat, k: nat)
    requires IsAnchor(UnitsOf(history), anchor) && k < |history| && history[k].Human?
    requires forall j :: k < j < |history| ==> !history[j].Human?
    ensures var units := UnitsOf(history);
      && units[anchor] == [history[k]] && Flatten(units[..anchor]) == history[..k]
      && Flatten(units[anchor + 1..]) == history[k + 1..]
  {
    hide *;
    var h := AnchorIsUserMessage(history, anchor, k);
    var units := UnitsOf(history);
    UnitsAreTheHistory(history);
    UnitsAreShaped(history);
    FlattenAround(units, anchor, h);
    NoUserMessageBehind(units, anchor);
    LastUserMessage(history, Flatten(units[..anchor]), h, Flatten(units[anchor + 1..]), k);
  }

  lemma NoUserMessageBehind(units: seq<seq<Message>>, anchor: nat)
    requires anchor < |units| && forall i :: 0 <= i < |units| ==> Shaped(units[i])
    requires forall i :: anchor < i < |units| ==> !Opens(units[i])
    ensures NoUserMessage(Flatten(units[anchor + 1..]))
  {
    hide Shaped, Opens;
    NoUserMessageIn(units[anchor + 1..]);
  }

  lemma LastUserMessage(history: seq<Message>, before: seq<Message>, h: Message, behind: seq<Message>, k: nat)
    requires history == before + ([h] + behind) && h.Human? && NoUserMessage(behind)
    requires k < |history| && history[k].Human? && forall j :: k < j < |history| ==> !history[j].Human?
    ensures k == |before| && h == history[k] && before == history[..k] && behind == history[k + 1..]
  {
    assert history[|before|] == h;
    assert forall j :: |before| < j < |history| ==> !history[j].Human?;
  }

  /** Where the kept stretches begin: earlier messages are kept only with all that follows the user message. */
  predicate Frames(history: seq<Message>, kept: seq<Message>, k: nat, m: nat, n: nat) {
    && m <= k < n <= |history|
    && kept == history[m..k + 1] + history[n..]
    && (k + 1 < |history| ==> n < |history|)
    && (m < k ==> n == k + 1)
  }

  /**
   Whatever the budget, the latest user message and the newest message are kept;
   before the former and behind it only the oldest messages of each stretch go.
   */
  lemma TrimKeepsTheTurn(cost: CostOfMessage, history: seq<Message>, max: int, fixed: int, trim: ContextTrim, k: nat)
    returns (m: nat, n: nat)
    requires IsTrim(cost, history, max, fixed, trim) && k < |history| && history[k].Human?
    requires forall j :: k < j < |history| ==> !history[j].Human?
    ensures Frames(history, trim.messages, k, m, n)
  {
    hide *;
    if Untouched(cost, history, max, fixed) {
      m, n := 0, k + 1;
      UntouchedFrames(cost, history, max, fixed, trim, k);
    } else {
      var w := WindowOf(cost, history, max, fixed, trim);
      AnchorPlace(history, w.anchor, k);
      UnitsAreShaped(history);
      m, n := WindowFrames(history, UnitsOf(history), w, k);
    }
  }

  lemma UntouchedFrames(cost: CostOfMessage, history: seq<Message>, max: int, fixed: int, trim: ContextTrim, k: nat)
    requires IsTrim(cost, history, max, fixed, trim) && Untouched(cost, history, max, fixed) && k < |history|
    ensures Frames(history, trim.messages, k, 0, k + 1)
  {
    assert trim.messages == history;
    hide IsTrim, Untouched;
    assert history[0..k + 1] + history[k + 1..] == history;
  }

  lemma WindowOf(cost: CostOfMessage, history: seq<Message>, max: int, fixed: int, trim: ContextTrim) returns (w: Window)
    requires IsTrim(cost, history, max, fixed, trim) && !Untouched(cost, history, max, fixed)
    ensures var units := UnitsOf(history);
      && Within(|units|, w) && w.head <= w.anchor < w.tail <= |units|
      && IsAnchor(units, w.anchor) && trim.messages == Kept(units, w)
      && (w.tail == |units| ==> w.anchor + 1 == |units|)
      && (w.head < w.anchor ==> w.tail == w.anchor + 1)
  {
    var units := UnitsOf(history);
    w :| IsWindow(units, Costs(cost, units), max - fixed, w) && trim.messages == Kept(units, w);
  }

  lemma WindowFrames(history: seq<Message>, units: seq<seq<Message>>, w: Window, k: nat) returns (m: nat, n: nat)
    requires Within(|units|, w) && k < |history| && units[w.anchor] == [history[k]]
    requires Flatten(units[..w.anchor]) == history[..k] && Flatten(units[w.anchor + 1..]) == history[k + 1..]
    requires forall i :: 0 <= i < |units| ==> Shaped(units[i])
    requires w.tail == |units| ==> w.anchor + 1 == |units|
    requires w.head < w.anchor ==> w.tail == w.anchor + 1
    ensures Frames(history, Kept(units, w), k, m, n)
  {
    m := HeadStart(history, units, w, k);
    n := TailStart(history, units, w, k);
    hide *;
    KeptIs(units, w, history[k]);
    assert history[m..k + 1] == history[m..k] + [history[k]];
    FramesIs(history, Kept(units, w), k, m, n);
  }

  lemma FramesIs(history: seq<Message>, kept: seq<Message>, k: nat, m: nat, n: nat)
    requires m <= k < n <= |history| && kept == history[m..k + 1] + history[n..]
    requires (k + 1 < |history| ==> n < |history|) && (m < k ==> n == k + 1)
    ensures Frames(history, kept, k, m, n)
  {
  }

  lemma KeptIs(units: seq<seq<Message>>, w: Window, h: Message)
    requires Within(|units|, w) && units[w.anchor] == [h]
    ensures Kept(units, w) == Flatten(units[w.head..w.anchor]) + [h] + Flatten(units[w.tail..])
  {
    hide Flatten;
    var head := units[w.head..w.anchor];
    assert units[w.head..w.anchor + 1] == head + [[h]];
    FlattenAppend(head + [[h]], units[w.tail..]);
    FlattenAppend(head, [[h]]);
    FlattenOne(h);
  }

  lemma FlattenOne(h: Message)
    ensures Flatten([[h]]) == [h]
  {
    FlattenFirst([h], []);
    assert [[h]] + [] == [[h]];
  }

  lemma HeadStart(history: seq<Message>, units: seq<seq<Message>>, w: Window, k: nat) returns (m: nat)
    requires Within(|units|, w) && k <= |history| && Flatten(units[..w.anchor]) == history[..k]
    ensures m <= k && Flatten(units[w.head..w.anchor]) == history[m..k]
    ensures w.head == w.anchor ==> m == k
  {
    var before := units[..w.anchor];
    FlattenAt(before, w.head);
    assert before[w.head..] == units[w.head..w.anchor];
    m := |Flatten(before[..w.head])|;
  }

  lemma TailStart(history: seq<Message>, units: seq<seq<Message>>, w: Window, k: nat) returns (n: nat)
    requires Within(|units|, w) && k < |history| && Flatten(units[w.anchor + 1..]) == history[k + 1..]
    requires forall i :: 0 <= i < |units| ==> Shaped(units[i])
    ensures k < n <= |history| && Flatten(units[w.tail..]) == history[n..]
    ensures w.tail == w.anchor + 1 ==> n == k + 1
    ensures w.tail < |units| ==> n < |history|
    ensures w.anchor + 1 == |units| ==> k + 1 == |history|
  {
    var behind, gap := units[w.anchor + 1..], w.tail - w.anchor - 1;
    FlattenAt(behind, gap);
    assert behind[gap..] == units[w.tail..];
    n := k + 1 + |Flatten(behind[..gap])|;
    if w.tail < |units| {
      assert Shaped(units[w.tail]) && units[w.tail..][0] == units[w.tail];
    }
  }
}
