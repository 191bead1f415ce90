/**
 The per-user budget. One subject's turns follow one another; before every
 model call the ledger's total and what the turn has used so far are checked
 against the caps, and the ledger is written when the turn ends.
 */
module Budget {
  import opened Common
  import opened Messages
  import opened Turn
  import opened Usage

  /** The largest count a single report may carry. It is allowed itself. */
  const MAX_PLAUSIBLE := 100_000_000

  const MILLION := 1_000_000.0

  datatype Price = Price(input: real, output: real)

  datatype Count = Input | Output | Total

  /** A turn's usage. What is not known for certain is None. */
  datatype TurnUsage = TurnUsage(modelCalls: nat, input: Option<int>, output: Option<int>, total: Option<int>)

  predicate Plausible(count: int) {
    0 <= count <= MAX_PLAUSIBLE
  }

  predicate Reported(entry: Option<CallUsage>) {
    && entry.Some?
    && Plausible(entry.value.input) && Plausible(entry.value.output) && Plausible(entry.value.total)
  }

  predicate AllReported(entries: seq<Option<CallUsage>>) {
    forall k :: 0 <= k < |entries| ==> Reported(entries[k])
  }

  function CountOf(count: Count, entry: Option<CallUsage>): int {
    if entry.None? then 0
    else
      match count
      case Input => entry.value.input
      case Output => entry.value.output
      case Total => entry.value.total
  }

  function Sum(count: Count, entries: seq<Option<CallUsage>>): int {
    if entries == [] then 0
    else Sum(count, entries[..|entries| - 1]) + CountOf(count, entries[|entries| - 1])
  }

  function AggregateTurnUsage(entries: seq<Option<CallUsage>>): TurnUsage {
    if entries == [] || !AllReported(entries) then TurnUsage(|entries|, None, None, None)
    else TurnUsage(|entries|, Some(Sum(Input, entries)), Some(Sum(Output, entries)), Some(Sum(Total, entries)))
  }

  function Priced(price: Price, input: int, output: int): real {
    input as real / MILLION * price.input + output as real / MILLION * price.output
  }

  /** price is None where the model has none. */
  function ComputeTurnCost(usage: TurnUsage, price: Option<Price>): Option<real> {
    if price.None? || usage.input.None? || usage.output.None? then None
    else if !Plausible(usage.input.value) || !Plausible(usage.output.value) then None
    else Some(Priced(price.value, usage.input.value, usage.output.value))
  }

  /** What the gate adds to the ledger's totals for the turn itself. */
  function Pending(entries: seq<Option<CallUsage>>, price: Option<Price>): UsageTotals {
    var usage := AggregateTurnUsage(entries);
    var cost := ComputeTurnCost(usage, price);
    UsageTotals(if usage.total.Some? then usage.total.value else 0, if cost.Some? then cost.value else 0.0, 0, 0)
  }

  // What the calls really amount to

  function CallAmount(kind: Kind, price: Option<Price>, entry: Option<CallUsage>): real {
    match kind
    case Tokens => CountOf(Total, entry) as real
    case Usd => if price.Some? then Priced(price.value, CountOf(Input, entry), CountOf(Output, entry)) else 0.0
  }

  function SumAmount(kind: Kind, price: Option<Price>, entries: seq<Option<CallUsage>>): real {
    if entries == [] then 0.0
    else SumAmount(kind, price, entries[..|entries| - 1]) + CallAmount(kind, price, entries[|entries| - 1])
  }

  predicate ValidPrice(price: Option<Price>) {
    price.Some? ==> price.value.input >= 0.0 && price.value.output >= 0.0
  }

  /** The turn's totals pass for a turn's. The check is on the sums, so that many plausible calls can fail it. */
  predicate InRange(entries: seq<Option<CallUsage>>) {
    Sum(Input, entries) <= MAX_PLAUSIBLE && Sum(Output, entries) <= MAX_PLAUSIBLE
  }

  lemma PricedAdds(price: Price, i: int, o: int, j: int, p: int)
    ensures Priced(price, i + j, o + p) == Priced(price, i, o) + Priced(price, j, p)
  {
    Distributes(i as real / MILLION, j as real / MILLION, price.input);
    Distributes(o as real / MILLION, p as real / MILLION, price.output);
  }

  /** The price is per million tokens, read or written; with PricedAdds this gives every price. */
  lemma PriceOfAMillion(price: Price)
    ensures Priced(price, 1_000_000, 0) == price.input && Priced(price, 0, 1_000_000) == price.output
  {
  }

  lemma Distributes(a: real, b: real, c: real)
    ensures (a + b) * c == a * c + b * c
  {
  }

  lemma PricedNonNegative(price: Price, i: int, o: int)
    requires price.input >= 0.0 && price.output >= 0.0 && i >= 0 && o >= 0
    ensures Priced(price, i, o) >= 0.0
  {
    ProductNonNegative(i as real / MILLION, price.input);
    ProductNonNegative(o as real / MILLION, price.output);
  }

  lemma ProductNonNegative(a: real, b: real)
    requires a >= 0.0 && b >= 0.0
    ensures a * b >= 0.0
  {
  }

  lemma {:induction false} AmountOfSums(kind: Kind, price: Option<Price>, entries: seq<Option<CallUsage>>)
    ensures SumAmount(kind, price, entries) == match kind
      case Tokens => Sum(Total, entries) as real
      case Usd => if price.Some? then Priced(price.value, Sum(Input, entries), Sum(Output, entries)) else 0.0
  {
    if entries != [] {
      var front, last := entries[..|entries| - 1], entries[|entries| - 1];
      AmountOfSums(kind, price, front);
      if kind.Usd? && price.Some? {
        PricedAdds(price.value, Sum(Input, front), Sum(Output, front), CountOf(Input, last), CountOf(Output, last));
      }
    }
  }

  lemma {:induction false} SumsNonNegative(entries: seq<Option<CallUsage>>)
    requires AllReported(entries)
    ensures Sum(Input, entries) >= 0 && Sum(Output, entries) >= 0 && Sum(Total, entries) >= 0
  {
    if entries != [] {
      SumsNonNegative(entries[..|entries| - 1]);
      assert Reported(entries[|entries| - 1]);
    }
  }

  /** A turn's usage is known exactly when every one of its requests reported plausible counts. */
  lemma UsageIsKnownExactly(price: Option<Price>, entries: seq<Option<CallUsage>>)
    ensures var usage := AggregateTurnUsage(entries);
      var known := entries != [] && forall k :: 0 <= k < |entries| ==>
        && entries[k].Some?
        && 0 <= entries[k].value.input <= 100_000_000
        && 0 <= entries[k].value.output <= 100_000_000
        && 0 <= entries[k].value.total <= 100_000_000;
      && usage.modelCalls == |entries|
      && usage.input == (if known then Some(Sum(Input, entries)) else None)
      && usage.output == (if known then Some(Sum(Output, entries)) else None)
      && usage.total == (if known then Some(Sum(Total, entries)) else None)
      && (!known ==> Pending(entries, price) == UsageTotals(0, 0.0, 0, 0))
  {
    if forall k :: 0 <= k < |entries| ==> Reported(entries[k]) {
      assert AllReported(entries);
    }
  }

  /** One report more adds its counts to the sums. */
  lemma SumsAdd(entries: seq<Option<CallUsage>>, u: CallUsage)
    ensures Sum(Input, entries + [Some(u)]) == Sum(Input, entries) + u.input
    ensures Sum(Output, entries + [Some(u)]) == Sum(Output, entries) + u.output
    ensures Sum(Total, entries + [Some(u)]) == Sum(Total, entries) + u.total
  {
    assert (entries + [Some(u)])[..|entries|] == entries;
  }

  /** What the gate counts as pending is what the turn's calls amount to. */
  lemma PendingIsExact(kind: Kind, price: Option<Price>, entries: seq<Option<CallUsage>>)
    requires AllReported(entries) && (kind.Usd? ==> InRange(entries))
    ensures Amount(kind, Pending(entries, price)) == SumAmount(kind, price, entries)
  {
    AmountOfSums(kind, price, entries);
    SumsNonNegative(entries);
  }

  lemma PendingOutOfRange(price: Option<Price>, entries: seq<Option<CallUsage>>)
    requires !InRange(entries)
    ensures Amount(Usd, Pending(entries, price)) == 0.0
  {
  }

  /** With so much in the ledger and this limit, the gate decides by what the calls cost. */
  predicate DecidesByCost(price: Option<Price>, entries: seq<Option<CallUsage>>, spent: real, limit: real) {
    spent + Amount(Usd, Pending(entries, price)) >= limit <==> spent + SumAmount(Usd, price, entries) >= limit
  }

  /**
   The gate decides by what the calls cost, whatever the ledger holds and the
   limit is, exactly when the turn's own sums are within the plausible range
   of a single turn, or when the calls cost nothing.
   */
  lemma UsdGateExact(price: Option<Price>, entries: seq<Option<CallUsage>>)
    requires AllReported(entries)
    ensures (forall spent, limit :: DecidesByCost(price, entries, spent, limit))
      <==> InRange(entries) || SumAmount(Usd, price, entries) == 0.0
  {
    if InRange(entries) {
      PendingIsExact(Usd, price, entries);
    } else {
      PendingOutOfRange(price, entries);
      var cost := SumAmount(Usd, price, entries);
      assert cost != 0.0 ==> !DecidesByCost(price, entries, 0.0, if cost > 0.0 then cost else 0.0);
    }
  }

  /** Two calls of 60 million tokens at a dollar a million: 120 dollars spent, and a cap of 100 lets a third one start. */
  lemma LongTurnEscapesUsdCap()
    ensures var price := Some(Price(1.0, 1.0));
      var call := Some(CallUsage(60_000_000, 0, 60_000_000));
      var caps := BudgetCaps(Some(100.0), None, None, None);
      && AllReported([call, call])
      && SumAmount(Usd, price, [call, call]) == 120.0
      && !Reached([], caps, 0, 0, Pending([call, call], price))
  {
    var call := Some(CallUsage(60_000_000, 0, 60_000_000));
    var entries := [call, call];
    assert entries[..1] == [call] && [call][..0] == [];
    assert Sum(Input, [call]) == 60_000_000;
    assert Sum(Input, entries) == 120_000_000;
    AmountOfSums(Usd, Some(Price(1.0, 1.0)), entries);
    assert Sum(Output, [call]) == 0 && Sum(Output, entries) == 0;
    PendingOutOfRange(Some(Price(1.0, 1.0)), entries);
  }

  // One turn under the gate

  /** When the UTC day or month of an instant began. */
  datatype Calendar = Calendar(day: int -> int, month: int -> int)

  function DayStart(t: int): int {
    t - t % DAY
  }

  /** Time is cut into windows, each of which begins at the start of everything in it. */
  ghost predicate CutsTime(start: int -> int) {
    && (forall t :: start(t) <= t)
    && (forall t, u :: t <= u && start(u) <= t ==> start(t) == start(u))
  }

  lemma DaysCutTime()
    ensures CutsTime(DayStart)
  {
    forall t, u | t <= u && DayStart(u) <= t
      ensures DayStart(t) == DayStart(u)
    {
      SameDay(t, u);
    }
  }

  lemma SameDay(t: int, u: int)
    requires t <= u && u - u % DAY <= t
    ensures t - t % DAY == u - u % DAY
  {
    assert t / DAY == u / DAY;
  }

  ghost predicate ValidCalendar(calendar: Calendar) {
    CutsTime(calendar.day) && CutsTime(calendar.month)
  }

  function StartOf(calendar: Calendar, window: Window, t: int): int {
    if window.Daily? then calendar.day(t) else calendar.month(t)
  }

  /** A turn of the subject: when it was first checked, its steps, the time of each, and when it was recorded. */
  datatype SubjectTurn = SubjectTurn(
    config: Config, messages: seq<Message>, began: int, steps: seq<Step>, times: seq<int>, recorded: int, id: string)

  ghost predicate Refuses(
    calendar: Calendar, caps: BudgetCaps, records: seq<UsageRecord>, t: int, pending: UsageTotals) {
    Reached(records, caps, calendar.day(t), calendar.month(t), pending)
  }

  function UsageAfter(turn: SubjectTurn, n: nat): seq<Option<CallUsage>>
    requires n <= |turn.steps|
  {
    var state := Run(turn.config, turn.messages, turn.steps[..n]);
    if state.Some? then state.value.usage else []
  }

  /** Step k asked the gate what it had to, and every call reported a plausible usage. */
  ghost predicate StepIsGated(
    calendar: Calendar, caps: BudgetCaps, price: Option<Price>, records: seq<UsageRecord>, turn: SubjectTurn, k: nat)
    requires k < |turn.steps| == |turn.times|
  {
    turn.steps[k].CallModel? ==>
      && turn.steps[k].refused == Refuses(calendar, caps, records, turn.times[k], Pending(UsageAfter(turn, k), price))
      && turn.steps[k].reply.Replies? && Reported(turn.steps[k].reply.usage)
  }

  predicate InOrder(turn: SubjectTurn) {
    && |turn.steps| == |turn.times|
    && (forall k :: 0 <= k < |turn.times| ==> turn.began <= turn.times[k] <= turn.recorded)
    && turn.began <= turn.recorded
  }

  ghost predicate Gated(
    calendar: Calendar, caps: BudgetCaps, price: Option<Price>, records: seq<UsageRecord>, turn: SubjectTurn) {
    && InOrder(turn)
    && Legal(turn.config, turn.messages, turn.steps)
    && !Refuses(calendar, caps, records, turn.began, UsageTotals(0, 0.0, 0, 0))
    && forall k :: 0 <= k < |turn.steps| ==> StepIsGated(calendar, caps, price, records, turn, k)
  }

  lemma {:induction false} PrefixIsLegal(turn: SubjectTurn, n: nat)
    requires n <= |turn.steps| && Legal(turn.config, turn.messages, turn.steps)
    ensures Legal(turn.config, turn.messages, turn.steps[..n])
    decreases |turn.steps| - n
  {
    if n == |turn.steps| {
      assert turn.steps[..n] == turn.steps;
    } else {
      PrefixIsLegal(turn, n + 1);
      assert turn.steps[..n + 1][..n] == turn.steps[..n];
    }
  }

  lemma NextUsage(turn: SubjectTurn, n: nat)
    requires n < |turn.steps| && Legal(turn.config, turn.messages, turn.steps)
    requires turn.steps[n].CallModel? ==> turn.steps[n].reply.Replies?
    ensures UsageAfter(turn, n + 1) ==
      (if turn.steps[n].CallModel? && !(UsageAfter(turn, n) != [] && turn.steps[n].refused)
       then UsageAfter(turn, n) + [turn.steps[n].reply.usage] else UsageAfter(turn, n))
  {
    RunOneMoreStep(turn, n);
    UsageOfStep(turn.config, Run(turn.config, turn.messages, turn.steps[..n]).value, turn.steps[n]);
  }

  lemma RunOneMoreStep(turn: SubjectTurn, n: nat)
    requires n < |turn.steps| && Legal(turn.config, turn.messages, turn.steps)
    ensures var before := Run(turn.config, turn.messages, turn.steps[..n]);
      && before.Some? && Enabled(before.value, turn.steps[n])
      && Run(turn.config, turn.messages, turn.steps[..n + 1]) == Some(Apply(turn.config, before.value, turn.steps[n]))
  {
    PrefixIsLegal(turn, n + 1);
    assert turn.steps[..n + 1][..n] == turn.steps[..n];
  }

  lemma UsageOfStep(c: Config, s: State, step: Step)
    requires Enabled(s, step) && (step.CallModel? ==> step.reply.Replies?)
    ensures Apply(c, s, step).usage ==
      if step.CallModel? && !(s.usage != [] && step.refused) then s.usage + [step.reply.usage] else s.usage
  {
  }

  lemma {:induction false} UsageIsReported(
    calendar: Calendar, caps: BudgetCaps, price: Option<Price>, records: seq<UsageRecord>, turn: SubjectTurn, n: nat)
    requires Gated(calendar, caps, price, records, turn) && n <= |turn.steps|
    ensures AllReported(UsageAfter(turn, n))
  {
    if n > 0 {
      UsageIsReported(calendar, caps, price, records, turn, n - 1);
      assert StepIsGated(calendar, caps, price, records, turn, n - 1);
      NextUsage(turn, n - 1);
    }
  }

  /** What counts against a cap when a call of the turn starts: the window's records and the turn's own calls. */
  function UsedAt(
    calendar: Calendar, price: Option<Price>, records: seq<UsageRecord>, cap: Cap, t: int, entries: seq<Option<CallUsage>>)
    : real
  {
    Spent(cap.kind, records, StartOf(calendar, cap.window, t)) + SumAmount(cap.kind, price, entries)
  }

  lemma GatePassed(
    calendar: Calendar, caps: BudgetCaps, price: Option<Price>, records: seq<UsageRecord>, cap: Cap, t: int,
    entries: seq<Option<CallUsage>>)
    requires LimitOf(caps, cap).Some? && AllReported(entries) && (cap.kind.Usd? ==> InRange(entries))
    requires !Refuses(calendar, caps, records, t, Pending(entries, price))
    ensures UsedAt(calendar, price, records, cap, t, entries) < LimitOf(caps, cap).value
  {
    PendingIsExact(cap.kind, price, entries);
    assert !ReachedAt(records, caps, cap, calendar.day(t), calendar.month(t), Pending(entries, price));
  }

  /**
   No model call starts once the ledger's total and the turn's own calls have
   reached a cap; for dollars, as long as the turn's sums are in range.
   */
  lemma NoCallStartsAtCap(
    calendar: Calendar, caps: BudgetCaps, price: Option<Price>, records: seq<UsageRecord>, turn: SubjectTurn, k: nat, cap: Cap)
    returns (t: int)
    requires Gated(calendar, caps, price, records, turn) && k < |turn.steps|
    requires |UsageAfter(turn, k + 1)| > |UsageAfter(turn, k)|
    requires LimitOf(caps, cap).Some? && (cap.kind.Usd? ==> InRange(UsageAfter(turn, k)))
    ensures turn.began <= t <= turn.times[k]
    ensures UsedAt(calendar, price, records, cap, t, UsageAfter(turn, k)) < LimitOf(caps, cap).value
    ensures UsageAfter(turn, k) != [] ==> t == turn.times[k]
  {
    assert StepIsGated(calendar, caps, price, records, turn, k);
    UsageIsReported(calendar, caps, price, records, turn, k);
    NextUsage(turn, k);
    if UsageAfter(turn, k) == [] {
      t := turn.began;
      assert Pending([], price) == UsageTotals(0, 0.0, 0, 0);
    } else {
      t := turn.times[k];
    }
    GatePassed(calendar, caps, price, records, cap, t, UsageAfter(turn, k));
  }

  // What is recorded

  function RecordOf(turn: SubjectTurn, price: Option<Price>): UsageRecord {
    var usage := AggregateTurnUsage(UsageAfter(turn, |turn.steps|));
    UsageRecord(turn.id, turn.recorded, usage.total, ComputeTurnCost(usage, price))
  }

  predicate GrowsByOne(before: seq<Option<CallUsage>>, after: seq<Option<CallUsage>>) {
    after == before || (after != [] && after[..|after| - 1] == before)
  }

  lemma {:induction false} LastGrowth(lists: seq<seq<Option<CallUsage>>>) returns (k: nat)
    requires lists != [] && lists[0] == [] && lists[|lists| - 1] != []
    requires forall j :: 0 <= j < |lists| - 1 ==> GrowsByOne(lists[j], lists[j + 1])
    ensures k < |lists| - 1 && lists[k + 1] == lists[|lists| - 1]
    ensures lists[k] == lists[|lists| - 1][..|lists[|lists| - 1]| - 1]
  {
    var n := |lists| - 1;
    assert GrowsByOne(lists[n - 1], lists[n - 1 + 1]);
    if lists[n] == lists[n - 1] {
      k := LastGrowth(lists[..n]);
    } else {
      k := n - 1;
    }
  }

  lemma UsageGrows(
    calendar: Calendar, caps: BudgetCaps, price: Option<Price>, records: seq<UsageRecord>, turn: SubjectTurn, k: nat)
    requires Gated(calendar, caps, price, records, turn) && k < |turn.steps|
    ensures GrowsByOne(UsageAfter(turn, k), UsageAfter(turn, k + 1))
  {
    assert StepIsGated(calendar, caps, price, records, turn, k);
    NextUsage(turn, k);
  }

  function UsageLists(turn: SubjectTurn, n: nat): (lists: seq<seq<Option<CallUsage>>>)
    requires n <= |turn.steps|
    ensures |lists| == n + 1 && lists[0] == UsageAfter(turn, 0) == []
    ensures forall j :: 0 <= j <= n ==> lists[j] == UsageAfter(turn, j)
  {
    seq(n + 1, j requires 0 <= j <= n => UsageAfter(turn, j))
  }

  /** The step that made the last call of the turn. */
  lemma LastCall(
    calendar: Calendar, caps: BudgetCaps, price: Option<Price>, records: seq<UsageRecord>, turn: SubjectTurn)
    returns (k: nat)
    requires Gated(calendar, caps, price, records, turn) && UsageAfter(turn, |turn.steps|) != []
    ensures k < |turn.steps| && UsageAfter(turn, k + 1) == UsageAfter(turn, |turn.steps|)
    ensures UsageAfter(turn, k) == UsageAfter(turn, k + 1)[..|UsageAfter(turn, k + 1)| - 1]
  {
    var n := |turn.steps|;
    var lists := UsageLists(turn, n);
    forall j | 0 <= j < n
      ensures GrowsByOne(lists[j], lists[j + 1])
    {
      UsageGrows(calendar, caps, price, records, turn, j);
    }
    k := LastGrowth(lists);
    assert lists[k] == UsageAfter(turn, k) && lists[k + 1] == UsageAfter(turn, k + 1) && lists[n] == UsageAfter(turn, n);
  }

  /** A turn whose sums are out of range is recorded without a cost; any other with what it amounts to. */
  lemma RecordIsExact(kind: Kind, price: Option<Price>, turn: SubjectTurn)
    requires AllReported(UsageAfter(turn, |turn.steps|)) && RecordAmount(kind, RecordOf(turn, price)) != 0.0
    ensures UsageAfter(turn, |turn.steps|) != [] && (kind.Usd? ==> InRange(UsageAfter(turn, |turn.steps|)))
    ensures RecordAmount(kind, RecordOf(turn, price)) == SumAmount(kind, price, UsageAfter(turn, |turn.steps|))
  {
    var entries := UsageAfter(turn, |turn.steps|);
    AmountOfSums(kind, price, entries);
    SumsNonNegative(entries);
  }

  lemma RecordNonNegative(kind: Kind, price: Option<Price>, turn: SubjectTurn)
    requires ValidPrice(price) && AllReported(UsageAfter(turn, |turn.steps|))
    ensures RecordAmount(kind, RecordOf(turn, price)) >= 0.0
  {
    var entries := UsageAfter(turn, |turn.steps|);
    SumsNonNegative(entries);
    if price.Some? {
      PricedNonNegative(price.value, Sum(Input, entries), Sum(Output, entries));
    }
  }

  /** What a turn records overshoots a cap by less than its last call, measured from some instant of the turn. */
  lemma TurnOvershoot(
    calendar: Calendar, caps: BudgetCaps, price: Option<Price>, records: seq<UsageRecord>, turn: SubjectTurn, cap: Cap)
    returns (t: int)
    requires Gated(calendar, caps, price, records, turn) && LimitOf(caps, cap).Some?
    requires RecordAmount(cap.kind, RecordOf(turn, price)) != 0.0
    ensures var entries := UsageAfter(turn, |turn.steps|);
      && turn.began <= t <= turn.recorded && entries != []
      && Spent(cap.kind, records, StartOf(calendar, cap.window, t)) + RecordAmount(cap.kind, RecordOf(turn, price))
         < LimitOf(caps, cap).value + CallAmount(cap.kind, price, entries[|entries| - 1])
  {
    var entries := UsageAfter(turn, |turn.steps|);
    UsageIsReported(calendar, caps, price, records, turn, |turn.steps|);
    RecordIsExact(cap.kind, price, turn);
    var k := LastCall(calendar, caps, price, records, turn);
    FrontInRange(entries);
    t := NoCallStartsAtCap(calendar, caps, price, records, turn, k, cap);
  }

  lemma FrontInRange(entries: seq<Option<CallUsage>>)
    requires entries != [] && AllReported(entries)
    ensures InRange(entries) ==> InRange(entries[..|entries| - 1])
  {
    assert Reported(entries[|entries| - 1]);
  }

  // Turns one after the other

  predicate AllBy(records: seq<UsageRecord>, t: int) {
    forall k :: 0 <= k < |records| ==> records[k].at <= t
  }

  /** Each turn begins after the one before it was recorded. */
  ghost predicate Sequential(
    calendar: Calendar, caps: BudgetCaps, price: Option<Price>, records: seq<UsageRecord>, turns: seq<SubjectTurn>)
    decreases turns
  {
    turns == [] ||
    (AllBy(records, turns[0].began) && Gated(calendar, caps, price, records, turns[0])
     && Sequential(calendar, caps, price, records + [RecordOf(turns[0], price)], turns[1..]))
  }

  function Ledger(price: Option<Price>, records: seq<UsageRecord>, turns: seq<SubjectTurn>): seq<UsageRecord>
    decreases turns
  {
    if turns == [] then records else Ledger(price, records + [RecordOf(turns[0], price)], turns[1..])
  }

  predicate CallsAtMost(kind: Kind, price: Option<Price>, turn: SubjectTurn, most: real) {
    var entries := UsageAfter(turn, |turn.steps|);
    forall k :: 0 <= k < |entries| ==> CallAmount(kind, price, entries[k]) <= most
  }

  predicate NonNegative(kind: Kind, records: seq<UsageRecord>) {
    forall k :: 0 <= k < |records| ==> RecordAmount(kind, records[k]) >= 0.0
  }

  /** Whenever one looks, the total of the current window is less than this. */
  ghost predicate Below(calendar: Calendar, cap: Cap, records: seq<UsageRecord>, bound: real) {
    forall t :: AllBy(records, t) ==> Spent(cap.kind, records, StartOf(calendar, cap.window, t)) < bound
  }

  lemma {:induction false} SpentNonNegative(kind: Kind, records: seq<UsageRecord>, since: int)
    requires NonNegative(kind, records)
    ensures Spent(kind, records, since) >= 0.0
  {
    if records != [] {
      SpentNonNegative(kind, records[..|records| - 1], since);
    }
  }

  lemma {:induction false} NothingSince(kind: Kind, records: seq<UsageRecord>, t: int, since: int)
    requires AllBy(records, t) && t < since
    ensures Spent(kind, records, since) == 0.0
  {
    if records != [] {
      NothingSince(kind, records[..|records| - 1], t, since);
    }
  }

  lemma BelowAt(
    calendar: Calendar, caps: BudgetCaps, price: Option<Price>, records: seq<UsageRecord>, turn: SubjectTurn, cap: Cap,
    most: real, t: int)
    requires ValidCalendar(calendar) && Gated(calendar, caps, price, records, turn) && AllBy(records, turn.began)
    requires LimitOf(caps, cap).Some? && LimitOf(caps, cap).value > 0.0 && most >= 0.0
    requires CallsAtMost(cap.kind, price, turn, most) && NonNegative(cap.kind, records)
    requires Below(calendar, cap, records, LimitOf(caps, cap).value + most)
    requires turn.recorded <= t
    ensures Spent(cap.kind, records + [RecordOf(turn, price)], StartOf(calendar, cap.window, t))
      < LimitOf(caps, cap).value + most
  {
    var record, start := RecordOf(turn, price), StartOf(calendar, cap.window, t);
    SpentGrows(cap.kind, records, record, start);
    assert AllBy(records, t);
    if start <= record.at && RecordAmount(cap.kind, record) != 0.0 {
      var g := TurnOvershoot(calendar, caps, price, records, turn, cap);
      var since := StartOf(calendar, cap.window, g);
      SpentNonNegative(cap.kind, records, since);
      if start <= g {
        assert since == start;
      } else {
        NothingSince(cap.kind, records, turn.began, start);
      }
    }
  }

  lemma TurnKeepsBelow(
    calendar: Calendar, caps: BudgetCaps, price: Option<Price>, records: seq<UsageRecord>, turn: SubjectTurn, cap: Cap,
    most: real)
    requires ValidCalendar(calendar) && ValidPrice(price)
    requires Gated(calendar, caps, price, records, turn) && AllBy(records, turn.began)
    requires LimitOf(caps, cap).Some? && LimitOf(caps, cap).value > 0.0 && most >= 0.0
    requires CallsAtMost(cap.kind, price, turn, most) && NonNegative(cap.kind, records)
    requires Below(calendar, cap, records, LimitOf(caps, cap).value + most)
    ensures NonNegative(cap.kind, records + [RecordOf(turn, price)])
    ensures Below(calendar, cap, records + [RecordOf(turn, price)], LimitOf(caps, cap).value + most)
  {
    var after := records + [RecordOf(turn, price)];
    UsageIsReported(calendar, caps, price, records, turn, |turn.steps|);
    RecordNonNegative(cap.kind, price, turn);
    forall t | AllBy(after, t)
      ensures Spent(cap.kind, after, StartOf(calendar, cap.window, t)) < LimitOf(caps, cap).value + most
    {
      assert after[|records|].at <= t;
      BelowAt(calendar, caps, price, records, turn, cap, most, t);
    }
  }

  lemma {:induction false} TurnsKeepBelow(
    calendar: Calendar, caps: BudgetCaps, price: Option<Price>, records: seq<UsageRecord>, turns: seq<SubjectTurn>,
    cap: Cap, most: real)
    requires ValidCalendar(calendar) && ValidPrice(price)
    requires Sequential(calendar, caps, price, records, turns)
    requires LimitOf(caps, cap).Some? && LimitOf(caps, cap).value > 0.0 && most >= 0.0
    requires forall k :: 0 <= k < |turns| ==> CallsAtMost(cap.kind, price, turns[k], most)
    requires NonNegative(cap.kind, records) && Below(calendar, cap, records, LimitOf(caps, cap).value + most)
    ensures Below(calendar, cap, Ledger(price, records, turns), LimitOf(caps, cap).value + most)
    decreases turns
  {
    if turns != [] {
      TurnKeepsBelow(calendar, caps, price, records, turns[0], cap, most);
      TurnsKeepBelow(calendar, caps, price, records + [RecordOf(turns[0], price)], turns[1..], cap, most);
    }
  }

  /**
   However many turns a subject makes one after the other, across days and
   months: whenever one looks, what the ledger holds for the current day or
   month exceeds a cap by less than one call's usage.
   */
  lemma RecordedTotalIsBounded(
    calendar: Calendar, caps: BudgetCaps, price: Option<Price>, turns: seq<SubjectTurn>, cap: Cap, most: real, t: int)
    requires ValidCalendar(calendar) && ValidPrice(price) && Sequential(calendar, caps, price, [], turns)
    requires LimitOf(caps, cap).Some? && LimitOf(caps, cap).value > 0.0 && most >= 0.0
    requires forall k :: 0 <= k < |turns| ==> CallsAtMost(cap.kind, price, turns[k], most)
    requires AllBy(Ledger(price, [], turns), t)
    ensures Spent(cap.kind, Ledger(price, [], turns), StartOf(calendar, cap.window, t)) < LimitOf(caps, cap).value + most
  {
    TurnsKeepBelow(calendar, caps, price, [], turns, cap, most);
  }
}
