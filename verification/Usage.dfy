/** The usage ledger of one deployment and the caps it is checked against. Times are integers. */
module Usage {
  import opened Common
  import opened Scope

  const USAGE_TABLE := "subject_usage"

  /** One turn's usage. Tokens or a cost that nobody reported are None. */
  datatype UsageRecord = UsageRecord(id: string, at: int, tokens: Option<int>, cost: Option<real>)

  datatype UsageTotals = UsageTotals(tokens: int, cost: real, turns: nat, unpriced: nat)

  datatype Kind = Usd | Tokens

  datatype Window = Daily | Monthly

  datatype Cap = Cap(kind: Kind, window: Window)

  datatype BudgetCaps = BudgetCaps(
    dailyUsd: Option<real>, monthlyUsd: Option<real>, dailyTokens: Option<int>, monthlyTokens: Option<int>)

  /** The order in which the caps are checked. */
  const CAPS := [Cap(Usd, Daily), Cap(Usd, Monthly), Cap(Tokens, Daily), Cap(Tokens, Monthly)]

  function LimitOf(caps: BudgetCaps, cap: Cap): Option<real> {
    match cap
    case Cap(Usd, Daily) => caps.dailyUsd
    case Cap(Usd, Monthly) => caps.monthlyUsd
    case Cap(Tokens, Daily) => AsReal(caps.dailyTokens)
    case Cap(Tokens, Monthly) => AsReal(caps.monthlyTokens)
  }

  function AsReal(limit: Option<int>): Option<real> {
    if limit.Some? then Some(limit.value as real) else None
  }

  function Amount(kind: Kind, totals: UsageTotals): real {
    if kind.Usd? then totals.cost else totals.tokens as real
  }

  /** What a record counts for: nothing where nothing was reported. */
  function RecordAmount(kind: Kind, record: UsageRecord): real {
    match kind
    case Usd => if record.cost.Some? then record.cost.value else 0.0
    case Tokens => if record.tokens.Some? then record.tokens.value as real else 0.0
  }

  /** The sum over the records of a window. */
  function Spent(kind: Kind, records: seq<UsageRecord>, since: int): real {
    if records == [] then 0.0
    else
      var last := records[|records| - 1];
      Spent(kind, records[..|records| - 1], since) + if last.at >= since then RecordAmount(kind, last) else 0.0
  }

  /** How many records of the window there are; of those without a price where unpriced is asked for. */
  function CountSince(records: seq<UsageRecord>, since: int, unpriced: bool): nat {
    |set i | 0 <= i < |records| && records[i].at >= since && (unpriced ==> records[i].cost.None?)|
  }

  lemma CountNext(records: seq<UsageRecord>, since: int, unpriced: bool, i: nat)
    requires i < |records|
    ensures CountSince(records[..i + 1], since, unpriced) == CountSince(records[..i], since, unpriced)
      + if records[i].at >= since && (unpriced ==> records[i].cost.None?) then 1 else 0
  {
    var front, longer := records[..i], records[..i + 1];
    var before := set j | 0 <= j < |front| && front[j].at >= since && (unpriced ==> front[j].cost.None?);
    var after := set j | 0 <= j < |longer| && longer[j].at >= since && (unpriced ==> longer[j].cost.None?);
    assert after == if records[i].at >= since && (unpriced ==> records[i].cost.None?) then before + {i} else before;
  }

  function RecordsOf(rows: Rows<UsageRecord>): seq<UsageRecord> {
    seq(|rows|, i requires 0 <= i < |rows| => rows[i].1)
  }

  predicate AtCap(caps: BudgetCaps, cap: Cap, used: real) {
    LimitOf(caps, cap).Some? && used >= LimitOf(caps, cap).value
  }

  /** What counts against a cap: its window's records and what is pending. */
  function Used(records: seq<UsageRecord>, cap: Cap, day: int, month: int, pending: UsageTotals): real {
    Spent(cap.kind, records, if cap.window.Daily? then day else month) + Amount(cap.kind, pending)
  }

  predicate ReachedAt(records: seq<UsageRecord>, caps: BudgetCaps, cap: Cap, day: int, month: int, pending: UsageTotals) {
    AtCap(caps, cap, Used(records, cap, day, month, pending))
  }

  ghost predicate Reached(records: seq<UsageRecord>, caps: BudgetCaps, day: int, month: int, pending: UsageTotals) {
    exists cap :: ReachedAt(records, caps, cap, day, month, pending)
  }

  lemma PlaceOf(cap: Cap) returns (k: nat)
    ensures k < |CAPS| && CAPS[k] == cap
  {
    k := match cap
      case Cap(Usd, Daily) => 0
      case Cap(Usd, Monthly) => 1
      case Cap(Tokens, Daily) => 2
      case Cap(Tokens, Monthly) => 3;
  }

  /** The k-th cap is reached, and none before it is. */
  predicate FirstReached(records: seq<UsageRecord>, caps: BudgetCaps, day: int, month: int, pending: UsageTotals, k: nat)
    requires k < |CAPS|
  {
    && ReachedAt(records, caps, CAPS[k], day, month, pending)
    && forall j :: 0 <= j < k ==> !ReachedAt(records, caps, CAPS[j], day, month, pending)
  }

  /** A cap is reached when some limit is met by what its window and the pending usage come to. */
  lemma ReachedExact(records: seq<UsageRecord>, caps: BudgetCaps, day: int, month: int, pending: UsageTotals)
    ensures Reached(records, caps, day, month, pending) <==>
      || (caps.dailyUsd.Some? && Spent(Usd, records, day) + pending.cost >= caps.dailyUsd.value)
      || (caps.monthlyUsd.Some? && Spent(Usd, records, month) + pending.cost >= caps.monthlyUsd.value)
      || (caps.dailyTokens.Some? && Spent(Tokens, records, day) + pending.tokens as real >= caps.dailyTokens.value as real)
      || (caps.monthlyTokens.Some?
          && Spent(Tokens, records, month) + pending.tokens as real >= caps.monthlyTokens.value as real)
  {
    var dailyUsd := ReachedAt(records, caps, Cap(Usd, Daily), day, month, pending);
    var monthlyUsd := ReachedAt(records, caps, Cap(Usd, Monthly), day, month, pending);
    var dailyTokens := ReachedAt(records, caps, Cap(Tokens, Daily), day, month, pending);
    var monthlyTokens := ReachedAt(records, caps, Cap(Tokens, Monthly), day, month, pending);
    assert Reached(records, caps, day, month, pending) <==> dailyUsd || monthlyUsd || dailyTokens || monthlyTokens;
  }

  /** A cap that was reached, its limit and what counts against it. */
  datatype Refusal = Refusal(cap: Cap, limit: real, used: real)

  class InMemoryUsageLedger {
    const provider: InMemoryScopeProvider<UsageRecord>

    constructor (provider: InMemoryScopeProvider<UsageRecord>)
      ensures this.provider == provider
    {
      this.provider := provider;
    }

    method Record(subject: Subject, record: UsageRecord)
      modifies provider
      ensures RowsOf(provider.store, subject, USAGE_TABLE)
        == PutRow(old(RowsOf(provider.store, subject, USAGE_TABLE)), record.id, record)
      ensures OnlyChanges(old(provider.store), provider.store, subject, USAGE_TABLE)
    {
      provider.Put(subject, USAGE_TABLE, record.id, record);
    }

    method Totals(subject: Subject, since: int) returns (totals: UsageTotals)
      ensures var records := RecordsOf(RowsOf(provider.store, subject, USAGE_TABLE));
        && (forall kind :: Amount(kind, totals) == Spent(kind, records, since))
        && totals.turns == CountSince(records, since, false) && totals.unpriced == CountSince(records, since, true)
    {
      var rows := provider.ReadRows(subject, USAGE_TABLE);
      var records := RecordsOf(rows);
      var tokens, cost, turns, unpriced := 0, 0.0, 0, 0;
      for i := 0 to |records|
        invariant tokens as real == Spent(Tokens, records[..i], since)
        invariant cost == Spent(Usd, records[..i], since)
        invariant turns == CountSince(records[..i], since, false) && unpriced == CountSince(records[..i], since, true)
      {
        assert records[..i + 1][..i] == records[..i];
        CountNext(records, since, false, i);
        CountNext(records, since, true, i);
        var r := records[i];
        if r.at >= since {
          tokens := tokens + if r.tokens.Some? then r.tokens.value else 0;
          cost := cost + if r.cost.Some? then r.cost.value else 0.0;
          turns := turns + 1;
          unpriced := unpriced + if r.cost.None? then 1 else 0;
        }
      }
      assert records[..|records|] == records;
      totals := UsageTotals(tokens, cost, turns, unpriced);
    }

    /** The first cap the subject has reached, if any, with its limit and what is used of it. */
    method ReachedCap(subject: Subject, caps: BudgetCaps, day: int, month: int, pending: UsageTotals)
      returns (reached: Option<Refusal>)
      ensures var records := RecordsOf(RowsOf(provider.store, subject, USAGE_TABLE));
        && (reached.Some? <==> Reached(records, caps, day, month, pending))
        && (reached.Some? ==>
              && LimitOf(caps, reached.value.cap) == Some(reached.value.limit)
              && reached.value.used == Used(records, reached.value.cap, day, month, pending)
              && exists k :: 0 <= k < |CAPS| && reached.value.cap == CAPS[k] && FirstReached(records, caps, day, month, pending, k))
      ensures var records := RecordsOf(RowsOf(provider.store, subject, USAGE_TABLE));
        reached.None? <==>
          && (caps.dailyUsd.Some? ==> Spent(Usd, records, day) + pending.cost < caps.dailyUsd.value)
          && (caps.monthlyUsd.Some? ==> Spent(Usd, records, month) + pending.cost < caps.monthlyUsd.value)
          && (caps.dailyTokens.Some? ==>
                Spent(Tokens, records, day) + pending.tokens as real < caps.dailyTokens.value as real)
          && (caps.monthlyTokens.Some? ==>
                Spent(Tokens, records, month) + pending.tokens as real < caps.monthlyTokens.value as real)
    {
      ReachedExact(RecordsOf(RowsOf(provider.store, subject, USAGE_TABLE)), caps, day, month, pending);
      var daily := Totals(subject, day);
      var monthly := Totals(subject, month);
      ghost var records := RecordsOf(RowsOf(provider.store, subject, USAGE_TABLE));
      for k := 0 to |CAPS|
        invariant forall j :: 0 <= j < k ==> !ReachedAt(records, caps, CAPS[j], day, month, pending)
      {
        var cap := CAPS[k];
        var used := Amount(cap.kind, if cap.window.Daily? then daily else monthly) + Amount(cap.kind, pending);
        var limit := LimitOf(caps, cap);
        if limit.Some? && used >= limit.value {
          assert FirstReached(records, caps, day, month, pending, k);
          return Some(Refusal(cap, limit.value, used));
        }
      }
      forall cap
        ensures !ReachedAt(records, caps, cap, day, month, pending)
      {
        var k := PlaceOf(cap);
      }
      reached := None;
    }
  }

  /** An unbroken ledger: a new record is added last, and counts in the windows it falls in. */
  lemma SpentGrows(kind: Kind, records: seq<UsageRecord>, record: UsageRecord, since: int)
    ensures Spent(kind, records + [record], since)
      == Spent(kind, records, since) + if record.at >= since then RecordAmount(kind, record) else 0.0
  {
    assert (records + [record])[..|records|] == records;
  }
}
