/** The cost consumer: usage rows, the running spend of organisation budgets, and the alerts it publishes. */
module BudgetLedger {
  import opened Wrappers
  import CostCalculator
  import opened BudgetChecker

  const SPEND_LIMIT := 1_000_000_000_000  // DECIMAL(12, 8) in units of 1e-8 USD

  datatype Scope = OrgScope | TeamScope | UserScope | OtherScope

  datatype Budget = Budget(org: string, scope: Scope, scopeId: string, limit: real, hard: bool, thresholds: seq<int>,
                           active: bool, monthly: bool)

  datatype UsageEvent = UsageEvent(org: string, team: string, user: string, provider: string, model: string,
                                   input: int, output: int, cacheHit: bool, isBatch: bool)

  /** A usage_events row, with the month in which it was processed and whether its spend update went through. */
  datatype UsageRow = UsageRow(org: string, units: int, month: string, spendUpdated: bool)

  /** spend maps a budget and a month to units of 1e-8 USD. */
  datatype Tables = Tables(budgets: map<string, Budget>, spend: Spend, usage: seq<UsageRow>)

  /**
   What the database answers while one event is processed, and the current month: order is how the query
   sorts the budgets, unreadable are those whose row cannot be scanned.
   */
  datatype Outside = Outside(month: string, insertOk: bool, updateOk: bool, queryOk: bool,
                             order: seq<string>, unreadable: set<string>)

  function Units(ev: UsageEvent): int {
    CostCalculator.Bill(ev.provider, ev.model, ev.input, ev.output, ev.cacheHit, ev.isBatch)
  }

  /** What an event is billed. The ledger is the same for any pricing; the handler's is Units. */
  type Price = UsageEvent -> int

  type Spend = map<(string, string), int>

  function SpendIn(spend: Spend, id: string, month: string): int {
    if (id, month) in spend then spend[(id, month)] else 0
  }

  function SpendOf(t: Tables, id: string, month: string): int {
    SpendIn(t.spend, id, month)
  }

  /** The budgets the upsert touches. */
  function Charged(budgets: map<string, Budget>, org: string): set<string> {
    set id | id in budgets && budgets[id].org == org && budgets[id].scope.OrgScope? && budgets[id].active
  }

  /** The statement is atomic: it fails if any of the sums leaves its column. */
  predicate Fits(charged: set<string>, spend: Spend, units: int, month: string) {
    forall id :: id in charged ==> -SPEND_LIMIT < SpendIn(spend, id, month) + units < SPEND_LIMIT
  }

  function Upserted(charged: set<string>, spend: Spend, units: int, month: string): Spend {
    spend + map id | id in charged :: (id, month) := SpendIn(spend, id, month) + units
  }

  /** Does the spend update of the event go through? */
  predicate Updates(t: Tables, org: string, units: int, o: Outside) {
    o.updateOk && Fits(Charged(t.budgets, org), t.spend, units, o.month)
  }

  function Recorded(t: Tables, org: string, units: int, o: Outside): Tables {
    if !o.insertOk then t
    else
      var updated := Updates(t, org, units, o);
      Tables(t.budgets, if updated then Upserted(Charged(t.budgets, org), t.spend, units, o.month) else t.spend,
             t.usage + [UsageRow(org, units, o.month, updated)])
  }

  function Processed(price: Price, t: Tables, ev: UsageEvent, o: Outside): Tables {
    Recorded(t, ev.org, price(ev), o)
  }

  // ----- The rows Check reads

  predicate Applies(b: Budget, ev: UsageEvent) {
    && b.org == ev.org && b.active && b.monthly
    && (b.scope.OrgScope? || (b.scope.TeamScope? && ev.team != "" && b.scopeId == ev.team)
        || (b.scope.UserScope? && ev.user != "" && b.scopeId == ev.user))
  }

  function Usd(units: int): real {
    units as real / 100_000_000.0
  }

  function RowOf(t: Tables, id: string, month: string): BudgetRow
    requires id in t.budgets
  {
    var b := t.budgets[id];
    BudgetRow(id, if b.scope.OrgScope? then "org" else if b.scope.TeamScope? then "team" else "user",
              b.scopeId, b.limit, b.hard, b.thresholds, Usd(SpendOf(t, id, month)))
  }

  function RowFor(t: Tables, id: string, o: Outside): Option<BudgetRow>
    requires id in t.budgets
  {
    if id in o.unreadable then None else Some(RowOf(t, id, o.month))
  }

  /** The rows of the query: the applicable budgets in the given order. */
  function Queried(t: Tables, order: seq<string>, ev: UsageEvent, o: Outside): seq<Option<BudgetRow>> {
    if order == [] then []
    else
      var rest, last := Queried(t, order[..|order| - 1], ev, o), order[|order| - 1];
      if last in t.budgets && Applies(t.budgets[last], ev) then rest + [RowFor(t, last, o)] else rest
  }

  /** The order lists every budget, and none twice. */
  ghost predicate Lists(order: seq<string>, budgets: map<string, Budget>) {
    (forall id :: id in budgets ==> id in order) && (forall i, j :: 0 <= i < j < |order| ==> order[i] != order[j])
  }

  /** The alerts that one event leads to, on the tables it leaves. */
  function AlertsOf(t: Tables, ev: UsageEvent, units: int, o: Outside): seq<(UsageEvent, BudgetStatus)> {
    if o.insertOk && o.queryOk then AlertsFor(ev, Exceeded(Queried(t, o.order, ev, o), Usd(units))) else []
  }

  class CostHandler {
    const price: Price
    var tables: Tables
    var alerts: seq<(UsageEvent, BudgetStatus)>

    ghost function Seen(): Done
      reads this
    {
      Done(tables, alerts)
    }

    constructor (budgets: map<string, Budget>)
      ensures tables == Tables(budgets, map[], []) && alerts == []
      ensures forall ev: UsageEvent :: price(ev) == Units(ev)
    {
      price := Units;
      tables := Tables(budgets, map[], []);
      alerts := [];
    }

    method Process(ev: UsageEvent, o: Outside)
      requires Lists(o.order, tables.budgets)
      modifies this
      ensures tables == Processed(price, old(tables), ev, o)
      ensures alerts == old(alerts) + AlertsOf(tables, ev, price(ev), o)
    {
      Charge(ev, price(ev), o);
    }

    /** Insert the usage row, add to the spend of the budgets, check them. */
    method Charge(ev: UsageEvent, units: int, o: Outside)
      requires Lists(o.order, tables.budgets)
      modifies this
      ensures tables == Recorded(old(tables), ev.org, units, o)
      ensures alerts == old(alerts) + AlertsOf(tables, ev, units, o)
    {
      Record(ev.org, units, o);
      if !o.insertOk {
        return;
      }
      var _, exceeded := Check(Queried(tables, o.order, ev, o), o.queryOk, Usd(units));
      if o.queryOk {
        PublishAlerts(ev, exceeded);
      }
    }

    method Record(org: string, units: int, o: Outside)
      modifies this`tables
      ensures tables == Recorded(old(tables), org, units, o)
    {
      if !o.insertOk {
        return;
      }
      var charged := Charged(tables.budgets, org);
      var updated := o.updateOk && Fits(charged, tables.spend, units, o.month);
      tables := tables.(usage := tables.usage + [UsageRow(org, units, o.month, updated)]);
      if updated {
        tables := tables.(spend := Upserted(charged, tables.spend, units, o.month));
      }
    }

    method PublishAlerts(ev: UsageEvent, exceeded: seq<BudgetStatus>)
      modifies this`alerts
      ensures alerts == old(alerts) + AlertsFor(ev, exceeded)
    {
      var i := 0;
      while i < |exceeded|
        invariant 0 <= i <= |exceeded|
        invariant alerts == old(alerts) + AlertsFor(ev, exceeded[..i])
      {
        alerts := alerts + [(ev, exceeded[i])];
        assert exceeded[..i + 1][..i] == exceeded[..i];
        i := i + 1;
      }
      assert exceeded[..i] == exceeded;
    }

    method HandleMessage(d: Delivery)
      requires Lists(d.o.order, tables.budgets)
      modifies this
      ensures Seen() == Handled(price, old(Seen()), d)
      ensures tables.budgets == old(tables.budgets)
    {
      if d.msg.Some? {
        Process(d.msg.value, d.o);
      }
    }

    /** A message that is not a usage event is skipped; every message is marked. */
    method ConsumeClaim(ds: seq<Delivery>) returns (marked: nat)
      requires forall i :: 0 <= i < |ds| ==> Lists(ds[i].o.order, tables.budgets)
      modifies this
      ensures Seen() == HandledAll(price, old(Seen()), ds) && marked == |ds|
    {
      marked := 0;
      while marked < |ds|
        invariant 0 <= marked <= |ds|
        invariant Seen() == HandledAll(price, old(Seen()), ds[..marked])
        invariant tables.budgets == old(tables.budgets)
      {
        HandledStep(price, old(Seen()), ds, marked);
        HandleMessage(ds[marked]);
        marked := marked + 1;
      }
      assert ds[..marked] == ds;
    }
  }

  function AlertsFor(ev: UsageEvent, exceeded: seq<BudgetStatus>): seq<(UsageEvent, BudgetStatus)> {
    if exceeded == [] then [] else AlertsFor(ev, exceeded[..|exceeded| - 1]) + [(ev, exceeded[|exceeded| - 1])]
  }

  /** What a handler has done. */
  datatype Done = Done(tables: Tables, alerts: seq<(UsageEvent, BudgetStatus)>)

  /** A message, undecodable or an event, and what the database answers while it is handled. */
  datatype Delivery = Delivery(msg: Option<UsageEvent>, o: Outside)

  function Handled(price: Price, s: Done, d: Delivery): Done {
    if d.msg.None? then s
    else
      var t := Processed(price, s.tables, d.msg.value, d.o);
      Done(t, s.alerts + AlertsOf(t, d.msg.value, price(d.msg.value), d.o))
  }

  function HandledAll(price: Price, s: Done, ds: seq<Delivery>): Done {
    if ds == [] then s else Handled(price, HandledAll(price, s, ds[..|ds| - 1]), ds[|ds| - 1])
  }

  lemma HandledStep(price: Price, s: Done, ds: seq<Delivery>, n: nat)
    requires n < |ds|
    ensures HandledAll(price, s, ds[..n + 1]) == Handled(price, HandledAll(price, s, ds[..n]), ds[n])
  {
    assert ds[..n + 1][..n] == ds[..n];
  }

  // ----- Which budgets are alerted on

  function AlertCount(alerts: seq<(UsageEvent, BudgetStatus)>, id: string): nat {
    if alerts == [] then 0
    else AlertCount(alerts[..|alerts| - 1], id) + if alerts[|alerts| - 1].1.id == id then 1 else 0
  }

  function StatusCount(statuses: seq<BudgetStatus>, id: string): nat {
    if statuses == [] then 0
    else StatusCount(statuses[..|statuses| - 1], id) + if statuses[|statuses| - 1].id == id then 1 else 0
  }

  lemma {:induction false} AlertsForCount(ev: UsageEvent, statuses: seq<BudgetStatus>, id: string)
    ensures AlertCount(AlertsFor(ev, statuses), id) == StatusCount(statuses, id)
    decreases |statuses|
  {
    if statuses != [] {
      var n := |statuses| - 1;
      AlertsForCount(ev, statuses[..n], id);
      assert AlertsFor(ev, statuses)[..|AlertsFor(ev, statuses[..n])|] == AlertsFor(ev, statuses[..n]);
    }
  }

  lemma ExceededStep(rows: seq<Option<BudgetRow>>, row: Option<BudgetRow>, cost: real, id: string)
    ensures StatusCount(Exceeded(rows + [row], cost), id) ==
            StatusCount(Exceeded(rows, cost), id) +
            if row.Some? && row.value.id == id && Alerting(row.value, cost) then 1 else 0
  {
    assert (rows + [row])[..|rows|] == rows;
    var before, after := Exceeded(rows, cost), Exceeded(rows + [row], cost);
    if row.Some? && Alerting(row.value, cost) {
      assert after[..|before|] == before;
    } else {
      assert after == before;
    }
  }

  /** Is this budget to be alerted on: does it apply, can its row be read, and is one of its thresholds reached? */
  predicate Due(t: Tables, id: string, ev: UsageEvent, cost: real, o: Outside) {
    && id in t.budgets && Applies(t.budgets[id], ev) && id !in o.unreadable
    && Alerting(RowOf(t, id, o.month), cost)
  }

  /** The spend in units reaches this percentage of the limit in USD. */
  predicate Meets(limit: real, units: int, threshold: int) {
    100.0 * units as real >= threshold as real * limit * 100_000_000.0
  }

  lemma AtLeastIffMeets(limit: real, spent: int, units: int, threshold: int)
    requires limit > 0.0
    ensures AtLeast(UtilizationOf(Usd(spent) + Usd(units), limit), threshold) <==>
            Meets(limit, spent + units, threshold)
  {
    var usd := Usd(spent) + Usd(units);
    assert usd * 100_000_000.0 == (spent + units) as real;
    PercentAtLeast(usd, limit, threshold as real);
    Scaled(100.0 * usd, threshold as real * limit);
  }

  lemma Scaled(a: real, b: real)
    ensures a >= b <==> a * 100_000_000.0 >= b * 100_000_000.0
  {
  }

  lemma AlertingIff(r: BudgetRow, cost: real, total: int)
    requires forall k :: 0 <= k < |r.thresholds| ==>
               (AtLeast(UtilizationOf(r.spent + cost, r.limit), r.thresholds[k]) <==>
                Meets(r.limit, total, r.thresholds[k]))
    ensures Alerting(r, cost) <==> exists k :: 0 <= k < |r.thresholds| && Meets(r.limit, total, r.thresholds[k])
  {
    if Alerting(r, cost) {
      var t :| t in r.thresholds && AtLeast(UtilizationOf(r.spent + cost, r.limit), t);
      var k :| 0 <= k < |r.thresholds| && r.thresholds[k] == t;
      assert Meets(r.limit, total, r.thresholds[k]);
    }
    if k :| 0 <= k < |r.thresholds| && Meets(r.limit, total, r.thresholds[k]) {
      assert r.thresholds[k] in r.thresholds;
    }
  }

  /**
   Written out: an active monthly budget of the organisation, its team's or user's own if it is not the
   organisation's, whose stored spend with the event added reaches one of its thresholds.
   */
  lemma DueIff(t: Tables, id: string, ev: UsageEvent, units: int, o: Outside)
    requires id in t.budgets && t.budgets[id].limit > 0.0
    ensures
      var b := t.budgets[id];
      Due(t, id, ev, Usd(units), o) <==>
        && b.org == ev.org && b.active && b.monthly && id !in o.unreadable
        && (match b.scope
            case OrgScope => true
            case TeamScope => ev.team != "" && ev.team == b.scopeId
            case UserScope => ev.user != "" && ev.user == b.scopeId
            case OtherScope => false)
        && exists k :: 0 <= k < |b.thresholds| && Meets(b.limit, SpendOf(t, id, o.month) + units, b.thresholds[k])
  {
    var b, spent := t.budgets[id], SpendOf(t, id, o.month);
    forall k | 0 <= k < |b.thresholds|
      ensures AtLeast(UtilizationOf(Usd(spent) + Usd(units), b.limit), b.thresholds[k]) <==>
              Meets(b.limit, spent + units, b.thresholds[k])
    {
      AtLeastIffMeets(b.limit, spent, units, b.thresholds[k]);
    }
    AlertingIff(RowOf(t, id, o.month), Usd(units), spent + units);
  }

  lemma {:induction false} QueriedCount(t: Tables, order: seq<string>, ev: UsageEvent, cost: real,
                                        o: Outside, id: string)
    requires forall i, j :: 0 <= i < j < |order| ==> order[i] != order[j]
    ensures StatusCount(Exceeded(Queried(t, order, ev, o), cost), id) ==
            if id in order && Due(t, id, ev, cost, o) then 1 else 0
    decreases |order|
  {
    if order != [] {
      var n := |order| - 1;
      QueriedCount(t, order[..n], ev, cost, o, id);
      assert order == order[..n] + [order[n]];
      if order[n] in t.budgets {
        ExceededStep(Queried(t, order[..n], ev, o), RowFor(t, order[n], o), cost, id);
      }
    }
  }

  /** Each budget gets exactly one alert for an event if it is due after it, and none otherwise. */
  lemma AlertedOnceIffDue(t: Tables, ev: UsageEvent, units: int, o: Outside, id: string)
    requires o.insertOk && o.queryOk && Lists(o.order, t.budgets)
    ensures AlertCount(AlertsOf(t, ev, units, o), id) == if Due(t, id, ev, Usd(units), o) then 1 else 0
  {
    QueriedCount(t, o.order, ev, Usd(units), o, id);
    AlertsForCount(ev, Exceeded(Queried(t, o.order, ev, o), Usd(units)), id);
  }

  /** If no row can be scanned, nothing is ever alerted on, whatever was spent. */
  lemma UnreadableIsSilent(t: Tables, ev: UsageEvent, units: int, o: Outside)
    requires t.budgets.Keys <= o.unreadable
    ensures AlertsOf(t, ev, units, o) == []
  {
    NoneExceeded(t, o.order, ev, Usd(units), o);
  }

  lemma {:induction false} NoneExceeded(t: Tables, order: seq<string>, ev: UsageEvent, cost: real, o: Outside)
    requires t.budgets.Keys <= o.unreadable
    ensures Exceeded(Queried(t, order, ev, o), cost) == []
    decreases |order|
  {
    if order != [] {
      var n := |order| - 1;
      NoneExceeded(t, order[..n], ev, cost, o);
      var rows := Queried(t, order[..n], ev, o);
      assert (rows + [None])[..|rows|] == rows;
    }
  }

  // ----- Runs: events processed and other budgets administered, in any order

  datatype Step = Event(ev: UsageEvent, o: Outside) | SetBudget(id: string, budget: Budget) | DropBudget(id: string)

  function Apply(price: Price, t: Tables, step: Step): Tables {
    match step
    case Event(ev, o) => Processed(price, t, ev, o)
    case SetBudget(id, b) => t.(budgets := t.budgets[id := b])
    case DropBudget(id) => t.(budgets := t.budgets - {id})
  }

  function Run(price: Price, t: Tables, steps: seq<Step>): Tables {
    if steps == [] then t else Apply(price, Run(price, t, steps[..|steps| - 1]), steps[|steps| - 1])
  }

  /** The events among the messages, as steps. */
  function EventSteps(ds: seq<Delivery>): seq<Step> {
    if ds == [] then []
    else
      var last := ds[|ds| - 1];
      EventSteps(ds[..|ds| - 1]) + if last.msg.Some? then [Event(last.msg.value, last.o)] else []
  }

  /** Consuming messages is a run of their events. */
  lemma {:induction false} ConsumingIsARun(price: Price, s: Done, ds: seq<Delivery>)
    ensures HandledAll(price, s, ds).tables == Run(price, s.tables, EventSteps(ds))
    decreases |ds|
  {
    if ds != [] {
      var n := |ds| - 1;
      ConsumingIsARun(price, s, ds[..n]);
      var before := EventSteps(ds[..n]);
      if ds[n].msg.Some? {
        RunStep(price, s.tables, before, Event(ds[n].msg.value, ds[n].o));
      } else {
        assert EventSteps(ds) == before;
      }
    }
  }

  lemma RunStep(price: Price, t: Tables, steps: seq<Step>, step: Step)
    ensures Run(price, t, steps + [step]) == Apply(price, Run(price, t, steps), step)
  {
    assert (steps + [step])[..|steps|] == steps;
  }

  /** No step administers this budget. */
  predicate LeavesAlone(steps: seq<Step>, id: string) {
    forall i :: 0 <= i < |steps| ==>
      (steps[i].SetBudget? ==> steps[i].id != id) && (steps[i].DropBudget? ==> steps[i].id != id)
  }

  /** The usage of an organisation in a processing month; appliedOnly leaves out rows whose spend update failed. */
  function Usage(rows: seq<UsageRow>, org: string, month: string, appliedOnly: bool): int {
    if rows == [] then 0
    else
      var r := rows[|rows| - 1];
      Usage(rows[..|rows| - 1], org, month, appliedOnly) +
      if r.org == org && r.month == month && (r.spendUpdated || !appliedOnly) then r.units else 0
  }

  /** An organisation's active budgets must all stay below 10^12 units; otherwise the statement fails as a whole. */
  lemma UpdatesIff(t: Tables, org: string, units: int, o: Outside)
    ensures Updates(t, org, units, o) <==>
            o.updateOk &&
            forall id :: id in t.budgets && t.budgets[id].org == org && t.budgets[id].scope.OrgScope?
                         && t.budgets[id].active ==>
                           -1_000_000_000_000 < SpendOf(t, id, o.month) + units < 1_000_000_000_000
  {
    assert forall id :: id in Charged(t.budgets, org) ==> id in t.budgets;
  }

  /** One usage row at the billed price for each event whose insert succeeds; a failed insert changes nothing at all. */
  lemma ProcessedUsage(price: Price, t: Tables, ev: UsageEvent, o: Outside)
    ensures
      var t' := Processed(price, t, ev, o);
      && t'.budgets == t.budgets
      && (!o.insertOk ==> t' == t)
      && (o.insertOk ==> t'.usage == t.usage + [UsageRow(ev.org, price(ev), o.month, Updates(t, ev.org, price(ev), o))])
      && (o.insertOk && !o.updateOk ==> t'.spend == t.spend)
  {
  }

  /** What the handler's own pricing bills for a million tokens of one listed model. */
  lemma EventPrices(ev: UsageEvent)
    requires ev.provider == "openai" && ev.model == "gpt-4o" && !ev.cacheHit
    ensures ev.input == 1_000_000 && ev.output == 0 && !ev.isBatch ==> Units(ev) == 250_000_000
    ensures ev.input == 0 && ev.output == 1_000_000 && !ev.isBatch ==> Units(ev) == 1_000_000_000
    ensures ev.input == 1_000_000 && ev.output == 0 && ev.isBatch ==> Units(ev) == 125_000_000
  {
    CostCalculator.PriceGpt4o();
  }

  lemma ProcessedSpend(price: Price, t: Tables, ev: UsageEvent, o: Outside, id: string, month: string)
    requires id in t.budgets
    ensures SpendOf(Processed(price, t, ev, o), id, month) == SpendOf(t, id, month) +
            if id in Charged(t.budgets, ev.org) && month == o.month && o.insertOk && Updates(t, ev.org, price(ev), o)
            then price(ev) else 0
  {
  }

  /** The spend of an organisation budget grows by exactly the usage rows whose update went through. */
  lemma {:induction false} SpendIsAppliedUsage(price: Price, t: Tables, steps: seq<Step>, id: string, month: string)
    requires id in t.budgets && t.budgets[id].scope.OrgScope? && t.budgets[id].active && LeavesAlone(steps, id)
    ensures
      var t' := Run(price, t, steps);
      && id in t'.budgets && t'.budgets[id] == t.budgets[id]
      && SpendOf(t', id, month) - SpendOf(t, id, month) ==
         Usage(t'.usage, t.budgets[id].org, month, true) - Usage(t.usage, t.budgets[id].org, month, true)
  {
    if steps != [] {
      var n := |steps| - 1;
      SpendIsAppliedUsage(price, t, steps[..n], id, month);
      var m := Run(price, t, steps[..n]);
      if steps[n].Event? {
        ProcessedSpend(price, m, steps[n].ev, steps[n].o, id, month);
        if steps[n].o.insertOk {
          assert Processed(price, m, steps[n].ev, steps[n].o).usage[..|m.usage|] == m.usage;
        }
      } else {
        assert steps[n].id != id;
      }
    }
  }

  lemma {:induction false} AppliedUsage(rows: seq<UsageRow>, org: string, month: string)
    ensures (forall i :: 0 <= i < |rows| && rows[i].org == org && rows[i].month == month ==> rows[i].spendUpdated) ==>
              Usage(rows, org, month, true) == Usage(rows, org, month, false)
    ensures (forall i :: 0 <= i < |rows| && rows[i].org == org && rows[i].month == month ==> rows[i].units >= 0) ==>
              Usage(rows, org, month, true) <= Usage(rows, org, month, false)
  {
    if rows != [] {
      AppliedUsage(rows[..|rows| - 1], org, month);
    }
  }

  /**
   From empty tables: the stored spend of an organisation budget that stays active equals the sum of the
   organisation's usage rows of the month when every update went through, and never exceeds it otherwise.
   */
  lemma LedgerMatchesUsage(price: Price, budgets: map<string, Budget>, steps: seq<Step>, id: string, month: string)
    requires id in budgets && budgets[id].scope.OrgScope? && budgets[id].active && LeavesAlone(steps, id)
    ensures
      var t := Run(price, Tables(budgets, map[], []), steps);
      var org := budgets[id].org;
      var ofMonth := (r: UsageRow) => r.org == org && r.month == month;
      && ((forall r :: r in t.usage && ofMonth(r) ==> r.spendUpdated) ==>
            SpendOf(t, id, month) == Usage(t.usage, org, month, false))
      && ((forall r :: r in t.usage && ofMonth(r) ==> r.units >= 0) ==>
            SpendOf(t, id, month) <= Usage(t.usage, org, month, false))
  {
    SpendIsAppliedUsage(price, Tables(budgets, map[], []), steps, id, month);
    AppliedUsage(Run(price, Tables(budgets, map[], []), steps).usage, budgets[id].org, month);
  }

  predicate CountsTokens(steps: seq<Step>) {
    forall i :: 0 <= i < |steps| && steps[i].Event? ==> steps[i].ev.input >= 0 && steps[i].ev.output >= 0
  }

  lemma {:induction false} RowsNonNegative(t: Tables, steps: seq<Step>)
    requires CountsTokens(steps) && forall i :: 0 <= i < |t.usage| ==> t.usage[i].units >= 0
    ensures forall i :: 0 <= i < |Run(Units, t, steps).usage| ==> Run(Units, t, steps).usage[i].units >= 0
    decreases |steps|
  {
    if steps != [] {
      var n := |steps| - 1;
      RowsNonNegative(t, steps[..n]);
      if steps[n].Event? {
        var ev := steps[n].ev;
        CostCalculator.BillNonNegative(ev.provider, ev.model, ev.input, ev.output, ev.cacheHit, ev.isBatch);
      }
    }
  }

  /** With the prices of the table the ledger never runs ahead of the usage rows, whatever updates fail. */
  lemma LedgerWithinUsage(budgets: map<string, Budget>, steps: seq<Step>, id: string, month: string)
    requires id in budgets && budgets[id].scope.OrgScope? && budgets[id].active && LeavesAlone(steps, id)
    requires CountsTokens(steps)
    ensures var t := Run(Units, Tables(budgets, map[], []), steps);
            SpendOf(t, id, month) <= Usage(t.usage, budgets[id].org, month, false)
  {
    RowsNonNegative(Tables(budgets, map[], []), steps);
    LedgerMatchesUsage(Units, budgets, steps, id, month);
  }

  /** An event touches no budget of another organisation, none of another scope, and no inactive one. */
  lemma OthersUntouched(price: Price, t: Tables, ev: UsageEvent, o: Outside, key: (string, string))
    requires key.0 in t.budgets
    requires
      var b := t.budgets[key.0];
      b.org != ev.org || !b.scope.OrgScope? || !b.active || key.1 != o.month
    ensures key in Processed(price, t, ev, o).spend <==> key in t.spend
    ensures key in t.spend ==> Processed(price, t, ev, o).spend[key] == t.spend[key]
  {
  }

  /**
   The status an alert carries counts the event twice once its spend is stored: it agrees with the ledger
   exactly when the event costs nothing or its update failed.
   */
  lemma AlertCountsTwice(price: Price, t: Tables, ev: UsageEvent, o: Outside, id: string)
    requires o.insertOk && id in Charged(t.budgets, ev.org)
    ensures
      var t' := Processed(price, t, ev, o);
      var status := StatusOf(RowOf(t', id, o.month), Usd(price(ev)));
      status.spent == Usd(SpendOf(t', id, o.month)) + Usd(price(ev)) &&
      (status.spent == Usd(SpendOf(t, id, o.month) + price(ev)) <==>
         price(ev) == 0 || !Updates(t, ev.org, price(ev), o))
  {
    ProcessedSpend(price, t, ev, o, id, o.month);
  }
}
