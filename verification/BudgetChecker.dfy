/** Budget status and thresholds: the checker's loops, and the policy rule for newly crossed thresholds. */
module BudgetChecker {
  import opened Wrappers

  /** spent / limit * 100 as IEEE division gives it when the limit is zero. */
  datatype Utilization = Percent(pct: real) | PlusInf | MinusInf | NotANumber

  function UtilizationOf(spent: real, limit: real): Utilization {
    if limit != 0.0 then Percent(spent / limit * 100.0)
    else if spent > 0.0 then PlusInf else if spent < 0.0 then MinusInf else NotANumber
  }

  predicate AtLeast(u: Utilization, t: int) {
    match u
    case Percent(pct) => pct >= t as real
    case PlusInf => true
    case MinusInf => false
    case NotANumber => false
  }

  datatype BudgetRow = BudgetRow(id: string, scope: string, scopeId: string, limit: real, hard: bool,
                                 thresholds: seq<int>, spent: real)

  datatype BudgetStatus = BudgetStatus(id: string, scope: string, scopeId: string, limit: real, spent: real,
                                       remaining: real, utilization: Utilization, hard: bool, thresholds: seq<int>)

  function StatusOf(r: BudgetRow, cost: real): BudgetStatus {
    var spent := r.spent + cost;
    BudgetStatus(r.id, r.scope, r.scopeId, r.limit, spent, r.limit - spent,
                 UtilizationOf(spent, r.limit), r.hard, r.thresholds)
  }

  function Reached(thresholds: seq<int>, u: Utilization): seq<int> {
    if thresholds == [] then []
    else
      var last := thresholds[|thresholds| - 1];
      Reached(thresholds[..|thresholds| - 1], u) + if AtLeast(u, last) then [last] else []
  }

  lemma {:induction false} InReached(thresholds: seq<int>, u: Utilization, t: int)
    ensures t in Reached(thresholds, u) <==> t in thresholds && AtLeast(u, t)
  {
    if thresholds != [] {
      InReached(thresholds[..|thresholds| - 1], u, t);
    }
  }

  /**
   A threshold is reached when the spend is at least that percentage of the limit; with no limit, by any
   spend above zero; with a limit below zero, when the spend is at most that percentage of it.
   */
  lemma ReachedIff(thresholds: seq<int>, spent: real, limit: real, t: int)
    ensures t in Reached(thresholds, UtilizationOf(spent, limit)) <==>
            t in thresholds &&
            if limit > 0.0 then 100.0 * spent >= t as real * limit
            else if limit < 0.0 then 100.0 * spent <= t as real * limit
            else spent > 0.0
  {
    InReached(thresholds, UtilizationOf(spent, limit), t);
    if limit != 0.0 {
      PercentAtLeast(spent, limit, t as real);
    }
  }

  lemma PercentAtLeast(spent: real, limit: real, t: real)
    requires limit != 0.0
    ensures spent / limit * 100.0 >= t <==>
            if limit > 0.0 then 100.0 * spent >= t * limit else 100.0 * spent <= t * limit
  {
    var q := spent / limit;
    assert q * limit == spent;
    var d := q * 100.0 - t;
    assert d * limit == 100.0 * spent - t * limit;
    if d >= 0.0 && limit > 0.0 {
      assert d * limit >= 0.0;
    } else if d < 0.0 && limit > 0.0 {
      assert d * limit < 0.0;
    } else if d >= 0.0 {
      assert d * limit <= 0.0;
    } else {
      assert d * limit > 0.0;
    }
  }

  lemma {:induction false} ReachedAny(thresholds: seq<int>, u: Utilization)
    ensures Reached(thresholds, u) != [] <==> exists t :: t in thresholds && AtLeast(u, t)
  {
    if thresholds != [] {
      var n := |thresholds| - 1;
      ReachedAny(thresholds[..n], u);
      if Reached(thresholds[..n], u) != [] {
        var t :| t in thresholds[..n] && AtLeast(u, t);
        assert t in thresholds;
      }
      if AtLeast(u, thresholds[n]) {
        assert thresholds[n] in thresholds;
      }
    }
  }

  method CheckThresholds(status: BudgetStatus) returns (crossed: seq<int>)
    ensures crossed == Reached(status.thresholds, status.utilization)
  {
    crossed := [];
    var i := 0;
    while i < |status.thresholds|
      invariant 0 <= i <= |status.thresholds|
      invariant crossed == Reached(status.thresholds[..i], status.utilization)
    {
      assert status.thresholds[..i + 1][..i] == status.thresholds[..i];
      if AtLeast(status.utilization, status.thresholds[i]) {
        crossed := crossed + [status.thresholds[i]];
      }
      i := i + 1;
    }
    assert status.thresholds[..i] == status.thresholds;
  }

  predicate Alerting(r: BudgetRow, cost: real) {
    exists t :: t in r.thresholds && AtLeast(UtilizationOf(r.spent + cost, r.limit), t)
  }

  predicate Blocking(r: BudgetRow, cost: real) {
    r.hard && r.spent + cost >= r.limit
  }

  /** The statuses to alert on: of the rows that could be read, those with a threshold reached. */
  function Exceeded(rows: seq<Option<BudgetRow>>, cost: real): seq<BudgetStatus> {
    if rows == [] then []
    else
      var last := rows[|rows| - 1];
      Exceeded(rows[..|rows| - 1], cost) +
      if last.Some? && Alerting(last.value, cost) then [StatusOf(last.value, cost)] else []
  }

  /** None is a row that could not be scanned: it is skipped. A failed query allows the request. */
  method Check(rows: seq<Option<BudgetRow>>, queryOk: bool, cost: real)
    returns (allowed: bool, exceeded: seq<BudgetStatus>)
    ensures allowed <==>
      !queryOk || !exists i :: 0 <= i < |rows| && rows[i].Some? && rows[i].value.hard
                               && rows[i].value.spent + cost >= rows[i].value.limit
    ensures exceeded == if queryOk then Exceeded(rows, cost) else []
  {
    allowed, exceeded := true, [];
    if !queryOk {
      return;
    }
    var i := 0;
    while i < |rows|
      invariant 0 <= i <= |rows|
      invariant allowed <==> forall k :: 0 <= k < i && rows[k].Some? ==> !Blocking(rows[k].value, cost)
      invariant exceeded == Exceeded(rows[..i], cost)
    {
      assert rows[..i + 1][..i] == rows[..i];
      if rows[i].Some? {
        var s := StatusOf(rows[i].value, cost);
        var crossed := CheckThresholds(s);
        ReachedAny(s.thresholds, s.utilization);
        if |crossed| > 0 {
          exceeded := exceeded + [s];
        }
        if s.hard && s.spent >= s.limit {
          allowed := false;
        }
      }
      i := i + 1;
    }
    assert rows[..i] == rows;
  }

  /** A status is about its row: the spend with the cost added, and what is left of the limit. */
  lemma StatusAddsUp(r: BudgetRow, cost: real)
    ensures
      var s := StatusOf(r, cost);
      && s.spent == r.spent + cost && s.remaining + s.spent == r.limit
      && s.id == r.id && s.scope == r.scope && s.scopeId == r.scopeId && s.limit == r.limit
      && s.hard == r.hard && s.thresholds == r.thresholds && s.utilization == UtilizationOf(r.spent + cost, r.limit)
  {
  }

  /** The statuses returned are those of the readable rows that have a threshold reached. */
  lemma {:induction false} InExceeded(rows: seq<Option<BudgetRow>>, cost: real, s: BudgetStatus)
    ensures s in Exceeded(rows, cost) <==>
            exists i :: 0 <= i < |rows| && IsStatusOf(rows[i], cost, s)
  {
    if rows != [] {
      var n := |rows| - 1;
      InExceeded(rows[..n], cost, s);
      if IsStatusOf(rows[n], cost, s) {
        assert s in Exceeded(rows, cost);
      }
      if s in Exceeded(rows[..n], cost) {
        var i :| 0 <= i < n && IsStatusOf(rows[..n][i], cost, s);
        assert IsStatusOf(rows[i], cost, s);
      }
      if i :| 0 <= i < |rows| && IsStatusOf(rows[i], cost, s) {
        assert i < n ==> IsStatusOf(rows[..n][i], cost, s);
      }
    }
  }

  predicate IsStatusOf(row: Option<BudgetRow>, cost: real, s: BudgetStatus) {
    row.Some? && Alerting(row.value, cost) && s == StatusOf(row.value, cost)
  }

  // ----- The policy rule: thresholds newly crossed by one request

  function Pct(spent: real, limit: real): real
    requires limit != 0.0
  {
    spent / limit * 100.0
  }

  function NewlyCrossed(thresholds: set<int>, spent: real, cost: real, limit: real): set<int>
    requires limit != 0.0
  {
    set t | t in thresholds && Pct(spent, limit) >= t as real && Pct(spent - cost, limit) < t as real
  }

  /** The spend after a run of requests. */
  function Spent(start: real, costs: seq<real>): real {
    if costs == [] then start else Spent(start, costs[..|costs| - 1]) + costs[|costs| - 1]
  }

  /** How many requests of the run crossed t. */
  function Crossings(thresholds: set<int>, start: real, costs: seq<real>, limit: real, t: int): nat
    requires limit != 0.0
  {
    if costs == [] then 0
    else
      var n := |costs| - 1;
      Crossings(thresholds, start, costs[..n], limit, t) +
      if t in NewlyCrossed(thresholds, Spent(start, costs), costs[n], limit) then 1 else 0
  }

  function AllNewlyCrossed(thresholds: set<int>, start: real, costs: seq<real>, limit: real): set<int>
    requires limit != 0.0
  {
    if costs == [] then {}
    else
      var n := |costs| - 1;
      AllNewlyCrossed(thresholds, start, costs[..n], limit)
      + NewlyCrossed(thresholds, Spent(start, costs), costs[n], limit)
  }

  lemma PctMonotone(a: real, b: real, limit: real)
    requires a <= b && limit > 0.0
    ensures Pct(a, limit) <= Pct(b, limit)
  {
    assert a / limit <= b / limit;
  }

  lemma {:induction false} SpentGrows(start: real, costs: seq<real>)
    requires forall i :: 0 <= i < |costs| ==> costs[i] >= 0.0
    ensures Spent(start, costs) >= start
  {
    if costs != [] {
      SpentGrows(start, costs[..|costs| - 1]);
    }
  }

  /** Each threshold fires at exactly one request of a run that takes the spend across it, and at none otherwise. */
  lemma {:induction false} FiresOnce(thresholds: set<int>, start: real, costs: seq<real>, limit: real, t: int)
    requires limit > 0.0 && forall i :: 0 <= i < |costs| ==> costs[i] >= 0.0
    ensures Crossings(thresholds, start, costs, limit, t) ==
            if t in thresholds && Pct(start, limit) < t as real <= Pct(Spent(start, costs), limit) then 1 else 0
  {
    if costs != [] {
      var n := |costs| - 1;
      FiresOnce(thresholds, start, costs[..n], limit, t);
      SpentGrows(start, costs[..n]);
      var before, after := Spent(start, costs[..n]), Spent(start, costs);
      assert after - costs[n] == before;
      PctMonotone(start, before, limit);
      PctMonotone(before, after, limit);
    }
  }

  /** The checker reports all thresholds reached: those reached at the start and every one crossed since. */
  lemma {:induction false} ReachedIsAllCrossed(thresholds: seq<int>, start: real, costs: seq<real>, limit: real, t: int)
    requires limit > 0.0 && forall i :: 0 <= i < |costs| ==> costs[i] >= 0.0
    ensures t in Reached(thresholds, UtilizationOf(Spent(start, costs), limit)) <==>
            t in Reached(thresholds, UtilizationOf(start, limit)) ||
            t in AllNewlyCrossed((set x | x in thresholds), start, costs, limit)
  {
    InReached(thresholds, UtilizationOf(Spent(start, costs), limit), t);
    InReached(thresholds, UtilizationOf(start, limit), t);
    if costs != [] {
      var n := |costs| - 1;
      ReachedIsAllCrossed(thresholds, start, costs[..n], limit, t);
      InReached(thresholds, UtilizationOf(Spent(start, costs[..n]), limit), t);
      var before, after := Spent(start, costs[..n]), Spent(start, costs);
      assert after - costs[n] == before;
      PctMonotone(before, after, limit);
    }
  }

  /** The description of CheckThresholds: after a request of this cost, it returns the newly crossed thresholds. */
  predicate ReturnsNewlyCrossed(thresholds: seq<int>, spent: real, cost: real, limit: real)
    requires limit != 0.0
  {
    var returned := Reached(thresholds, UtilizationOf(spent, limit));
    (set t | t in returned) == NewlyCrossed((set t | t in thresholds), spent, cost, limit)
  }

  /** It holds exactly when no listed threshold had been reached before the request. */
  lemma ReturnsNewlyCrossedIff(thresholds: seq<int>, spent: real, cost: real, limit: real)
    requires limit > 0.0 && cost >= 0.0
    ensures ReturnsNewlyCrossed(thresholds, spent, cost, limit) <==>
            forall t :: t in thresholds ==> Pct(spent - cost, limit) < t as real
  {
    var returned := Reached(thresholds, UtilizationOf(spent, limit));
    var crossed := NewlyCrossed((set t | t in thresholds), spent, cost, limit);
    PctMonotone(spent - cost, spent, limit);
    forall t ensures t in returned <==> t in thresholds && Pct(spent, limit) >= t as real {
      InReached(thresholds, UtilizationOf(spent, limit), t);
    }
    forall t | t in thresholds && Pct(spent - cost, limit) >= t as real
      ensures t in returned && t !in crossed
    {
    }
  }

  /** A request from 60 to 61 of 100 returns the threshold 50 again, although it crossed none. */
  lemma ReachedAgain()
    ensures Reached([50], UtilizationOf(61.0, 100.0)) == [50] && NewlyCrossed({50}, 61.0, 1.0, 100.0) == {}
    ensures !ReturnsNewlyCrossed([50], 61.0, 1.0, 100.0)
  {
    assert UtilizationOf(61.0, 100.0) == Percent(61.0) && Pct(60.0, 100.0) == 60.0;
    assert [50][..0] == [];
    ReturnsNewlyCrossedIff([50], 61.0, 1.0, 100.0);
    assert 50 in [50];
  }
}
