/** GET /audit: filter, placeholder numbers, total and pages. */
module AuditRoute {
  import opened Wrappers
  import opened Filters
  import CsvExport

  datatype Query = Query(start: Option<string>, end: Option<string>, user: Option<string>, team: Option<string>,
                         provider: Option<string>, model: Option<string>, status: Option<string>, dlpOnly: bool,
                         limit: nat, offset: nat)

  predicate WantedByWho(env: Env, org: string, q: Query, row: UsageRow) {
    && row.org == org
    && (q.start.Some? && q.start.value != "" ==> row.at >= env.date(q.start.value))
    && (q.end.Some? && q.end.value != "" ==> row.at < env.date(q.end.value) + 86_400_000)
    && (q.user.Some? && q.user.value != "" ==> row.user == q.user.value)
    && (q.team.Some? && q.team.value != "" ==> row.team == q.team.value)
  }

  /** What the query asks for. */
  predicate Wanted(env: Env, org: string, q: Query, row: UsageRow) {
    && WantedByWho(env, org, q, row)
    && (q.provider.Some? && q.provider.value != "" ==> row.provider == q.provider.value)
    && (q.model.Some? && q.model.value != "" ==> env.ilike(row.model, "%" + q.model.value + "%"))
    && (q.status.Some? && q.status.value != "" ==> row.status == q.status.value)
    && (q.dlpOnly ==> row.dlp)
  }

  /** One optional filter: pushed with its parameter when given. */
  method PushGiven(env: Env, conds: seq<Cond>, params: seq<Value>, idx: nat,
                   value: Option<string>, cond: Cond, text: string)
    returns (conds': seq<Cond>, params': seq<Value>, idx': nat)
    requires AllNumbered(conds, |params|) && idx == |params| + 1
    requires !cond.DlpViolation? && cond.placeholder == idx
    ensures AllNumbered(conds', |params'|) && idx' == |params'| + 1
    ensures forall row: UsageRow :: Holds(env, conds', params', row) <==>
              Holds(env, conds, params, row) && (CsvExport.Given(value) ==> EvalText(env, cond, text, row))
  {
    conds', params', idx' := conds, params, idx;
    if CsvExport.Given(value) {
      Pushed(env, conds, params, cond, [Text(text)]);
      conds', params', idx' := conds + [cond], params + [Text(text)], idx + 1;
    }
  }

  function Or(o: Option<string>): string {
    if o.Some? then o.value else ""
  }

  method BuildPeriodAndWho(env: Env, org: string, q: Query) returns (conds: seq<Cond>, params: seq<Value>, idx: nat)
    ensures AllNumbered(conds, |params|) && idx == |params| + 1
    ensures forall row: UsageRow :: Holds(env, conds, params, row) <==> WantedByWho(env, org, q, row)
  {
    conds, params, idx := [Equals(OrgId, 1)], [Text(org)], 2;
    assert conds[..0] == [];
    assert forall row: UsageRow :: Holds(env, conds, params, row) <==> row.org == org;
    conds, params, idx := PushGiven(env, conds, params, idx, q.start, FromDate(idx), Or(q.start));
    conds, params, idx := PushGiven(env, conds, params, idx, q.end, ThroughDate(idx), Or(q.end));
    conds, params, idx := PushGiven(env, conds, params, idx, q.user, Equals(UserId, idx), Or(q.user));
    conds, params, idx := PushGiven(env, conds, params, idx, q.team, Equals(TeamId, idx), Or(q.team));
  }

  /** The clause with its parameters selects exactly the wanted rows, and idx is the next free placeholder. */
  method BuildFilter(env: Env, org: string, q: Query) returns (conds: seq<Cond>, params: seq<Value>, idx: nat)
    ensures AllNumbered(conds, |params|) && idx == |params| + 1
    ensures forall row: UsageRow :: Holds(env, conds, params, row) <==> Wanted(env, org, q, row)
  {
    conds, params, idx := BuildPeriodAndWho(env, org, q);
    conds, params, idx := PushGiven(env, conds, params, idx, q.provider, Equals(Provider, idx), Or(q.provider));
    conds, params, idx := PushGiven(env, conds, params, idx, q.model, ModelLike(idx), "%" + Or(q.model) + "%");
    conds, params, idx := PushGiven(env, conds, params, idx, q.status, Equals(Status, idx), Or(q.status));
    if q.dlpOnly {
      Pushed(env, conds, params, DlpViolation, []);
      assert params + [] == params;
      conds := conds + [DlpViolation];
    }
  }

  // ----- Total and pages

  function Reverse(rows: seq<UsageRow>): seq<UsageRow> {
    if rows == [] then [] else [rows[|rows| - 1]] + Reverse(rows[..|rows| - 1])
  }

  /** LIMIT and OFFSET. */
  function Page(rows: seq<UsageRow>, limit: nat, offset: nat): seq<UsageRow> {
    if offset >= |rows| then []
    else if offset + limit <= |rows| then rows[offset..offset + limit] else rows[offset..]
  }

  /** Up to limit rows from the offset on, whatever the offset. */
  lemma PageAt(rows: seq<UsageRow>, limit: nat, offset: nat, i: nat)
    ensures |Page(rows, limit, offset)| ==
            if offset >= |rows| then 0 else if |rows| - offset < limit then |rows| - offset else limit
    ensures i < |Page(rows, limit, offset)| ==> offset + i < |rows| && Page(rows, limit, offset)[i] == rows[offset + i]
  {
  }

  lemma {:induction false} ReverseIsPermutation(rows: seq<UsageRow>)
    ensures |Reverse(rows)| == |rows| && multiset(Reverse(rows)) == multiset(rows)
  {
    if rows != [] {
      ReverseIsPermutation(rows[..|rows| - 1]);
      assert rows == rows[..|rows| - 1] + [rows[|rows| - 1]];
    }
  }

  /** The route lists the newest first. */
  lemma {:induction false} ReverseIsNewestFirst(rows: seq<UsageRow>, i: nat, j: nat)
    requires Chronological(rows) && i <= j < |rows|
    ensures |Reverse(rows)| == |rows| && Reverse(rows)[i] == rows[|rows| - 1 - i]
    ensures Reverse(rows)[i].at >= Reverse(rows)[j].at
  {
    ReverseAt(rows, i);
    ReverseAt(rows, j);
  }

  lemma {:induction false} ReverseAt(rows: seq<UsageRow>, i: nat)
    requires i < |rows|
    ensures |Reverse(rows)| == |rows| && Reverse(rows)[i] == rows[|rows| - 1 - i]
  {
    ReverseIsPermutation(rows);
    if i > 0 {
      ReverseAt(rows[..|rows| - 1], i - 1);
    }
  }

  predicate NewestFirst(rows: seq<UsageRow>) {
    forall i, j :: 0 <= i < j < |rows| ==> rows[i].at >= rows[j].at
  }

  /** ORDER BY created_at DESC: the same rows, newest first; rows of one time come in any order. */
  predicate IsOrder(order: seq<UsageRow>, rows: seq<UsageRow>) {
    multiset(order) == multiset(rows) && NewestFirst(order)
  }

  ghost predicate Sorts(sort: seq<UsageRow> -> seq<UsageRow>) {
    forall rows: seq<UsageRow> :: IsOrder(sort(rows), rows)
  }

  /** The reverse of the rows in order of time is one such order. */
  lemma ReverseIsOrder(rows: seq<UsageRow>)
    requires Chronological(rows)
    ensures IsOrder(Reverse(rows), rows)
  {
    ReverseIsPermutation(rows);
    forall i, j | 0 <= i < j < |rows| ensures Reverse(rows)[i].at >= Reverse(rows)[j].at {
      ReverseIsNewestFirst(rows, i, j);
    }
  }

  /** sort is how the database breaks ties in this query. */
  method GetAudit(env: Env, table: seq<UsageRow>, org: string, q: Query, sort: seq<UsageRow> -> seq<UsageRow>)
    returns (total: nat, rows: seq<UsageRow>)
    requires Sorts(sort)
    ensures var wanted := Select(table, row => Wanted(env, org, q, row));
            total == |wanted| && rows == Page(sort(wanted), q.limit, q.offset)
    ensures forall i, j :: 0 <= i < j < |rows| ==> rows[i].at >= rows[j].at
  {
    var conds, params, idx := BuildFilter(env, org, q);
    var selected := Select(table, row => Holds(env, conds, params, row));
    SelectSame(table, row => Holds(env, conds, params, row), row => Wanted(env, org, q, row));
    total := |selected|;
    var all := params + [Number(q.limit), Number(q.offset)];
    var limit, offset := all[idx - 1].number, all[idx].number;
    assert IsOrder(sort(selected), selected);
    rows := Page(sort(selected), limit, offset);
  }

  lemma {:induction false} SelectSame(table: seq<UsageRow>, f: UsageRow -> bool, g: UsageRow -> bool)
    requires forall row: UsageRow :: f(row) == g(row)
    ensures Select(table, f) == Select(table, g)
  {
    if table != [] {
      SelectSame(table[..|table| - 1], f, g);
    }
  }

  /** Pages 0 to k - 1 read one after the other. */
  function Pages(rows: seq<UsageRow>, limit: nat, k: nat): seq<UsageRow> {
    if k == 0 then [] else Pages(rows, limit, k - 1) + Page(rows, limit, (k - 1) * limit)
  }

  /** Reading page after page of one order gives every row once, in order. */
  lemma {:induction false} PagesCoverResult(rows: seq<UsageRow>, limit: nat, k: nat)
    ensures Pages(rows, limit, k) == if k * limit <= |rows| then rows[..k * limit] else rows
  {
    if k > 0 {
      PagesCoverResult(rows, limit, k - 1);
      assert k * limit == (k - 1) * limit + limit;
    }
  }

  /**
   The export and the route disagree on the last day of a period exactly within its last second: the
   route takes the whole day, the export stops at 23:59:59.
   */
  lemma ExportStopsASecondEarly(env: Env, org: string, d: string, row: UsageRow)
    requires env.timestamp(d + " 00:00:00") == env.date(d) && env.timestamp(d + " 23:59:59") == env.date(d) + 86_399_000
    requires d != ""
    ensures
      var asked := Query(Some(d), Some(d), None, None, None, None, None, false, 100, 0);
      var exported := CsvExport.Options(org, d, d, None, None, None);
      && (CsvExport.Wanted(env, exported, row) ==> Wanted(env, org, asked, row))
      && (Wanted(env, org, asked, row) && !CsvExport.Wanted(env, exported, row) <==>
            row.org == org && env.date(d) + 86_399_000 < row.at < env.date(d) + 86_400_000)
  {
  }
}
