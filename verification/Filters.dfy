/** WHERE clauses with numbered parameters, evaluated on usage rows, and the order of the rows they select. */
module Filters {
  datatype UsageRow = UsageRow(id: string, org: string, at: int, user: string, team: string, provider: string,
                               model: string, status: string, dlp: bool)

  /** How PostgreSQL reads a timestamp and a date (both in milliseconds), and its ILIKE. */
  datatype Env = Env(timestamp: string -> int, date: string -> int, ilike: (string, string) -> bool)

  const DAY := 86_400_000

  datatype Column = OrgId | TeamId | UserId | Provider | Model | Status

  datatype Value = Text(text: string) | Number(number: int)

  /** One condition; placeholder n stands for $n. */
  datatype Cond =
    | Equals(column: Column, placeholder: nat)
    | NotBefore(placeholder: nat)       // created_at >= $n
    | NotAfter(placeholder: nat)        // created_at <= $n
    | FromDate(placeholder: nat)        // created_at >= $n::date
    | ThroughDate(placeholder: nat)     // created_at < ($n::date + interval '1 day')
    | ModelLike(placeholder: nat)       // model ILIKE $n
    | DlpViolation                      // dlp_violation = TRUE

  function ColumnOf(row: UsageRow, column: Column): string {
    match column
    case OrgId => row.org
    case TeamId => row.team
    case UserId => row.user
    case Provider => row.provider
    case Model => row.model
    case Status => row.status
  }

  predicate Numbered(cond: Cond, n: nat) {
    cond.DlpViolation? || 1 <= cond.placeholder <= n
  }

  /** A condition with the text of its parameter. */
  predicate EvalText(env: Env, cond: Cond, p: string, row: UsageRow) {
    match cond
    case Equals(column, _) => ColumnOf(row, column) == p
    case NotBefore(_) => row.at >= env.timestamp(p)
    case NotAfter(_) => row.at <= env.timestamp(p)
    case FromDate(_) => row.at >= env.date(p)
    case ThroughDate(_) => row.at < env.date(p) + DAY
    case ModelLike(_) => env.ilike(row.model, p)
    case DlpViolation => row.dlp
  }

  /** A condition whose parameter is missing or not a text holds of nothing. */
  predicate Eval(env: Env, cond: Cond, params: seq<Value>, row: UsageRow) {
    if cond.DlpViolation? then row.dlp
    else Numbered(cond, |params|) && params[cond.placeholder - 1].Text?
         && EvalText(env, cond, params[cond.placeholder - 1].text, row)
  }

  predicate Holds(env: Env, conds: seq<Cond>, params: seq<Value>, row: UsageRow) {
    conds == [] || (Holds(env, conds[..|conds| - 1], params, row) && Eval(env, conds[|conds| - 1], params, row))
  }

  predicate AllNumbered(conds: seq<Cond>, n: nat) {
    forall i :: 0 <= i < |conds| ==> Numbered(conds[i], n)
  }

  lemma {:induction false} MoreParams(env: Env, conds: seq<Cond>, params: seq<Value>, more: seq<Value>, row: UsageRow)
    requires AllNumbered(conds, |params|)
    ensures Holds(env, conds, params + more, row) <==> Holds(env, conds, params, row)
  {
    if conds != [] {
      MoreParams(env, conds[..|conds| - 1], params, more, row);
      assert Numbered(conds[|conds| - 1], |params|);
    }
  }

  /** Pushing a condition on the next placeholder together with its parameter adds just that condition. */
  lemma Pushed(env: Env, conds: seq<Cond>, params: seq<Value>, cond: Cond, more: seq<Value>)
    requires AllNumbered(conds, |params|) && Numbered(cond, |params| + |more|)
    ensures AllNumbered(conds + [cond], |params| + |more|)
    ensures forall row: UsageRow ::
              Holds(env, conds + [cond], params + more, row) <==>
              Holds(env, conds, params, row) && Eval(env, cond, params + more, row)
  {
    forall row: UsageRow
      ensures Holds(env, conds + [cond], params + more, row) <==>
              Holds(env, conds, params, row) && Eval(env, cond, params + more, row)
    {
      MoreParams(env, conds, params, more, row);
      assert (conds + [cond])[..|conds|] == conds;
    }
  }

  // ----- The selected rows, in order

  function InsertByTime(row: UsageRow, rows: seq<UsageRow>): seq<UsageRow> {
    if rows == [] || row.at < rows[0].at then [row] + rows else [rows[0]] + InsertByTime(row, rows[1..])
  }

  function Select(table: seq<UsageRow>, keep: UsageRow -> bool): seq<UsageRow> {
    if table == [] then []
    else
      var rest, last := Select(table[..|table| - 1], keep), table[|table| - 1];
      if keep(last) then InsertByTime(last, rest) else rest
  }

  function Matching(table: seq<UsageRow>, keep: UsageRow -> bool): multiset<UsageRow> {
    if table == [] then multiset{}
    else
      var last := table[|table| - 1];
      Matching(table[..|table| - 1], keep) + if keep(last) then multiset{last} else multiset{}
  }

  predicate Chronological(rows: seq<UsageRow>) {
    forall i, j :: 0 <= i < j < |rows| ==> rows[i].at <= rows[j].at
  }

  lemma {:induction false} InsertByTimeAdds(row: UsageRow, rows: seq<UsageRow>)
    ensures multiset(InsertByTime(row, rows)) == multiset(rows) + multiset{row}
  {
    if rows != [] && row.at >= rows[0].at {
      InsertByTimeAdds(row, rows[1..]);
      assert rows == [rows[0]] + rows[1..];
    }
  }

  predicate NotEarlier(rows: seq<UsageRow>, at: int) {
    forall i :: 0 <= i < |rows| ==> at <= rows[i].at
  }

  lemma {:induction false} InsertByTimeBound(row: UsageRow, rows: seq<UsageRow>, at: int)
    requires NotEarlier(rows, at) && at <= row.at
    ensures NotEarlier(InsertByTime(row, rows), at)
  {
    if rows != [] && row.at >= rows[0].at {
      InsertByTimeBound(row, rows[1..], at);
    }
  }

  lemma {:induction false} InsertByTimeSorts(row: UsageRow, rows: seq<UsageRow>)
    requires Chronological(rows)
    ensures Chronological(InsertByTime(row, rows))
  {
    if rows != [] && row.at >= rows[0].at {
      InsertByTimeSorts(row, rows[1..]);
      InsertByTimeBound(row, rows[1..], rows[0].at);
      var rest := InsertByTime(row, rows[1..]);
      assert NotEarlier(rest, rows[0].at);
    }
  }

  /** The selected rows are the matching ones, each as often as in the table, in order of time. */
  lemma {:induction false} SelectIsMatching(table: seq<UsageRow>, keep: UsageRow -> bool)
    ensures multiset(Select(table, keep)) == Matching(table, keep) && Chronological(Select(table, keep))
  {
    if table != [] {
      var n := |table| - 1;
      SelectIsMatching(table[..n], keep);
      if keep(table[n]) {
        InsertByTimeAdds(table[n], Select(table[..n], keep));
        InsertByTimeSorts(table[n], Select(table[..n], keep));
      }
    }
  }
}
