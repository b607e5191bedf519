/** The CSV export: its filter, and the cursor loop that writes the result in batches of 1000. */
module CsvExport {
  import opened Wrappers
  import opened Filters

  const BATCH_SIZE := 1000

  /** An option that is absent or empty does not filter. */
  datatype Options = Options(org: string, periodStart: string, periodEnd: string,
                             team: Option<string>, user: Option<string>, provider: Option<string>)

  predicate Given(o: Option<string>) {
    o.Some? && o.value != ""
  }

  /** What the options ask for. */
  predicate Wanted(env: Env, opts: Options, row: UsageRow) {
    && row.org == opts.org
    && env.timestamp(opts.periodStart + " 00:00:00") <= row.at <= env.timestamp(opts.periodEnd + " 23:59:59")
    && (opts.team.Some? && opts.team.value != "" ==> row.team == opts.team.value)
    && (opts.user.Some? && opts.user.value != "" ==> row.user == opts.user.value)
    && (opts.provider.Some? && opts.provider.value != "" ==> row.provider == opts.provider.value)
  }

  /** The clause with its parameters selects exactly the wanted rows. */
  method BuildFilter(env: Env, opts: Options) returns (conds: seq<Cond>, params: seq<Value>)
    ensures AllNumbered(conds, |params|)
    ensures forall row: UsageRow :: Holds(env, conds, params, row) <==> Wanted(env, opts, row)
  {
    conds := [Equals(OrgId, 1), NotBefore(2), NotAfter(3)];
    params := [Text(opts.org), Text(opts.periodStart + " 00:00:00"), Text(opts.periodEnd + " 23:59:59")];
    BaseFilter(env, opts);
    conds, params := PushOption(env, conds, params, TeamId, opts.team);
    conds, params := PushOption(env, conds, params, UserId, opts.user);
    conds, params := PushOption(env, conds, params, Provider, opts.provider);
  }

  /** One optional filter, pushed with its parameter when given. */
  method PushOption(env: Env, conds: seq<Cond>, params: seq<Value>, column: Column, option: Option<string>)
    returns (conds': seq<Cond>, params': seq<Value>)
    requires AllNumbered(conds, |params|)
    ensures AllNumbered(conds', |params'|)
    ensures forall row: UsageRow :: Holds(env, conds', params', row) <==>
              Holds(env, conds, params, row) && (Given(option) ==> ColumnOf(row, column) == option.value)
  {
    conds', params' := conds, params;
    if Given(option) {
      Pushed(env, conds, params, Equals(column, |params| + 1), [Text(option.value)]);
      conds' := conds + [Equals(column, |params| + 1)];
      params' := params + [Text(option.value)];
    }
  }

  lemma BaseFilter(env: Env, opts: Options)
    ensures
      var conds := [Equals(OrgId, 1), NotBefore(2), NotAfter(3)];
      var params := [Text(opts.org), Text(opts.periodStart + " 00:00:00"), Text(opts.periodEnd + " 23:59:59")];
      forall row: UsageRow :: Holds(env, conds, params, row) <==>
        row.org == opts.org
        && env.timestamp(opts.periodStart + " 00:00:00") <= row.at <= env.timestamp(opts.periodEnd + " 23:59:59")
  {
    var params := [Text(opts.org), Text(opts.periodStart + " 00:00:00"), Text(opts.periodEnd + " 23:59:59")];
    forall row: UsageRow
      ensures Holds(env, [Equals(OrgId, 1), NotBefore(2), NotAfter(3)], params, row) <==>
        row.org == opts.org
        && env.timestamp(opts.periodStart + " 00:00:00") <= row.at <= env.timestamp(opts.periodEnd + " 23:59:59")
    {
      ThreeConds(env, Equals(OrgId, 1), NotBefore(2), NotAfter(3), params, row);
    }
  }

  lemma ThreeConds(env: Env, a: Cond, b: Cond, c: Cond, params: seq<Value>, row: UsageRow)
    ensures Holds(env, [a, b, c], params, row) <==>
            Eval(env, a, params, row) && Eval(env, b, params, row) && Eval(env, c, params, row)
  {
    assert [a, b, c][..2] == [a, b] && [a, b][..1] == [a] && [a][..0] == [];
    assert Holds(env, [a], params, row) <==> Eval(env, a, params, row);
    assert Holds(env, [a, b], params, row) <==> Eval(env, a, params, row) && Eval(env, b, params, row);
  }

  /**
   The rows written, and their count on success; fetchFails is the batch whose FETCH fails, if any. The
   batch after the last full one is always fetched, so a result of whole batches takes one FETCH more.
   */
  method WriteRows(result: seq<UsageRow>, fetchFails: Option<nat>) returns (written: seq<UsageRow>, count: Option<nat>)
    ensures count.None? <==> fetchFails.Some? && fetchFails.value * 1000 <= |result|
    ensures count.Some? ==> written == result && count.value == |result|
    ensures count.None? ==> written == result[..fetchFails.value * 1000]
  {
    written := [];
    var rowCount, fetched := 0, 0;
    while true
      invariant rowCount == |written| == fetched * BATCH_SIZE <= |result|
      invariant written == result[..rowCount]
      invariant fetchFails.Some? ==> fetched <= fetchFails.value
      decreases |result| - rowCount
    {
      if fetchFails == Some(fetched) {
        return written, None;
      }
      var end := if rowCount + BATCH_SIZE <= |result| then rowCount + BATCH_SIZE else |result|;
      var batch := result[rowCount..end];
      if |batch| == 0 {
        break;
      }
      var i := 0;
      while i < |batch|
        invariant 0 <= i <= |batch|
        invariant rowCount == |written| == fetched * BATCH_SIZE + i
        invariant written == result[..fetched * BATCH_SIZE + i]
      {
        written := written + [batch[i]];
        rowCount := rowCount + 1;
        i := i + 1;
      }
      if |batch| < BATCH_SIZE {
        break;
      }
      fetched := fetched + 1;
    }
    assert rowCount == |result|;
    assert written == result;
    return written, Some(rowCount);
  }

  /** The whole export: exactly the wanted rows of the table, in order of time, and their number. */
  method StreamCsv(env: Env, table: seq<UsageRow>, opts: Options, fetchFails: Option<nat>)
    returns (written: seq<UsageRow>, count: Option<nat>)
    ensures forall i, j :: 0 <= i < j < |written| ==> written[i].at <= written[j].at
    ensures count.Some? ==> multiset(written) == Matching(table, row => Wanted(env, opts, row))
    ensures count.Some? ==> count.value == |written|
    ensures multiset(written) <= Matching(table, row => Wanted(env, opts, row))
    ensures var matching := Matching(table, row => Wanted(env, opts, row));
            count.None? <==> fetchFails.Some? && fetchFails.value * 1000 <= |matching|
  {
    var conds, params := BuildFilter(env, opts);
    var result := Select(table, row => Holds(env, conds, params, row));
    SelectIsMatching(table, row => Holds(env, conds, params, row));
    MatchingSame(table, row => Holds(env, conds, params, row), row => Wanted(env, opts, row));
    assert |result| == |multiset(result)|;
    written, count := WriteRows(result, fetchFails);
    assert result == written + result[|written|..];
  }

  lemma {:induction false} MatchingSame(table: seq<UsageRow>, f: UsageRow -> bool, g: UsageRow -> bool)
    requires forall row: UsageRow :: f(row) == g(row)
    ensures Matching(table, f) == Matching(table, g)
  {
    if table != [] {
      MatchingSame(table[..|table| - 1], f, g);
    }
  }
}
