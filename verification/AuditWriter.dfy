/** The audit writer's transaction, its effect on the two tables, and the chain it leaves per organisation. */
module AuditWriter {
  import opened Wrappers
  import opened AuditChain

  const MAX_INT64 := 0x7fff_ffff_ffff_ffff
  const EVENT_TYPE_LIMIT := 50

  /** audit_seq and audit_log_chain. Rows are in commit order. */
  datatype Tables = Tables(next: map<string, int>, rows: seq<Row>)

  /** One call of Write, with the id gen_random_uuid() will give its row. */
  datatype Request = Request(entry: Entry, rowId: string)

  datatype WriteError = BeginError | AllocError | ReadError | MarshalError | InsertError | CommitError

  const EMPTY_TABLES := Tables(map[], [])

  /** The organisation as the uuid column stores it. */
  function Org(env: Env, req: Request): string {
    env.orgText(req.entry.org)
  }

  // ----- The statements of the transaction

  function NextSeq(t: Tables, org: string): int {
    if org in t.next then t.next[org] else 1
  }

  /** The upsert of audit_seq: None when next_seq would leave BIGINT. */
  function AllocSeq(t: Tables, org: string): Option<int> {
    if NextSeq(t, org) >= MAX_INT64 then None else Some(NextSeq(t, org))
  }

  /** ORDER BY seq_num DESC LIMIT 1. */
  function TopRow(rows: seq<Row>, org: string): Option<Row> {
    if rows == [] then None
    else
      var top, last := TopRow(rows[..|rows| - 1], org), rows[|rows| - 1];
      if last.org == org && (top.None? || top.value.seqNum < last.seqNum) then Some(last) else top
  }

  function LastHash(rows: seq<Row>, org: string): string {
    match TopRow(rows, org) case None => "" case Some(r) => r.hash
  }

  function MakeRow(env: Env, req: Request, seqNum: int, prev: string): Row {
    var e := req.entry;
    var payload := if e.payload.Some? then e.payload.value else "";
    var hash := env.sha(RawText(seqNum, e.org, e.event, payload, prev));
    Row(req.rowId, seqNum, Org(env, req), e.event, payload, prev, hash, env.sign(hash), e.at)
  }

  /** The column width and the UNIQUE (org_id, seq_num) constraint. */
  predicate Insertable(rows: seq<Row>, row: Row) {
    |row.event| <= EVENT_TYPE_LIMIT &&
    forall i :: 0 <= i < |rows| ==> !(rows[i].org == row.org && rows[i].seqNum == row.seqNum)
  }

  function Committed(t: Tables, row: Row): Tables {
    Tables(t.next[row.org := row.seqNum + 1], t.rows + [row])
  }

  /** The whole transaction run alone, when no statement fails for reasons outside the two tables. */
  function WriteOne(env: Env, t: Tables, req: Request): Result<Tables, WriteError> {
    var seqNum := AllocSeq(t, Org(env, req));
    if seqNum.None? then Err(AllocError)
    else if req.entry.payload.None? then Err(MarshalError)
    else
      var row := MakeRow(env, req, seqNum.value, LastHash(t.rows, Org(env, req)));
      if Insertable(t.rows, row) then Ok(Committed(t, row)) else Err(InsertError)
  }

  /** Running the writes one at a time; a failed one leaves the tables as they were. */
  function Serial(env: Env, reqs: seq<Request>): Tables {
    if reqs == [] then EMPTY_TABLES
    else
      var t := Serial(env, reqs[..|reqs| - 1]);
      match WriteOne(env, t, reqs[|reqs| - 1]) case Ok(t') => t' case Err(_) => t
  }

  // ----- Reference: the chain of one organisation, from its accepted writes alone

  function RowsOf(rows: seq<Row>, org: string): seq<Row> {
    if rows == [] then []
    else
      var rest, last := RowsOf(rows[..|rows| - 1], org), rows[|rows| - 1];
      if last.org == org then rest + [last] else rest
  }

  /** A write that the tables will take as number n of its organisation. */
  predicate Acceptable(req: Request, n: int) {
    req.entry.payload.Some? && |req.entry.event| <= 50 && n < 9_223_372_036_854_775_807
  }

  function ChainOf(env: Env, writes: seq<Request>): (rows: seq<Row>)
    ensures |rows| == |writes|
  {
    if writes == [] then []
    else
      var n := |writes| - 1;
      var rest := ChainOf(env, writes[..n]);
      rest + [MakeRow(env, writes[n], n + 1, HashBefore(rest, n))]
  }

  /** The accepted writes of one organisation, in order. */
  function OrgLog(env: Env, reqs: seq<Request>, org: string): seq<Request> {
    if reqs == [] then []
    else
      var rest, last := OrgLog(env, reqs[..|reqs| - 1], org), reqs[|reqs| - 1];
      if Org(env, last) == org && Acceptable(last, |rest| + 1) then rest + [last] else rest
  }

  /** The two tables hold, for this organisation, the chain of these writes. */
  ghost predicate Holds(env: Env, t: Tables, org: string, writes: seq<Request>) {
    RowsOf(t.rows, org) == ChainOf(env, writes) && NextSeq(t, org) == |writes| + 1
  }

  lemma {:induction false} ChainOfAt(env: Env, writes: seq<Request>, i: nat)
    requires i < |writes|
    ensures ChainOf(env, writes)[i] == MakeRow(env, writes[i], i + 1, HashBefore(ChainOf(env, writes), i))
  {
    var n := |writes| - 1;
    if i < n {
      ChainOfAt(env, writes[..n], i);
    }
  }

  /** Dropping the last row of the table drops the last write of its organisation. */
  lemma RowsOfPrefix(env: Env, rows: seq<Row>, org: string, writes: seq<Request>)
    requires rows != [] && RowsOf(rows, org) == ChainOf(env, writes)
    ensures rows[|rows| - 1].org == org ==>
              writes != [] && RowsOf(rows[..|rows| - 1], org) == ChainOf(env, writes[..|writes| - 1])
              && rows[|rows| - 1].seqNum == |writes|
              && rows[|rows| - 1].hash == HashBefore(ChainOf(env, writes), |writes|)
    ensures rows[|rows| - 1].org != org ==> RowsOf(rows[..|rows| - 1], org) == ChainOf(env, writes)
  {
    var m, n := |rows| - 1, |writes| - 1;
    if rows[m].org == org {
      assert RowsOf(rows, org)[..n] == RowsOf(rows[..m], org);
      assert ChainOf(env, writes)[..n] == ChainOf(env, writes[..n]);
    }
  }

  lemma {:induction false} TopRowIsLast(env: Env, rows: seq<Row>, org: string, writes: seq<Request>)
    requires RowsOf(rows, org) == ChainOf(env, writes)
    ensures LastHash(rows, org) == HashBefore(ChainOf(env, writes), |writes|)
    ensures TopRow(rows, org).Some? ==> TopRow(rows, org).value.seqNum == |writes|
    ensures TopRow(rows, org).None? <==> writes == []
    decreases |rows|
  {
    if rows != [] {
      RowsOfPrefix(env, rows, org, writes);
      var own := rows[|rows| - 1].org == org;
      TopRowIsLast(env, rows[..|rows| - 1], org, if own then writes[..|writes| - 1] else writes);
    }
  }

  predicate NumbersUpTo(rows: seq<Row>, org: string, n: int) {
    forall i :: 0 <= i < |rows| && rows[i].org == org ==> rows[i].seqNum <= n
  }

  lemma {:induction false} NumbersBounded(env: Env, rows: seq<Row>, org: string, writes: seq<Request>)
    requires RowsOf(rows, org) == ChainOf(env, writes)
    ensures NumbersUpTo(rows, org, |writes|)
    decreases |rows|
  {
    if rows != [] {
      RowsOfPrefix(env, rows, org, writes);
      var own := rows[|rows| - 1].org == org;
      NumbersBounded(env, rows[..|rows| - 1], org, if own then writes[..|writes| - 1] else writes);
    }
  }

  /** On tables that hold the organisation's chain, a write succeeds exactly when it is acceptable. */
  lemma WriteOneExtends(env: Env, t: Tables, req: Request, writes: seq<Request>)
    requires Holds(env, t, Org(env, req), writes)
    ensures WriteOne(env, t, req).Ok? <==> Acceptable(req, |writes| + 1)
    ensures WriteOne(env, t, req).Ok? ==>
              WriteOne(env, t, req).value ==
              Committed(t, MakeRow(env, req, |writes| + 1, HashBefore(ChainOf(env, writes), |writes|)))
    ensures WriteOne(env, t, req).Ok? ==> Holds(env, WriteOne(env, t, req).value, Org(env, req), writes + [req])
  {
    var org := Org(env, req);
    TopRowIsLast(env, t.rows, org, writes);
    NumbersBounded(env, t.rows, org, writes);
    assert (writes + [req])[..|writes|] == writes;
    if WriteOne(env, t, req).Ok? {
      var t' := WriteOne(env, t, req).value;
      assert t'.rows[..|t.rows|] == t.rows;
    }
  }

  lemma WriteOneFrame(env: Env, t: Tables, req: Request, org: string, writes: seq<Request>)
    requires Holds(env, t, org, writes) && org != Org(env, req)
    ensures WriteOne(env, t, req).Ok? ==> Holds(env, WriteOne(env, t, req).value, org, writes)
  {
    if WriteOne(env, t, req).Ok? {
      assert WriteOne(env, t, req).value.rows[..|t.rows|] == t.rows;
    }
  }

  /** After any writes, every organisation's rows are the chain of its own accepted writes, numbered 1..n. */
  lemma {:induction false} SerialHolds(env: Env, reqs: seq<Request>, org: string)
    ensures Holds(env, Serial(env, reqs), org, OrgLog(env, reqs, org))
  {
    if reqs != [] {
      var m := |reqs| - 1;
      SerialHolds(env, reqs[..m], org);
      var writes := OrgLog(env, reqs[..m], org);
      if Org(env, reqs[m]) == org {
        WriteOneExtends(env, Serial(env, reqs[..m]), reqs[m], writes);
      } else {
        WriteOneFrame(env, Serial(env, reqs[..m]), reqs[m], org, writes);
      }
    }
  }

  // ----- Write and WriteBatch

  /** Where the database fails, if it does. */
  datatype Fault = NoFault | AtBegin | AtAlloc | AtRead | AtInsert | AtCommit

  function WriteResult(env: Env, t: Tables, req: Request, fault: Fault): Result<Tables, WriteError> {
    if fault.AtBegin? then Err(BeginError)
    else if fault.AtAlloc? then Err(AllocError)
    else if fault.AtRead? && WriteOne(env, t, req) != Err(AllocError) then Err(ReadError)
    else if fault.AtInsert? && (WriteOne(env, t, req).Ok?) then Err(InsertError)
    else if fault.AtCommit? && (WriteOne(env, t, req).Ok?) then Err(CommitError)
    else WriteOne(env, t, req)
  }

  function Outcome(r: Result<Tables, WriteError>): Option<WriteError> {
    match r case Ok(_) => None case Err(e) => Some(e)
  }

  /** Which statement a write fails at, if any, on tables that hold the organisation's chain. */
  lemma ErrorOf(env: Env, t: Tables, req: Request, writes: seq<Request>, fault: Fault)
    requires Holds(env, t, Org(env, req), writes)
    ensures
      Outcome(WriteResult(env, t, req, fault)) ==
      if fault.AtBegin? then Some(BeginError)
      else if fault.AtAlloc? || |writes| + 1 >= 9_223_372_036_854_775_807 then Some(AllocError)
      else if fault.AtRead? then Some(ReadError)
      else if req.entry.payload.None? then Some(MarshalError)
      else if fault.AtInsert? || |req.entry.event| > 50 then Some(InsertError)
      else if fault.AtCommit? then Some(CommitError)
      else None
  {
    WriteOneExtends(env, t, req, writes);
  }

  function After(env: Env, t: Tables, req: Request, fault: Fault): Tables {
    match WriteResult(env, t, req, fault) case Ok(t') => t' case Err(_) => t
  }

  /** What a batch leaves: the tables, and for each entry tried its error or none. */
  datatype Batch = Batch(tables: Tables, errs: seq<Option<WriteError>>)

  function Tried(env: Env, b: Batch, req: Request, fault: Fault): Batch {
    Batch(After(env, b.tables, req, fault), b.errs + [Outcome(WriteResult(env, b.tables, req, fault))])
  }

  function BatchOf(env: Env, t: Tables, reqs: seq<Request>, faults: seq<Fault>): Batch
    requires |reqs| == |faults|
  {
    if reqs == [] then Batch(t, [])
    else
      var m := |reqs| - 1;
      Tried(env, BatchOf(env, t, reqs[..m], faults[..m]), reqs[m], faults[m])
  }

  lemma BatchStep(env: Env, t: Tables, reqs: seq<Request>, faults: seq<Fault>, n: nat)
    requires |reqs| == |faults| && n < |reqs|
    ensures BatchOf(env, t, reqs[..n + 1], faults[..n + 1]) ==
            Tried(env, BatchOf(env, t, reqs[..n], faults[..n]), reqs[n], faults[n])
  {
    assert reqs[..n + 1][..n] == reqs[..n] && faults[..n + 1][..n] == faults[..n];
  }

  /** Each entry has its own outcome, on the tables that the entries before it left. */
  lemma {:induction false} BatchAt(env: Env, t: Tables, reqs: seq<Request>, faults: seq<Fault>, i: nat)
    requires |reqs| == |faults| && i < |reqs|
    ensures
      var before := BatchOf(env, t, reqs[..i], faults[..i]);
      && |BatchOf(env, t, reqs, faults).errs| == |reqs|
      && BatchOf(env, t, reqs, faults).errs[i] == Outcome(WriteResult(env, before.tables, reqs[i], faults[i]))
  {
    var m := |reqs| - 1;
    BatchLength(env, t, reqs[..m], faults[..m]);
    if i < m {
      BatchAt(env, t, reqs[..m], faults[..m], i);
      assert reqs[..m][..i] == reqs[..i] && faults[..m][..i] == faults[..i];
    }
  }

  lemma {:induction false} BatchLength(env: Env, t: Tables, reqs: seq<Request>, faults: seq<Fault>)
    requires |reqs| == |faults|
    ensures |BatchOf(env, t, reqs, faults).errs| == |reqs|
  {
    if reqs != [] {
      BatchLength(env, t, reqs[..|reqs| - 1], faults[..|reqs| - 1]);
    }
  }

  class Writer {
    const env: Env
    var tables: Tables

    constructor (env: Env)
      ensures this.env == env && tables == EMPTY_TABLES
    {
      this.env := env;
      tables := EMPTY_TABLES;
    }

    /** An error rolls back: only Commit makes the two tables change. */
    method Write(req: Request, fault: Fault) returns (err: Option<WriteError>)
      modifies this
      ensures err == Outcome(WriteResult(env, old(tables), req, fault))
      ensures err.None? ==> WriteOne(env, old(tables), req) == Ok(tables)
      ensures err.Some? ==> tables == old(tables)
    {
      if fault.AtBegin? { return Some(BeginError); }
      var snapshot := tables;
      var org := Org(env, req);

      if fault.AtAlloc? { return Some(AllocError); }
      var seqNum := AllocSeq(snapshot, org);
      if seqNum.None? { return Some(AllocError); }

      if fault.AtRead? { return Some(ReadError); }
      var prevHash := LastHash(snapshot.rows, org);

      if req.entry.payload.None? { return Some(MarshalError); }
      var row := MakeRow(env, req, seqNum.value, prevHash);

      if fault.AtInsert? || !Insertable(snapshot.rows, row) { return Some(InsertError); }
      if fault.AtCommit? { return Some(CommitError); }
      tables := Committed(snapshot, row);
      return None;
    }

    /** One transaction per entry: a failed entry does not stop the later ones. */
    method WriteBatch(reqs: seq<Request>, faults: seq<Fault>) returns (errs: seq<Option<WriteError>>)
      requires |faults| == |reqs|
      modifies this
      ensures Batch(tables, errs) == BatchOf(env, old(tables), reqs, faults)
    {
      errs := [];
      var i := 0;
      while i < |reqs|
        invariant 0 <= i <= |reqs|
        invariant Batch(tables, errs) == BatchOf(env, old(tables), reqs[..i], faults[..i])
      {
        BatchStep(env, old(tables), reqs, faults, i);
        var err := Write(reqs[i], faults[i]);
        errs := errs + [err];
        i := i + 1;
      }
      assert reqs[..i] == reqs && faults[..i] == faults;
    }
  }
}
