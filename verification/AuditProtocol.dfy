/**
 Concurrent Write transactions as a state machine. A transaction works on the committed state of the
 moment it began; serializable isolation lets it commit only if no write of the same organisation
 committed since, because both update that organisation's audit_seq row.
 */
module AuditProtocol {
  import opened Wrappers
  import opened AuditChain
  import opened AuditWriter

  datatype Phase =
    | Begun
    | Allocated(seqNum: int)
    | HashRead(seqNum: int, prev: string)
    | Inserted(row: Row)

  /** at is how many writes had committed when the transaction began, snapshot what it sees of them. */
  datatype Tx = Tx(req: Request, at: nat, snapshot: Tables, phase: Phase)

  /** log lists the committed writes in commit order. */
  datatype Db = Db(tables: Tables, active: map<nat, Tx>, log: seq<Request>)

  const EMPTY_DB := Db(EMPTY_TABLES, map[], [])

  datatype Step = Begin(tx: nat, req: Request) | Alloc(tx: nat) | ReadHash(tx: nat) | Insert(tx: nat)
                | Commit(tx: nat) | Abort(tx: nat)

  function Drop(db: Db, tx: nat): Db {
    db.(active := db.active - {tx})
  }

  function Put(db: Db, tx: nat, t: Tx): Db {
    db.(active := db.active[tx := t])
  }

  predicate Conflict(env: Env, db: Db, t: Tx) {
    exists i :: t.at <= i < |db.log| && Org(env, db.log[i]) == Org(env, t.req)
  }

  /** A step that its transaction cannot take changes nothing; a statement that fails drops the transaction. */
  function Apply(env: Env, db: Db, step: Step): Db {
    if step.Begin? then
      if step.tx in db.active then db else Put(db, step.tx, Tx(step.req, |db.log|, db.tables, Begun))
    else if step.tx !in db.active then db
    else
      var t := db.active[step.tx];
      var org := Org(env, t.req);
      match (step, t.phase)
      case (Alloc(_), Begun) =>
        var seqNum := AllocSeq(t.snapshot, org);
        if seqNum.None? then Drop(db, step.tx) else Put(db, step.tx, t.(phase := Allocated(seqNum.value)))
      case (ReadHash(_), Allocated(n)) =>
        Put(db, step.tx, t.(phase := HashRead(n, LastHash(t.snapshot.rows, org))))
      case (Insert(_), HashRead(n, prev)) =>
        if t.req.entry.payload.None? then Drop(db, step.tx)
        else
          var row := MakeRow(env, t.req, n, prev);
          if Insertable(t.snapshot.rows, row) then Put(db, step.tx, t.(phase := Inserted(row))) else Drop(db, step.tx)
      case (Commit(_), Inserted(row)) =>
        if Conflict(env, db, t) then Drop(db, step.tx)
        else Db(Committed(db.tables, row), db.active - {step.tx}, db.log + [t.req])
      case (Abort(_), _) => Drop(db, step.tx)
      case _ => db
  }

  function Run(env: Env, steps: seq<Step>): Db {
    if steps == [] then EMPTY_DB else Apply(env, Run(env, steps[..|steps| - 1]), steps[|steps| - 1])
  }

  // ----- The invariant of every interleaving

  /** What the phase records is what the transaction run alone on its snapshot computes. */
  ghost predicate TxOk(env: Env, db: Db, t: Tx) {
    var org := Org(env, t.req);
    && t.at <= |db.log|
    && t.snapshot == Serial(env, db.log[..t.at])
    && match t.phase
       case Begun => true
       case Allocated(n) => AllocSeq(t.snapshot, org) == Some(n)
       case HashRead(n, prev) => AllocSeq(t.snapshot, org) == Some(n) && prev == LastHash(t.snapshot.rows, org)
       case Inserted(row) => WriteOne(env, t.snapshot, t.req) == Ok(Committed(t.snapshot, row)) && row.org == org
  }

  ghost predicate Inv(env: Env, db: Db) {
    && db.tables == Serial(env, db.log)
    && AllSucceed(env, db.log)
    && (forall tx :: tx in db.active ==> TxOk(env, db, db.active[tx]))
  }

  /** Writes of other organisations do not touch what this organisation's transaction reads. */
  lemma {:induction false} OrgLogSkips(env: Env, log: seq<Request>, at: nat, org: string)
    requires at <= |log| && forall i :: at <= i < |log| ==> Org(env, log[i]) != org
    ensures OrgLog(env, log, org) == OrgLog(env, log[..at], org)
  {
    if |log| > at {
      var m := |log| - 1;
      OrgLogSkips(env, log[..m], at, org);
      assert log[..m][..at] == log[..at];
    } else {
      assert log[..at] == log;
    }
  }

  /** First committer wins: a transaction that passes the conflict test commits what it would compute now. */
  lemma CommitIsSerial(env: Env, db: Db, t: Tx)
    requires Inv(env, db) && TxOk(env, db, t) && t.phase.Inserted? && !Conflict(env, db, t)
    ensures WriteOne(env, db.tables, t.req) == Ok(Committed(db.tables, t.phase.row))
  {
    var org := Org(env, t.req);
    OrgLogSkips(env, db.log, t.at, org);
    SerialHolds(env, db.log, org);
    SerialHolds(env, db.log[..t.at], org);
    var writes := OrgLog(env, db.log, org);
    WriteOneExtends(env, t.snapshot, t.req, writes);
    WriteOneExtends(env, db.tables, t.req, writes);
    var row := MakeRow(env, t.req, |writes| + 1, HashBefore(ChainOf(env, writes), |writes|));
    SameRowCommitted(t.snapshot, t.phase.row, row);
  }

  lemma SameRowCommitted(t: Tables, a: Row, b: Row)
    requires Committed(t, a) == Committed(t, b)
    ensures a == b
  {
    assert Committed(t, a).rows[|t.rows|] == a && Committed(t, b).rows[|t.rows|] == b;
  }

  /** A step other than a commit leaves the tables and the log, and keeps its own transaction in order. */
  lemma AdvanceOk(env: Env, db: Db, step: Step)
    requires step.tx in db.active && TxOk(env, db, db.active[step.tx])
    requires !(step.Commit? && db.active[step.tx].phase.Inserted? && !Conflict(env, db, db.active[step.tx]))
    ensures
      var db' := Apply(env, db, step);
      && db'.tables == db.tables && db'.log == db.log
      && (forall tx :: tx in db'.active ==> tx in db.active && (tx == step.tx || db'.active[tx] == db.active[tx]))
      && (step.tx in db'.active ==> TxOk(env, db', db'.active[step.tx]))
  {
  }

  lemma ApplyKeepsInv(env: Env, db: Db, step: Step)
    requires Inv(env, db)
    ensures Inv(env, Apply(env, db, step))
  {
    var db' := Apply(env, db, step);
    if step.tx !in db.active {
      assert db.log[..|db.log|] == db.log;
    } else {
      var t := db.active[step.tx];
      assert TxOk(env, db, t);
      if step.Commit? && t.phase.Inserted? && !Conflict(env, db, t) {
        CommitIsSerial(env, db, t);
        CommitKeepsInv(env, db, db', t);
      } else {
        AdvanceOk(env, db, step);
        OthersOk(env, db, db', step.tx);
      }
    }
  }

  lemma OthersOk(env: Env, db: Db, db': Db, own: nat)
    requires Inv(env, db) && db'.tables == db.tables && db'.log == db.log
    requires forall tx :: tx in db'.active ==> tx in db.active && (tx == own || db'.active[tx] == db.active[tx])
    requires own in db'.active ==> TxOk(env, db', db'.active[own])
    ensures Inv(env, db')
  {
    forall tx | tx in db'.active ensures TxOk(env, db', db'.active[tx]) {
      assert TxOk(env, db, db.active[tx]);
    }
  }

  lemma CommitKeepsInv(env: Env, db: Db, db': Db, t: Tx)
    requires Inv(env, db) && t.phase.Inserted?
    requires WriteOne(env, db.tables, t.req) == Ok(Committed(db.tables, t.phase.row))
    requires db'.log == db.log + [t.req] && db'.tables == Committed(db.tables, t.phase.row)
    requires db'.active.Keys <= db.active.Keys
    requires forall tx :: tx in db'.active ==> db'.active[tx] == db.active[tx]
    ensures Inv(env, db')
  {
    var n := |db.log|;
    assert db'.log[..n] == db.log;
    forall i | 0 <= i <= n ensures db'.log[..i] == db.log[..i] {
    }
    forall tx | tx in db'.active ensures TxOk(env, db', db'.active[tx]) {
      assert TxOk(env, db, db.active[tx]);
    }
    forall i | 0 <= i < |db'.log| ensures WriteOne(env, Serial(env, db'.log[..i]), db'.log[i]).Ok? {
      if i < n {
        assert db'.log[i] == db.log[i];
      }
    }
  }

  lemma {:induction false} RunKeepsInv(env: Env, steps: seq<Step>)
    ensures Inv(env, Run(env, steps))
  {
    if steps != [] {
      var m := |steps| - 1;
      RunKeepsInv(env, steps[..m]);
      ApplyKeepsInv(env, Run(env, steps[..m]), steps[m]);
    }
  }

  /** The committed writes of one organisation, in commit order. */
  function Commits(env: Env, log: seq<Request>, org: string): seq<Request> {
    if log == [] then []
    else
      var rest, last := Commits(env, log[..|log| - 1], org), log[|log| - 1];
      if Org(env, last) == org then rest + [last] else rest
  }

  /** Every write of the list succeeds on the tables that the writes before it leave. */
  ghost predicate AllSucceed(env: Env, log: seq<Request>) {
    forall i :: 0 <= i < |log| ==> WriteOne(env, Serial(env, log[..i]), log[i]).Ok?
  }

  lemma AllSucceedBefore(env: Env, log: seq<Request>)
    requires log != [] && AllSucceed(env, log)
    ensures AllSucceed(env, log[..|log| - 1])
  {
    var m := |log| - 1;
    forall i | 0 <= i < m ensures WriteOne(env, Serial(env, log[..m][..i]), log[..m][i]).Ok? {
      assert log[..m][..i] == log[..i];
    }
  }

  lemma LastIsAccepted(env: Env, log: seq<Request>)
    requires log != [] && AllSucceed(env, log)
    ensures
      var m := |log| - 1;
      Acceptable(log[m], |OrgLog(env, log[..m], Org(env, log[m]))| + 1)
  {
    var m := |log| - 1;
    var org := Org(env, log[m]);
    assert WriteOne(env, Serial(env, log[..m]), log[m]).Ok?;
    SerialHolds(env, log[..m], org);
    WriteOneExtends(env, Serial(env, log[..m]), log[m], OrgLog(env, log[..m], org));
  }

  /** Every committed write was acceptable, so none is missing from its organisation's chain. */
  lemma {:induction false} CommitsAreAccepted(env: Env, log: seq<Request>, org: string)
    requires AllSucceed(env, log)
    ensures Commits(env, log, org) == OrgLog(env, log, org)
    decreases |log|
  {
    if log != [] {
      AllSucceedBefore(env, log);
      CommitsAreAccepted(env, log[..|log| - 1], org);
      LastIsAccepted(env, log);
    }
  }

  /** Row i records the i-th write under number i + 1, linked to the row before it, hashed over the write and signed. */
  predicate RecordsAt(env: Env, rows: seq<Row>, writes: seq<Request>, i: nat)
    requires |rows| == |writes| && i < |rows|
  {
    var r, e := rows[i], writes[i].entry;
    && r.id == writes[i].rowId && r.createdAt == e.at && r.event == e.event && Some(r.payload) == e.payload
    && r.seqNum == i + 1 && r.prev == HashBefore(rows, i)
    && r.hash == env.sha(RawText(i + 1, e.org, e.event, r.payload, r.prev)) && r.sig == env.sign(r.hash)
  }

  lemma {:induction false} AcceptedHavePayload(env: Env, log: seq<Request>, org: string, i: nat)
    requires i < |OrgLog(env, log, org)|
    ensures OrgLog(env, log, org)[i].entry.payload.Some?
  {
    var m := |log| - 1;
    if i < |OrgLog(env, log[..m], org)| {
      AcceptedHavePayload(env, log[..m], org, i);
    }
  }

  lemma ChainRecords(env: Env, writes: seq<Request>, i: nat)
    requires i < |writes| && writes[i].entry.payload.Some?
    ensures RecordsAt(env, ChainOf(env, writes), writes, i)
  {
    ChainOfAt(env, writes, i);
  }

  /**
   For every interleaving: the tables are those of the committed writes run one at a time in commit
   order, and each organisation's rows are the chain of its own commits, numbered 1..n without a gap
   for aborted writes, each prev_hash its predecessor's entry_hash, with next_seq = n + 1.
   */
  lemma InterleavingsAreSerial(env: Env, steps: seq<Step>, org: string)
    ensures
      var db := Run(env, steps);
      var writes := Commits(env, db.log, org);
      var rows := RowsOf(db.tables.rows, org);
      && db.tables == Serial(env, db.log)
      && |rows| == |writes| && NextSeq(db.tables, org) == |writes| + 1
      && forall i :: 0 <= i < |rows| ==> RecordsAt(env, rows, writes, i)
  {
    var db := Run(env, steps);
    RunKeepsInv(env, steps);
    CommitsAreAccepted(env, db.log, org);
    SerialHolds(env, db.log, org);
    var writes := Commits(env, db.log, org);
    forall i | 0 <= i < |writes| ensures RecordsAt(env, ChainOf(env, writes), writes, i) {
      AcceptedHavePayload(env, db.log, org, i);
      ChainRecords(env, writes, i);
    }
  }

  /** One transaction run without interruption commits exactly when WriteOne succeeds, with its tables. */
  lemma AloneIsWriteOne(env: Env, db: Db, tx: nat, req: Request)
    requires tx !in db.active
    ensures
      var db' := Apply(env, Apply(env, Apply(env, Apply(env, Apply(env, db,
                   Begin(tx, req)), Alloc(tx)), ReadHash(tx)), Insert(tx)), Commit(tx));
      match WriteOne(env, db.tables, req)
      case Ok(t) => db'.tables == t && db'.log == db.log + [req]
      case Err(_) => db'.tables == db.tables && db'.log == db.log
  {
    var db1 := Apply(env, db, Begin(tx, req));
    var db2 := Apply(env, db1, Alloc(tx));
    if AllocSeq(db.tables, Org(env, req)).Some? {
      var db3 := Apply(env, db2, ReadHash(tx));
      var db4 := Apply(env, db3, Insert(tx));
      if WriteOne(env, db.tables, req).Ok? {
        assert db4.active[tx].phase.Inserted? && !Conflict(env, db4, db4.active[tx]);
      }
    }
  }
}
