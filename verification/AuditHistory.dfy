/** What the steps themselves say of a committed write: a whole transaction, never rolled back. */
module AuditHistory {
  import opened Wrappers
  import opened AuditChain
  import opened AuditWriter
  import opened AuditProtocol

  /** The positions of the statements of one transaction. */
  datatype Life = Life(tx: nat, begin: nat, alloc: nat, read: nat, insert: nat, commit: nat)

  /** No rollback of the transaction between two positions. */
  predicate NoAbort(steps: seq<Step>, tx: nat, from: nat, to: nat) {
    forall k :: from < k < to && k < |steps| ==> steps[k] != Abort(tx)
  }

  /** A transaction of this request from its Begin to its Commit, every statement in order, with no rollback. */
  ghost predicate Whole(steps: seq<Step>, f: Life, req: Request) {
    && f.begin < f.alloc < f.read < f.insert < f.commit < |steps|
    && steps[f.begin] == Begin(f.tx, req) && steps[f.alloc] == Alloc(f.tx) && steps[f.read] == ReadHash(f.tx)
    && steps[f.insert] == Insert(f.tx) && steps[f.commit] == Commit(f.tx)
    && NoAbort(steps, f.tx, f.begin, f.commit)
  }

  /** The first commits before the second, and before it begins if they have one transaction number. */
  predicate Precedes(f: Life, g: Life) {
    f.commit < g.commit && (f.tx == g.tx ==> f.commit < g.begin)
  }

  /** One whole transaction for each write of the log, in commit order; one Begin is good for one commit. */
  ghost predicate Lived(steps: seq<Step>, lives: seq<Life>, log: seq<Request>) {
    && |lives| == |log|
    && (forall l :: 0 <= l < |lives| ==> Whole(steps, lives[l], log[l]))
    && (forall l, m :: 0 <= l < m < |lives| ==> Precedes(lives[l], lives[m]))
  }

  /** The statements that an open transaction has behind it. */
  ghost predicate PartOk(env: Env, steps: seq<Step>, f: Life, tx: nat, t: Tx) {
    && f.tx == tx && f.begin < |steps| && steps[f.begin] == Begin(tx, t.req) && NoAbort(steps, tx, f.begin, |steps|)
    && t.at == |Run(env, steps[..f.begin]).log|
    && (!t.phase.Begun? ==> f.begin < f.alloc < |steps| && steps[f.alloc] == Alloc(tx))
    && (t.phase.HashRead? || t.phase.Inserted? ==> f.alloc < f.read < |steps| && steps[f.read] == ReadHash(tx))
    && (t.phase.Inserted? ==> f.read < f.insert < |steps| && steps[f.insert] == Insert(tx))
  }

  /** The transaction committed nothing from this position on. */
  predicate Since(lives: seq<Life>, tx: nat, begin: nat) {
    forall l :: 0 <= l < |lives| && lives[l].tx == tx ==> lives[l].commit < begin
  }

  ghost predicate OpenAt(env: Env, steps: seq<Step>, f: Life, lives: seq<Life>, tx: nat, t: Tx) {
    PartOk(env, steps, f, tx, t) && Since(lives, tx, f.begin)
  }

  ghost predicate OpenOk(env: Env, steps: seq<Step>, open: map<nat, Life>, lives: seq<Life>, active: map<nat, Tx>) {
    forall tx :: tx in active ==> tx in open && OpenAt(env, steps, open[tx], lives, tx, active[tx])
  }

  /** Where the statement of this step goes in the life of its transaction, n being its position. */
  function Noted(f: Life, step: Step, n: nat): Life {
    match step
    case Begin(tx, _) => Life(tx, n, n, n, n, n)
    case Alloc(_) => f.(alloc := n)
    case ReadHash(_) => f.(read := n)
    case Insert(_) => f.(insert := n)
    case Commit(_) => f.(commit := n)
    case Abort(_) => f
  }

  lemma StaysOut(env: Env, db: Db, step: Step, tx: nat)
    requires tx !in db.active && (step.Begin? ==> step.tx != tx)
    ensures tx !in Apply(env, db, step).active
  {
  }

  lemma WholeStays(steps: seq<Step>, step: Step, f: Life, req: Request)
    requires Whole(steps, f, req)
    ensures Whole(steps + [step], f, req)
  {
  }

  lemma PartStays(env: Env, steps: seq<Step>, step: Step, f: Life, tx: nat, t: Tx)
    requires PartOk(env, steps, f, tx, t) && step != Abort(tx)
    ensures PartOk(env, steps + [step], f, tx, t)
  {
    assert (steps + [step])[..f.begin] == steps[..f.begin];
  }

  /** What a step does to its own transaction and to the log, other transactions being left alone. */
  lemma StepEffect(env: Env, db: Db, step: Step)
    ensures
      var db' := Apply(env, db, step);
      && (forall tx :: tx != step.tx ==> (tx in db'.active <==> tx in db.active)
                                         && (tx in db.active ==> db'.active[tx] == db.active[tx]))
      && (step.Abort? ==> step.tx !in db'.active && db'.tables == db.tables && db'.log == db.log)
      && (!step.Commit? ==> db'.tables == db.tables && db'.log == db.log)
  {
  }

  /** The life of a transaction so far, if it has one. */
  function LifeOf(open: map<nat, Life>, tx: nat, n: nat): Life {
    if tx in open then open[tx] else Life(tx, n, n, n, n, n)
  }

  /** The life of a step's own transaction after it, as long as it is open. */
  function Next(db: Db, db': Db, f: Life, step: Step, n: nat): Life {
    if step.tx in db.active && step.tx in db'.active && db'.active[step.tx] == db.active[step.tx] then f
    else Noted(f, step, n)
  }

  lemma BeginPart(env: Env, steps: seq<Step>, step: Step, f: Life)
    requires step.Begin? && step.tx !in Run(env, steps).active
    ensures
      var db' := Apply(env, Run(env, steps), step);
      step.tx in db'.active
      && PartOk(env, steps + [step], Noted(f, step, |steps|), step.tx, db'.active[step.tx])
  {
    assert (steps + [step])[..|steps|] == steps;
  }

  lemma OwnPart(env: Env, steps: seq<Step>, step: Step, f: Life)
    requires step.tx in Run(env, steps).active && PartOk(env, steps, f, step.tx, Run(env, steps).active[step.tx])
    ensures
      var db := Run(env, steps);
      var db' := Apply(env, db, step);
      step.tx in db'.active ==>
        PartOk(env, steps + [step], Next(db, db', f, step, |steps|), step.tx, db'.active[step.tx])
        && Next(db, db', f, step, |steps|).begin == f.begin
  {
    var db' := Apply(env, Run(env, steps), step);
    if step.tx in db'.active {
      PartStays(env, steps, step, f, step.tx, Run(env, steps).active[step.tx]);
    }
  }

  /** A step that adds to the log is the commit of an open transaction with all its statements behind it. */
  lemma CommitPart(env: Env, steps: seq<Step>, step: Step, f: Life)
    requires step.tx in Run(env, steps).active ==> PartOk(env, steps, f, step.tx, Run(env, steps).active[step.tx])
    requires Apply(env, Run(env, steps), step).log != Run(env, steps).log
    ensures
      var db := Run(env, steps);
      var db' := Apply(env, db, step);
      && step.tx in db.active && step.tx !in db'.active
      && db'.log == db.log + [db.active[step.tx].req]
      && Whole(steps + [step], f.(commit := |steps|), db.active[step.tx].req)
  {
  }

  lemma LivedMore(steps: seq<Step>, step: Step, lives: seq<Life>, log: seq<Request>, f: Life, req: Request)
    requires Lived(steps, lives, log) && Whole(steps + [step], f, req) && f.commit == |steps|
    requires Since(lives, f.tx, f.begin)
    ensures Lived(steps + [step], lives + [f], log + [req])
  {
    LivedStays(steps, step, lives, log);
    var lives', log' := lives + [f], log + [req];
    forall l | 0 <= l < |lives'| ensures Whole(steps + [step], lives'[l], log'[l]) {
      if l < |lives| {
        assert lives'[l] == lives[l] && log'[l] == log[l];
      }
    }
    forall l, m | 0 <= l < m < |lives'| ensures Precedes(lives'[l], lives'[m]) {
      assert lives'[l] == lives[l];
      if m < |lives| {
        assert lives'[m] == lives[m];
      }
    }
  }

  lemma LivedStays(steps: seq<Step>, step: Step, lives: seq<Life>, log: seq<Request>)
    requires Lived(steps, lives, log)
    ensures Lived(steps + [step], lives, log)
    ensures forall l :: 0 <= l < |lives| ==> lives[l].commit < |steps|
  {
    forall l | 0 <= l < |lives| ensures Whole(steps + [step], lives[l], log[l]) && lives[l].commit < |steps| {
      WholeStays(steps, step, lives[l], log[l]);
    }
  }

  lemma OpenAtStays(env: Env, steps: seq<Step>, step: Step, f: Life, lives: seq<Life>, lives': seq<Life>,
                    tx: nat, t: Tx)
    requires OpenAt(env, steps, f, lives, tx, t) && step.tx != tx && lives <= lives'
    requires forall l :: |lives| <= l < |lives'| ==> lives'[l].tx == step.tx
    ensures OpenAt(env, steps + [step], f, lives', tx, t)
  {
    PartStays(env, steps, step, f, tx, t);
    forall l | 0 <= l < |lives'| && lives'[l].tx == tx ensures lives'[l].commit < f.begin {
      assert lives'[l] == lives[l];
    }
  }

  /** The open transactions after a step, given that of the step itself; it may have been committed. */
  lemma OpenStays(env: Env, steps: seq<Step>, step: Step, open: map<nat, Life>, lives: seq<Life>,
                  f: Life, lives': seq<Life>, active: map<nat, Tx>, active': map<nat, Tx>)
    requires OpenOk(env, steps, open, lives, active) && lives <= lives'
    requires forall l :: |lives| <= l < |lives'| ==> lives'[l].tx == step.tx
    requires forall tx :: tx in active' && tx != step.tx ==> tx in active && active'[tx] == active[tx]
    requires step.tx in active' ==> OpenAt(env, steps + [step], f, lives', step.tx, active'[step.tx])
    ensures OpenOk(env, steps + [step], open[step.tx := f], lives', active')
  {
    forall tx | tx in active' && tx != step.tx
      ensures tx in open && OpenAt(env, steps + [step], open[tx], lives', tx, active'[tx])
    {
      OpenAtStays(env, steps, step, open[tx], lives, lives', tx, active[tx]);
    }
  }

  /** A transaction that begins now has committed nothing from now on. */
  lemma SinceNow(steps: seq<Step>, lives: seq<Life>, log: seq<Request>, tx: nat)
    requires Lived(steps, lives, log)
    ensures Since(lives, tx, |steps|)
  {
    forall l | 0 <= l < |lives| ensures lives[l].commit < |steps| {
      assert Whole(steps, lives[l], log[l]);
    }
  }

  lemma NoCommitIsLived(env: Env, steps: seq<Step>, step: Step, lives: seq<Life>, open: map<nat, Life>)
    returns (open': map<nat, Life>)
    requires Lived(steps, lives, Run(env, steps).log) && OpenOk(env, steps, open, lives, Run(env, steps).active)
    requires Apply(env, Run(env, steps), step).log == Run(env, steps).log
    ensures OpenOk(env, steps + [step], open', lives, Apply(env, Run(env, steps), step).active)
  {
    var db, db' := Run(env, steps), Apply(env, Run(env, steps), step);
    var n, tx := |steps|, step.tx;
    var f := LifeOf(open, tx, n);
    var f' := Next(db, db', f, step, n);
    if tx in db.active {
      assert OpenAt(env, steps, f, lives, tx, db.active[tx]);
      OwnPart(env, steps, step, f);
    } else if step.Begin? {
      BeginPart(env, steps, step, f);
      SinceNow(steps, lives, db.log, tx);
    } else {
      StaysOut(env, db, step, tx);
    }
    StepEffect(env, db, step);
    OpenStays(env, steps, step, open, lives, f', lives, db.active, db'.active);
    open' := open[tx := f'];
  }

  lemma StepIsLived(env: Env, steps: seq<Step>, step: Step, lives: seq<Life>, open: map<nat, Life>)
    returns (lives': seq<Life>, open': map<nat, Life>)
    requires Lived(steps, lives, Run(env, steps).log) && OpenOk(env, steps, open, lives, Run(env, steps).active)
    ensures Lived(steps + [step], lives', Apply(env, Run(env, steps), step).log)
    ensures OpenOk(env, steps + [step], open', lives', Apply(env, Run(env, steps), step).active)
  {
    var db, db' := Run(env, steps), Apply(env, Run(env, steps), step);
    var n, tx := |steps|, step.tx;
    LivedStays(steps, step, lives, db.log);
    if db'.log != db.log {
      StepEffect(env, db, step);
      var f := LifeOf(open, tx, n);
      assert tx in db.active ==> OpenAt(env, steps, f, lives, tx, db.active[tx]);
      CommitPart(env, steps, step, f);
      var done := f.(commit := n);
      LivedMore(steps, step, lives, db.log, done, db.active[tx].req);
      lives' := lives + [done];
      OpenStays(env, steps, step, open, lives, f, lives', db.active, db'.active);
      open' := open[tx := f];
    } else {
      lives' := lives;
      open' := NoCommitIsLived(env, steps, step, lives, open);
    }
  }

  /**
   For every interleaving, from the steps alone: each committed write was begun, allocated, read, inserted and
   committed by its own transaction in that order, and not rolled back in between; commits are in log order,
   and no Begin serves two of them.
   */
  lemma {:induction false} RunIsLived(env: Env, steps: seq<Step>) returns (lives: seq<Life>, open: map<nat, Life>)
    ensures Lived(steps, lives, Run(env, steps).log)
    ensures OpenOk(env, steps, open, lives, Run(env, steps).active)
  {
    lives, open := [], map[];
    if steps != [] {
      var n := |steps| - 1;
      lives, open := RunIsLived(env, steps[..n]);
      lives, open := StepIsLived(env, steps[..n], steps[n], lives, open);
      assert steps[..n] + [steps[n]] == steps;
    }
  }

  lemma LogIsLived(env: Env, steps: seq<Step>) returns (lives: seq<Life>)
    ensures Lived(steps, lives, Run(env, steps).log)
  {
    var open;
    lives, open := RunIsLived(env, steps);
  }

  // ----- After a rollback

  predicate NoBegin(steps: seq<Step>, tx: nat) {
    forall k :: 0 <= k < |steps| && steps[k].Begin? ==> steps[k].tx != tx
  }

  lemma RunStep(env: Env, steps: seq<Step>, step: Step)
    ensures Run(env, steps + [step]) == Apply(env, Run(env, steps), step)
  {
    assert (steps + [step])[..|steps|] == steps;
  }

  /** Once rolled back a transaction is over: until it begins again its steps change nothing at all. */
  lemma {:induction false} NothingAfterAbort(env: Env, steps: seq<Step>, tx: nat, more: seq<Step>, step: Step)
    requires NoBegin(more, tx) && step.tx == tx && !step.Begin?
    ensures tx !in Run(env, steps + [Abort(tx)] + more).active
    ensures Run(env, steps + [Abort(tx)] + more + [step]) == Run(env, steps + [Abort(tx)] + more)
    decreases |more|
  {
    var all := steps + [Abort(tx)] + more;
    if more == [] {
      assert all == steps + [Abort(tx)];
      RunStep(env, steps, Abort(tx));
    } else {
      var n := |more| - 1;
      NothingAfterAbort(env, steps, tx, more[..n], step);
      assert all == steps + [Abort(tx)] + more[..n] + [more[n]];
      RunStep(env, steps + [Abort(tx)] + more[..n], more[n]);
      StepEffect(env, Run(env, steps + [Abort(tx)] + more[..n]), more[n]);
      StaysOut(env, Run(env, steps + [Abort(tx)] + more[..n]), more[n], tx);
    }
    RunStep(env, all, step);
    assert !(step.tx in Run(env, all).active);
  }

  /** So a rollback undoes the whole transaction: tables and log are as if it had not been taken. */
  lemma AbortUndoes(env: Env, steps: seq<Step>, tx: nat)
    ensures Run(env, steps + [Abort(tx)]).tables == Run(env, steps).tables
    ensures Run(env, steps + [Abort(tx)]).log == Run(env, steps).log
    ensures tx !in Run(env, steps + [Abort(tx)]).active
  {
    RunStep(env, steps, Abort(tx));
    StepEffect(env, Run(env, steps), Abort(tx));
  }

  // ----- Which commits go through

  lemma CommitLog(env: Env, db: Db, tx: nat)
    requires tx in db.active && db.active[tx].phase.Inserted?
    ensures
      var req := db.active[tx].req;
      Apply(env, db, Commit(tx)).log == if Conflict(env, db, db.active[tx]) then db.log else db.log + [req]
    ensures db.log + [db.active[tx].req] != db.log
  {
    assert |db.log + [db.active[tx].req]| == |db.log| + 1;
  }

  lemma OpenSince(env: Env, steps: seq<Step>, tx: nat) returns (begin: nat)
    requires tx in Run(env, steps).active
    ensures
      var t := Run(env, steps).active[tx];
      && begin < |steps| && steps[begin] == Begin(tx, t.req) && NoAbort(steps, tx, begin, |steps|)
      && t.at == |Run(env, steps[..begin]).log| && t.at <= |Run(env, steps).log|
  {
    var lives, open := RunIsLived(env, steps);
    assert OpenAt(env, steps, open[tx], lives, tx, Run(env, steps).active[tx]);
    RunKeepsInv(env, steps);
    assert TxOk(env, Run(env, steps), Run(env, steps).active[tx]);
    begin := open[tx].begin;
  }

  /**
   A transaction that has inserted its row commits exactly when no write of its own organisation committed
   since its Begin: writes of other organisations never stand in its way.
   */
  lemma CommitsIff(env: Env, steps: seq<Step>, tx: nat) returns (begin: nat)
    requires tx in Run(env, steps).active && Run(env, steps).active[tx].phase.Inserted?
    ensures
      var db := Run(env, steps);
      var req := db.active[tx].req;
      && begin < |steps| && steps[begin] == Begin(tx, req) && NoAbort(steps, tx, begin, |steps|)
      && |Run(env, steps[..begin]).log| <= |db.log|
      && (Run(env, steps + [Commit(tx)]).log == db.log + [req] <==>
            forall i :: |Run(env, steps[..begin]).log| <= i < |db.log| ==>
              env.orgText(db.log[i].entry.org) != env.orgText(req.entry.org))
      && (Run(env, steps + [Commit(tx)]).log == db.log + [req] || Run(env, steps + [Commit(tx)]).log == db.log)
  {
    begin := OpenSince(env, steps, tx);
    RunStep(env, steps, Commit(tx));
    CommitLog(env, Run(env, steps), tx);
  }
}
