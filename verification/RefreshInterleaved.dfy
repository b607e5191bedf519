/**
 Rotations whose Redis commands interleave. A rotation reads the session, deletes it and stores a new one
 in three commands, and does not look at whether its deletion found anything.
 */
module RefreshInterleaved {
  import opened Wrappers
  import opened Sets
  import opened RefreshSessions

  /** Where a rotation is. took tells whether its own deletion found the session. */
  datatype Call =
    | Passed(sessionId: string, user: string)
    | Refused(sessionId: string)
    | Deleting(sessionId: string, user: string, took: bool)
    | Renewed(sessionId: string, user: string, took: bool)
    | Over

  /** created counts logins, ended the sessions removed by a logout or a token mismatch. */
  datatype Machine = Machine(store: Store, calls: map<nat, Call>, created: nat, ended: nat)

  const START := Machine(EMPTY, map[], 0, 0)

  datatype Step =
    | Login(user: string, sessionId: string)
    | Check(call: nat, raw: string)
    | Delete(call: nat)
    | Renew(call: nat, newId: string)
    | Logout(raw: string)
    | Advance(seconds: nat)

  /** A deletion that is not part of a successful rotation. */
  function End(m: Machine, sessionId: string): Machine {
    m.(store := Deleted(m.store, sessionId), ended := m.ended + if sessionId in m.store.sessions then 1 else 0)
  }

  function Checked(env: Env, s: Store, raw: string): Call {
    match RotateResult(env, s, raw)
    case Ok(user) => Passed(SplitCookie(raw).value.0, user)
    case Err(Mismatch) => Refused(SplitCookie(raw).value.0)
    case Err(_) => Over
  }

  /** A step that its rotation cannot take changes nothing. */
  function Apply(env: Env, m: Machine, step: Step): Machine {
    match step
    case Login(user, sessionId) =>
      if Fresh(m.store, sessionId)
      then m.(store := Created(env, m.store, user, sessionId), created := m.created + 1) else m
    case Check(call, raw) => if call in m.calls then m else m.(calls := m.calls[call := Checked(env, m.store, raw)])
    case Delete(call) =>
      if call !in m.calls then m
      else
        (match m.calls[call]
         case Passed(sessionId, user) =>
           m.(store := Deleted(m.store, sessionId),
              calls := m.calls[call := Deleting(sessionId, user, sessionId in m.store.sessions)])
         case Refused(sessionId) => End(m, sessionId).(calls := m.calls[call := Over])
         case _ => m)
    case Renew(call, newId) =>
      if call in m.calls && m.calls[call].Deleting? && Fresh(m.store, newId) then
        var c := m.calls[call];
        m.(store := Created(env, m.store, c.user, newId),
           calls := m.calls[call := Renewed(c.sessionId, c.user, c.took)])
      else m
    case Logout(raw) => if SplitCookie(raw).None? then m else End(m, SplitCookie(raw).value.0)
    case Advance(seconds) => m.(store := m.store.(now := m.store.now + seconds))
  }

  function RunFrom(env: Env, m: Machine, steps: seq<Step>): Machine {
    if steps == [] then m else Apply(env, RunFrom(env, m, steps[..|steps| - 1]), steps[|steps| - 1])
  }

  function Run(env: Env, steps: seq<Step>): Machine {
    RunFrom(env, START, steps)
  }

  /** The three commands in a row do what the whole rotation does. */
  lemma AloneIsRotated(env: Env, m: Machine, call: nat, raw: string, newId: string)
    requires call !in m.calls && Fresh(m.store, newId)
    ensures
      var m' := Apply(env, Apply(env, Apply(env, m, Check(call, raw)), Delete(call)), Renew(call, newId));
      && m'.store == Rotated(env, m.store, raw, newId)
      && (m'.calls[call].Renewed? <==> RotateResult(env, m.store, raw).Ok?)
      && (m'.calls[call].Renewed? ==> m'.calls[call].took)
  {
  }

  /** Logging in and out are single operations of the store. */
  lemma LoginAndLogout(env: Env, m: Machine, user: string, sessionId: string, raw: string)
    ensures Fresh(m.store, sessionId) ==>
              Apply(env, m, Login(user, sessionId)).store == Created(env, m.store, user, sessionId)
    ensures Apply(env, m, Logout(raw)).store == Revoked(m.store, raw)
  {
  }

  // ----- How many sessions there are

  predicate IsHalfway(m: Machine, call: nat) {
    call in m.calls && m.calls[call].Deleting? && m.calls[call].took
  }

  predicate IsExtra(m: Machine, call: nat) {
    call in m.calls && m.calls[call].Renewed? && !m.calls[call].took
  }

  /** Rotations that have removed their session and not yet stored the new one. */
  ghost function Halfway(m: Machine): set<nat> {
    set call | call in m.calls && IsHalfway(m, call)
  }

  /** Rotations that stored a new session although their own deletion found none. */
  ghost function Extra(m: Machine): set<nat> {
    set call | call in m.calls && IsExtra(m, call)
  }

  lemma InHalfway(m: Machine, call: nat)
    ensures call in Halfway(m) <==> IsHalfway(m, call)
    ensures call in Extra(m) <==> IsExtra(m, call)
  {
  }

  ghost predicate Counted(m: Machine) {
    && m.store.sessions.Keys <= m.store.used
    && |m.store.sessions| + |Halfway(m)| + m.ended == m.created + |Extra(m)|
  }

  lemma SetsSame(m: Machine, m': Machine)
    requires forall call: nat :: IsHalfway(m', call) <==> IsHalfway(m, call)
    requires forall call: nat :: IsExtra(m', call) <==> IsExtra(m, call)
    ensures Halfway(m') == Halfway(m) && Extra(m') == Extra(m)
  {
    forall call: nat
      ensures (call in Halfway(m') <==> call in Halfway(m)) && (call in Extra(m') <==> call in Extra(m))
    {
      InHalfway(m, call);
      InHalfway(m', call);
    }
  }

  lemma Removing(sessions: map<string, Record>, sessionId: string)
    ensures |sessions - {sessionId}| == |sessions| - if sessionId in sessions then 1 else 0
  {
    var less := sessions - {sessionId};
    if sessionId in sessions {
      OneMore(less.Keys, sessions.Keys, sessionId);
      assert |less.Keys| == |less| && |sessions.Keys| == |sessions|;
    } else {
      assert less == sessions;
    }
  }

  lemma Adding(sessions: map<string, Record>, sessionId: string, record: Record)
    requires sessionId !in sessions
    ensures |sessions[sessionId := record]| == |sessions| + 1
  {
    OneMore(sessions.Keys, sessions[sessionId := record].Keys, sessionId);
  }

  lemma DeleteCounts(env: Env, m: Machine, call: nat)
    requires Counted(m) && call in m.calls && m.calls[call].Passed?
    ensures Counted(Apply(env, m, Delete(call)))
  {
    var m' := Apply(env, m, Delete(call));
    Removing(m.store.sessions, m.calls[call].sessionId);
    if m'.calls[call].took {
      forall c: nat
        ensures (c in Halfway(m') <==> c in Halfway(m) || c == call) && (c in Extra(m') <==> c in Extra(m))
      {
        InHalfway(m, c);
        InHalfway(m', c);
      }
      InHalfway(m, call);
      OneMore(Halfway(m), Halfway(m'), call);
      assert Extra(m') == Extra(m);
    } else {
      SetsSame(m, m');
    }
  }

  lemma RenewCounts(env: Env, m: Machine, call: nat, newId: string)
    requires Counted(m) && call in m.calls && m.calls[call].Deleting? && Fresh(m.store, newId)
    ensures Counted(Apply(env, m, Renew(call, newId)))
  {
    var m' := Apply(env, m, Renew(call, newId));
    assert newId !in m.store.sessions;
    Adding(m.store.sessions, newId, m'.store.sessions[newId]);
    InHalfway(m, call);
    InHalfway(m', call);
    if m.calls[call].took {
      forall c: nat
        ensures (c in Halfway(m) <==> c in Halfway(m') || c == call) && (c in Extra(m') <==> c in Extra(m))
      {
        InHalfway(m, c);
        InHalfway(m', c);
      }
      OneMore(Halfway(m'), Halfway(m), call);
      assert Extra(m') == Extra(m);
    } else {
      forall c: nat
        ensures (c in Halfway(m') <==> c in Halfway(m)) && (c in Extra(m') <==> c in Extra(m) || c == call)
      {
        InHalfway(m, c);
        InHalfway(m', c);
      }
      OneMore(Extra(m), Extra(m'), call);
      assert Halfway(m') == Halfway(m);
    }
  }

  lemma LoginCounts(env: Env, m: Machine, user: string, sessionId: string)
    requires Counted(m)
    ensures Counted(Apply(env, m, Login(user, sessionId)))
  {
    var m' := Apply(env, m, Login(user, sessionId));
    SetsSame(m, m');
    if Fresh(m.store, sessionId) {
      Adding(m.store.sessions, sessionId, m'.store.sessions[sessionId]);
    }
  }

  lemma EndCounts(m: Machine, sessionId: string, calls: map<nat, Call>)
    requires Counted(m) && Halfway(m.(calls := calls)) == Halfway(m) && Extra(m.(calls := calls)) == Extra(m)
    ensures Counted(End(m, sessionId).(calls := calls))
  {
    SetsSame(m.(calls := calls), End(m, sessionId).(calls := calls));
    Removing(m.store.sessions, sessionId);
  }

  lemma LogoutCounts(env: Env, m: Machine, raw: string)
    requires Counted(m)
    ensures Counted(Apply(env, m, Logout(raw)))
  {
    if SplitCookie(raw).Some? {
      EndCounts(m, SplitCookie(raw).value.0, m.calls);
    }
  }

  lemma RefusedCounts(env: Env, m: Machine, call: nat)
    requires Counted(m) && call in m.calls && m.calls[call].Refused?
    ensures Counted(Apply(env, m, Delete(call)))
  {
    var calls := m.calls[call := Over];
    SetsSame(m, m.(calls := calls));
    EndCounts(m, m.calls[call].sessionId, calls);
  }

  /** The other steps change no session and move no rotation between the two sets. */
  lemma OthersCount(env: Env, m: Machine, m': Machine)
    requires Counted(m) && m'.store == m.store.(now := m'.store.now)
    requires m'.created == m.created && m'.ended == m.ended
    requires forall call: nat :: IsHalfway(m', call) <==> IsHalfway(m, call)
    requires forall call: nat :: IsExtra(m', call) <==> IsExtra(m, call)
    ensures Counted(m')
  {
    SetsSame(m, m');
  }

  predicate Counting(m: Machine, step: Step) {
    || step.Login? || step.Logout?
    || (step.Delete? && step.call in m.calls && (m.calls[step.call].Passed? || m.calls[step.call].Refused?))
    || (step.Renew? && step.call in m.calls && m.calls[step.call].Deleting? && Fresh(m.store, step.newId))
  }

  lemma ApplyKeepsCounted(env: Env, m: Machine, step: Step)
    requires Counted(m)
    ensures Counted(Apply(env, m, step))
  {
    if !Counting(m, step) {
      OthersCount(env, m, Apply(env, m, step));
    } else {
      match step {
        case Login(user, sessionId) => LoginCounts(env, m, user, sessionId);
        case Logout(raw) => LogoutCounts(env, m, raw);
        case Renew(call, newId) => RenewCounts(env, m, call, newId);
        case Delete(call) =>
          if m.calls[call].Passed? {
            DeleteCounts(env, m, call);
          } else {
            RefusedCounts(env, m, call);
          }
      }
    }
  }

  /**
   Over every interleaving: the session records, expired or not, and the rotations that are halfway are
   the logins, less the sessions that were ended, and one more for each rotation whose deletion found nothing.
   */
  lemma {:induction false} SessionsAreCounted(env: Env, steps: seq<Step>)
    ensures Counted(Run(env, steps))
    decreases |steps|
  {
    if steps != [] {
      SessionsAreCounted(env, steps[..|steps| - 1]);
      ApplyKeepsCounted(env, Run(env, steps[..|steps| - 1]), steps[|steps| - 1]);
    } else {
      assert Halfway(START) == {} && Extra(START) == {};
    }
  }

  /** So with no rotation halfway, rotations preserved the number of sessions exactly when each deleted its own. */
  lemma PreservedIff(env: Env, steps: seq<Step>)
    requires Halfway(Run(env, steps)) == {}
    ensures var m := Run(env, steps);
            |m.store.sessions| == m.created - m.ended <==> Extra(m) == {}
  {
    SessionsAreCounted(env, steps);
    var extra := Extra(Run(env, steps));
    assert |extra| == 0 <==> extra == {};
  }

  // ----- One rotation at most takes a session

  /** This rotation's deletion removed that session. */
  predicate Took(m: Machine, call: nat, sessionId: string) {
    call in m.calls && (m.calls[call].Deleting? || m.calls[call].Renewed?)
    && m.calls[call].took && m.calls[call].sessionId == sessionId
  }

  predicate Gone(s: Store, sessionId: string) {
    sessionId in s.used && sessionId !in s.sessions
  }

  ghost predicate TakenOnce(m: Machine) {
    && m.store.sessions.Keys <= m.store.used
    && (forall call, sessionId :: Took(m, call, sessionId) ==> Gone(m.store, sessionId))
    && (forall a, b, sessionId :: Took(m, a, sessionId) && Took(m, b, sessionId) ==> a == b)
  }

  /** A session that is gone stays gone. */
  lemma GoneStaysGone(env: Env, m: Machine, step: Step, sessionId: string)
    requires Gone(m.store, sessionId)
    ensures Gone(Apply(env, m, step).store, sessionId)
  {
  }

  /** A step makes at most one rotation take a session, the one it deletes. */
  lemma TookStep(env: Env, m: Machine, step: Step, call: nat, sessionId: string)
    requires m.store.sessions.Keys <= m.store.used
    ensures Took(m, call, sessionId) ==> Took(Apply(env, m, step), call, sessionId)
    ensures Took(Apply(env, m, step), call, sessionId) && !Took(m, call, sessionId) ==>
              step == Delete(call) && sessionId in m.store.sessions && Gone(Apply(env, m, step).store, sessionId)
  {
  }

  lemma ApplyKeepsTakenOnce(env: Env, m: Machine, step: Step)
    requires TakenOnce(m)
    ensures TakenOnce(Apply(env, m, step))
  {
    var m' := Apply(env, m, step);
    forall call, sessionId | Took(m', call, sessionId) ensures Gone(m'.store, sessionId) {
      TookStep(env, m, step, call, sessionId);
      if Took(m, call, sessionId) {
        GoneStaysGone(env, m, step, sessionId);
      }
    }
    forall a, b, sessionId | Took(m', a, sessionId) && Took(m', b, sessionId) ensures a == b {
      TookStep(env, m, step, a, sessionId);
      TookStep(env, m, step, b, sessionId);
      assert Took(m, a, sessionId) ==> Gone(m.store, sessionId);
      assert Took(m, b, sessionId) ==> Gone(m.store, sessionId);
    }
  }

  /** Over every interleaving at most one rotation of a session takes it; every other one that completes is extra. */
  lemma {:induction false} RunTakesOnce(env: Env, steps: seq<Step>)
    ensures TakenOnce(Run(env, steps))
    decreases |steps|
  {
    if steps != [] {
      RunTakesOnce(env, steps[..|steps| - 1]);
      ApplyKeepsTakenOnce(env, Run(env, steps[..|steps| - 1]), steps[|steps| - 1]);
    }
  }

  /** A check that comes after the session was deleted, by whatever, never passes. */
  lemma {:induction false} CheckAfterDeletionFails(env: Env, m: Machine, steps: seq<Step>, raw: string)
    requires SplitCookie(raw).Some? && Gone(m.store, SplitCookie(raw).value.0)
    ensures Gone(RunFrom(env, m, steps).store, SplitCookie(raw).value.0)
    ensures Checked(env, RunFrom(env, m, steps).store, raw) == Over
    decreases |steps|
  {
    if steps != [] {
      CheckAfterDeletionFails(env, m, steps[..|steps| - 1], raw);
    }
  }

  /** The deletion and the new session of a rotation that passed its check. */
  function Complete(env: Env, m: Machine, call: nat, newId: string): Machine {
    Apply(env, Apply(env, m, Delete(call)), Renew(call, newId))
  }

  lemma Completes(env: Env, m: Machine, call: nat, newId: string)
    requires call in m.calls && m.calls[call].Passed? && Fresh(m.store, newId) && m.store.sessions.Keys <= m.store.used
    ensures
      var c := m.calls[call];
      var m' := Complete(env, m, call, newId);
      var found := c.sessionId in m.store.sessions;
      && m'.store == Created(env, Deleted(m.store, c.sessionId), c.user, newId)
      && m'.calls == m.calls[call := Renewed(c.sessionId, c.user, found)]
      && |m'.store.sessions| == |m.store.sessions| + if found then 0 else 1
  {
    var c := m.calls[call];
    var m' := Complete(env, m, call, newId);
    Removing(m.store.sessions, c.sessionId);
    Adding(m.store.sessions - {c.sessionId}, newId, m'.store.sessions[newId]);
  }

  /** But two rotations of one cookie that both check before either deletes both succeed: one session becomes two. */
  lemma BothChecksPass(env: Env, m: Machine, raw: string, a: nat, b: nat, newA: string, newB: string)
    requires RotateResult(env, m.store, raw).Ok? && m.store.sessions.Keys <= m.store.used
    requires a != b && a !in m.calls && b !in m.calls
    requires Fresh(m.store, newA) && Fresh(m.store, newB) && newA != newB
    ensures
      var user := RotateResult(env, m.store, raw).value;
      var checked := Apply(env, Apply(env, m, Check(a, raw)), Check(b, raw));
      var both := Complete(env, Complete(env, checked, a, newA), b, newB);
      && newA in both.store.sessions && newB in both.store.sessions
      && both.store.sessions[newA].user == both.store.sessions[newB].user == user
      && |both.store.sessions| == |m.store.sessions| + 1
      && !IsExtra(both, a) && IsExtra(both, b)
  {
    var checked := Apply(env, Apply(env, m, Check(a, raw)), Check(b, raw));
    Completes(env, checked, a, newA);
    Completes(env, Complete(env, checked, a, newA), b, newB);
  }
}
