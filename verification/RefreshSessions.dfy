/** Refresh sessions: create, rotate and revoke over a store of session records with expiry. */
module RefreshSessions {
  import opened Wrappers
  import opened Text

  const TTL := 2_592_000  // 30 days, in seconds

  datatype Record = Record(user: string, token: string, expires: int)

  /** Signing and verifying JSON web tokens; verification checks the signature and the expiry. */
  datatype Env = Env(sign: (string, int) -> string, verify: (string, int) -> Option<string>)

  datatype Failure = Malformed | BadToken | NotFound | Mismatch

  datatype Store = Store(now: int, sessions: map<string, Record>, used: set<string>)

  const EMPTY := Store(0, map[], {})

  // ----- Cookies

  function DotIndex(s: string): (i: nat)
    ensures i <= |s| && '.' !in s[..i] && (i < |s| ==> s[i] == '.')
  {
    if s == "" || s[0] == '.' then 0
    else
      var i := DotIndex(s[1..]);
      assert s[..i + 1] == [s[0]] + s[1..][..i];
      i + 1
  }

  function Cookie(sessionId: string, token: string): string {
    sessionId + "." + token
  }

  function SplitCookie(raw: string): Option<(string, string)> {
    var i := DotIndex(raw);
    if i == |raw| then None else Some((raw[..i], raw[i + 1..]))
  }

  /** Splitting at the first dot inverts joining, although tokens contain dots. */
  lemma SplitInvertsJoin(sessionId: string, token: string)
    requires '.' !in sessionId
    ensures SplitCookie(Cookie(sessionId, token)) == Some((sessionId, token))
  {
    var raw := Cookie(sessionId, token);
    assert raw[|sessionId|] == '.';
    var i := DotIndex(raw);
    assert raw[..|raw|] == raw && '.' in raw;
    assert raw[..i] + ['.'] + raw[i + 1..] == sessionId + ['.'] + token;
    FirstSplitUnique(raw[..i], raw[i + 1..], sessionId, token, '.');
  }

  // ----- The operations on the store

  predicate Live(s: Store, sessionId: string) {
    sessionId in s.sessions && s.now < s.sessions[sessionId].expires
  }

  predicate Fresh(s: Store, sessionId: string) {
    '.' !in sessionId && sessionId !in s.used
  }

  function Created(env: Env, s: Store, user: string, sessionId: string): Store {
    var record := Record(user, env.sign(user, s.now), s.now + TTL);
    s.(sessions := s.sessions[sessionId := record], used := s.used + {sessionId})
  }

  function Deleted(s: Store, sessionId: string): Store {
    s.(sessions := s.sessions - {sessionId})
  }

  /** The outcome of a rotation: the user on success. */
  function RotateResult(env: Env, s: Store, raw: string): Result<string, Failure> {
    match SplitCookie(raw)
    case None => Err(Malformed)
    case Some((sessionId, token)) =>
      match env.verify(token, s.now)
      case None => Err(BadToken)
      case Some(user) =>
        if !Live(s, sessionId) then Err(NotFound)
        else if s.sessions[sessionId].token != token || s.sessions[sessionId].user != user then Err(Mismatch)
        else Ok(user)
  }

  function Rotated(env: Env, s: Store, raw: string, newId: string): Store {
    match RotateResult(env, s, raw)
    case Ok(user) => Created(env, Deleted(s, SplitCookie(raw).value.0), user, newId)
    case Err(Mismatch) => Deleted(s, SplitCookie(raw).value.0)
    case Err(_) => s
  }

  function Revoked(s: Store, raw: string): Store {
    if SplitCookie(raw).None? then s else Deleted(s, SplitCookie(raw).value.0)
  }

  /** A cookie without a dot is refused and changes nothing. */
  lemma DotlessIsMalformed(env: Env, s: Store, raw: string, newId: string)
    requires '.' !in raw
    ensures RotateResult(env, s, raw) == Err(Malformed) && Rotated(env, s, raw, newId) == s && Revoked(s, raw) == s
  {
    assert DotIndex(raw) == |raw|;
  }

  /**
   What a rotation of the cookie sessionId.token does: a token that does not verify is refused and a session
   that is gone not found, both leaving every session in place; another token or user in the session ends it;
   otherwise the session is replaced by the new one, for thirty days.
   */
  lemma RotationOf(env: Env, s: Store, sessionId: string, token: string, newId: string)
    requires '.' !in sessionId
    ensures
      var raw := sessionId + "." + token;
      var user := env.verify(token, s.now);
      var found := sessionId in s.sessions && s.now < s.sessions[sessionId].expires;
      var s' := Rotated(env, s, raw, newId);
      if user == None then RotateResult(env, s, raw) == Err(BadToken) && s' == s
      else if !found then RotateResult(env, s, raw) == Err(NotFound) && s' == s
      else if s.sessions[sessionId].token != token || s.sessions[sessionId].user != user.value then
        RotateResult(env, s, raw) == Err(Mismatch)
        && s'.sessions == s.sessions - {sessionId} && s'.used == s.used && s'.now == s.now
      else
        RotateResult(env, s, raw) == Ok(user.value)
        && s'.sessions == (s.sessions - {sessionId})[newId :=
                            Record(user.value, env.sign(user.value, s.now), s.now + 2_592_000)]
  {
    SplitInvertsJoin(sessionId, token);
  }

  /** Logging out removes the named session and no other. */
  lemma RevocationOf(s: Store, sessionId: string, token: string)
    requires '.' !in sessionId
    ensures Revoked(s, sessionId + "." + token) == s.(sessions := s.sessions - {sessionId})
  {
    SplitInvertsJoin(sessionId, token);
  }

  class SessionStore {
    const env: Env
    var sessions: map<string, Record>
    ghost var used: set<string>

    ghost function Seen(now: int): Store
      reads this
    {
      Store(now, sessions, used)
    }

    constructor (env: Env)
      ensures this.env == env && sessions == map[] && used == {}
    {
      this.env := env;
      sessions := map[];
      used := {};
    }

    method CreateRefreshSession(now: int, user: string, sessionId: string) returns (cookie: string)
      requires Fresh(Seen(now), sessionId)
      modifies this
      ensures Seen(now) == Created(env, old(Seen(now)), user, sessionId)
      ensures cookie == Cookie(sessionId, env.sign(user, now))
    {
      var token := env.sign(user, now);
      sessions := sessions[sessionId := Record(user, token, now + TTL)];
      used := used + {sessionId};
      return sessionId + "." + token;
    }

    method RotateRefreshSession(now: int, raw: string, newId: string) returns (res: Result<(string, string), Failure>)
      requires Fresh(Seen(now), newId)
      modifies this
      ensures Seen(now) == Rotated(env, old(Seen(now)), raw, newId)
      ensures match RotateResult(env, old(Seen(now)), raw)
              case Ok(user) => res == Ok((user, Cookie(newId, env.sign(user, now))))
              case Err(e) => res == Err(e)
    {
      var dot := DotIndex(raw);
      if dot == |raw| {
        return Err(Malformed);
      }
      var sessionId, token := raw[..dot], raw[dot + 1..];
      var user := env.verify(token, now);
      if user.None? {
        return Err(BadToken);
      }
      if sessionId !in sessions || sessions[sessionId].expires <= now {
        return Err(NotFound);
      }
      var stored := sessions[sessionId];
      if stored.token != token || stored.user != user.value {
        sessions := sessions - {sessionId};
        return Err(Mismatch);
      }
      sessions := sessions - {sessionId};
      var cookie := CreateRefreshSession(now, user.value, newId);
      return Ok((user.value, cookie));
    }

    method RevokeRefreshSession(now: int, raw: string)
      modifies this
      ensures Seen(now) == Revoked(old(Seen(now)), raw)
    {
      var dot := DotIndex(raw);
      if dot < |raw| {
        sessions := sessions - {raw[..dot]};
      }
    }
  }

  // ----- Serial runs

  datatype Step = Create(user: string, sessionId: string) | Rotate(raw: string, newId: string) | Revoke(raw: string)
                | Advance(seconds: nat)

  /** Session ids are random UUIDs: a step whose new id is not fresh does not happen. */
  function Apply(env: Env, s: Store, step: Step): Store {
    match step
    case Create(user, sessionId) => if Fresh(s, sessionId) then Created(env, s, user, sessionId) else s
    case Rotate(raw, newId) => if Fresh(s, newId) then Rotated(env, s, raw, newId) else s
    case Revoke(raw) => Revoked(s, raw)
    case Advance(seconds) => s.(now := s.now + seconds)
  }

  function RunFrom(env: Env, s: Store, steps: seq<Step>): Store {
    if steps == [] then s else Apply(env, RunFrom(env, s, steps[..|steps| - 1]), steps[|steps| - 1])
  }

  /** The session this cookie names existed once and is gone. */
  predicate Dead(s: Store, raw: string) {
    SplitCookie(raw).Some? && SplitCookie(raw).value.0 in s.used && SplitCookie(raw).value.0 !in s.sessions
  }

  lemma {:induction false} DeadStaysDead(env: Env, s: Store, steps: seq<Step>, raw: string)
    requires Dead(s, raw)
    ensures Dead(RunFrom(env, s, steps), raw)
    ensures !RotateResult(env, RunFrom(env, s, steps), raw).Ok?
  {
    if steps != [] {
      DeadStaysDead(env, s, steps[..|steps| - 1], raw);
    }
  }

  lemma {:induction false} SessionsWereUsed(env: Env, steps: seq<Step>)
    ensures RunFrom(env, EMPTY, steps).sessions.Keys <= RunFrom(env, EMPTY, steps).used
  {
    if steps != [] {
      SessionsWereUsed(env, steps[..|steps| - 1]);
    }
  }

  /** This step used the cookie up: it rotated it, revoked its session, or found another token in its session. */
  predicate UsesUp(env: Env, s: Store, step: Step, raw: string) {
    && SplitCookie(raw).Some? && SplitCookie(raw).value.0 in s.sessions
    && match step
       case Rotate(r, newId) => r == raw && Fresh(s, newId) &&
                                (RotateResult(env, s, raw).Ok? || RotateResult(env, s, raw) == Err(Mismatch))
       case Revoke(r) => r == raw
       case _ => false
  }

  /**
   Over any serial run: once a cookie was rotated, revoked or rejected for a token mismatch, no cookie of
   the same session, this one included, ever rotates again.
   */
  lemma NeverRotatesAgain(env: Env, before: seq<Step>, step: Step, after: seq<Step>, raw: string, raw': string)
    requires UsesUp(env, RunFrom(env, EMPTY, before), step, raw)
    requires SplitCookie(raw').Some? && SplitCookie(raw').value.0 == SplitCookie(raw).value.0
    ensures !RotateResult(env, RunFrom(env, Apply(env, RunFrom(env, EMPTY, before), step), after), raw').Ok?
  {
    var s := RunFrom(env, EMPTY, before);
    SessionsWereUsed(env, before);
    DeadStaysDead(env, Apply(env, s, step), after, raw');
  }

  ghost function LiveSessions(s: Store): set<string> {
    set id | id in s.sessions && Live(s, id)
  }

  /** A successful rotation replaces one live session by one of the same user and leaves the others alone. */
  lemma RotationPreservesSessions(env: Env, s: Store, raw: string, newId: string)
    requires RotateResult(env, s, raw).Ok? && Fresh(s, newId) && s.sessions.Keys <= s.used
    ensures
      var s' := Rotated(env, s, raw, newId);
      var oldId := SplitCookie(raw).value.0;
      && LiveSessions(s') == LiveSessions(s) - {oldId} + {newId}
      && |LiveSessions(s')| == |LiveSessions(s)|
      && s'.sessions[newId].user == s.sessions[oldId].user == RotateResult(env, s, raw).value
      && (forall id :: id in s.sessions && id != oldId ==> id in s'.sessions && s'.sessions[id] == s.sessions[id])
  {
    var s' := Rotated(env, s, raw, newId);
    var oldId := SplitCookie(raw).value.0;
    assert oldId in LiveSessions(s);
    assert newId !in s.sessions;
    assert LiveSessions(s') == LiveSessions(s) - {oldId} + {newId};
  }

  /** A step that can end this session. */
  predicate Names(step: Step, sessionId: string) {
    (step.Rotate? || step.Revoke?) && SplitCookie(step.raw).Some? && SplitCookie(step.raw).value.0 == sessionId
  }

  lemma {:induction false} Untouched(env: Env, s: Store, steps: seq<Step>, sessionId: string)
    requires sessionId in s.sessions && s.sessions.Keys <= s.used
    requires forall i :: 0 <= i < |steps| ==> !Names(steps[i], sessionId)
    ensures sessionId in RunFrom(env, s, steps).sessions
    ensures RunFrom(env, s, steps).sessions[sessionId] == s.sessions[sessionId]
    ensures RunFrom(env, s, steps).sessions.Keys <= RunFrom(env, s, steps).used
  {
    if steps != [] {
      var n := |steps| - 1;
      Untouched(env, s, steps[..n], sessionId);
      assert !Names(steps[n], sessionId);
    }
  }

  /** The cookie of a new session rotates, after any steps that do not name its session, exactly until it expires. */
  lemma NewCookieRotates(env: Env, before: seq<Step>, user: string, sessionId: string, after: seq<Step>)
    requires Fresh(RunFrom(env, EMPTY, before), sessionId)
    requires forall i :: 0 <= i < |after| ==> !Names(after[i], sessionId)
    requires forall u, t, n :: t <= n < t + 2_592_000 ==> env.verify(env.sign(u, t), n) == Some(u)
    ensures
      var s := RunFrom(env, EMPTY, before);
      var s' := RunFrom(env, Created(env, s, user, sessionId), after);
      && (s'.now < s.now + 2_592_000 ==> RotateResult(env, s', Cookie(sessionId, env.sign(user, s.now))) == Ok(user))
      && (s'.now >= s.now + 2_592_000 ==> !RotateResult(env, s', Cookie(sessionId, env.sign(user, s.now))).Ok?)
  {
    var s := RunFrom(env, EMPTY, before);
    SessionsWereUsed(env, before);
    Untouched(env, Created(env, s, user, sessionId), after, sessionId);
    TimeGoesForward(env, Created(env, s, user, sessionId), after);
    SplitInvertsJoin(sessionId, env.sign(user, s.now));
  }

  lemma {:induction false} TimeGoesForward(env: Env, s: Store, steps: seq<Step>)
    ensures RunFrom(env, s, steps).now >= s.now
  {
    if steps != [] {
      TimeGoesForward(env, s, steps[..|steps| - 1]);
    }
  }

  // ----- Only cookies that were handed out ever rotate

  /** The cookie that a step hands out. */
  function HandedOut(env: Env, s: Store, step: Step): set<string> {
    match step
    case Create(user, sessionId) => if Fresh(s, sessionId) then {Cookie(sessionId, env.sign(user, s.now))} else {}
    case Rotate(raw, newId) =>
      if Fresh(s, newId) && RotateResult(env, s, raw).Ok?
      then {Cookie(newId, env.sign(RotateResult(env, s, raw).value, s.now))} else {}
    case _ => {}
  }

  /** All the cookies that a run handed out. */
  function Issued(env: Env, steps: seq<Step>): set<string> {
    if steps == [] then {}
    else
      var n := |steps| - 1;
      Issued(env, steps[..n]) + HandedOut(env, RunFrom(env, EMPTY, steps[..n]), steps[n])
  }

  lemma SessionIsNewOrKept(env: Env, s: Store, step: Step, sessionId: string)
    requires sessionId in Apply(env, s, step).sessions
    ensures
      || (sessionId in s.sessions && Apply(env, s, step).sessions[sessionId] == s.sessions[sessionId])
      || Cookie(sessionId, Apply(env, s, step).sessions[sessionId].token) in HandedOut(env, s, step)
  {
  }

  lemma {:induction false} SessionsHoldIssued(env: Env, steps: seq<Step>, sessionId: string)
    requires sessionId in RunFrom(env, EMPTY, steps).sessions
    ensures Cookie(sessionId, RunFrom(env, EMPTY, steps).sessions[sessionId].token) in Issued(env, steps)
  {
    if steps != [] {
      var n := |steps| - 1;
      var s := RunFrom(env, EMPTY, steps[..n]);
      SessionIsNewOrKept(env, s, steps[n], sessionId);
      if sessionId in s.sessions {
        SessionsHoldIssued(env, steps[..n], sessionId);
      }
    }
  }

  lemma JoinInvertsSplit(raw: string)
    requires SplitCookie(raw).Some?
    ensures raw == Cookie(SplitCookie(raw).value.0, SplitCookie(raw).value.1)
  {
    var i := DotIndex(raw);
    assert raw == raw[..i] + [raw[i]] + raw[i + 1..];
  }

  /** In every reachable state a cookie that rotates is one that create or rotate returned. */
  lemma OnlyIssuedRotates(env: Env, steps: seq<Step>, raw: string)
    requires RotateResult(env, RunFrom(env, EMPTY, steps), raw).Ok?
    ensures raw in Issued(env, steps)
  {
    JoinInvertsSplit(raw);
    SessionsHoldIssued(env, steps, SplitCookie(raw).value.0);
  }
}
