/** The proxy's request pipeline as steps over one world, many requests in flight at once. */
module ProxyPipeline {
  import opened Wrappers
  import opened Sets
  import opened PolicyEvaluator
  import opened ProxyCache

  const BODY_LIMIT := 8 * 1024 * 1024
  const PATH_PREFIX := "/proxy/v1/"

  /** Decoders, scanner and estimator are functions of the body; registered are the providers the router knows. */
  datatype Env = Env(sha: string -> string, modelOf: string -> string, streams: string -> bool,
                     promptOf: string -> string, violates: string -> bool, estimate: (string, string) -> int,
                     blank: string -> bool, registered: set<string>)

  datatype Meta = Meta(org: string, provider: string, model: string, isStream: bool)

  datatype Status = Success | Blocked | Queued | Error

  datatype UsageEvent = UsageEvent(id: nat, org: string, provider: string, model: string, estimated: int,
                                   input: int, output: int, status: Status, dlp: bool, action: Action, cacheHit: bool)

  datatype AlertKind = ApprovalRequired | PiiDetected

  datatype Alert = Alert(id: nat, kind: AlertKind)

  /** A call of the provider, and whether it answered. */
  datatype Call = Call(id: nat, provider: string, body: string)

  datatype World = World(cache: Entries, events: seq<UsageEvent>, alerts: seq<Alert>, calls: seq<Call>)

  datatype Reply = Reply(body: string, input: int, output: int)

  /** What the client gets; a stream has been written by the provider before its outcome is known. */
  datatype Response = Plain(code: int, body: string) | Streamed

  /** How a request ended. Rejected ones never got past the body read, unrouted ones name no known provider. */
  datatype Outcome = Rejected | Hit | Held | Denied | Unrouted | Failed | Forwarded

  datatype Phase =
    | Looking(meta: Meta, body: string)
    | Deciding(meta: Meta, body: string)
    | Routing(meta: Meta, body: string, decision: Decision)
    | Answering(meta: Meta, body: string, decision: Decision, reply: Reply)
    | Done(outcome: Outcome, response: Response)

  /** A Set of the cache: when, for whom, what, and whether Redis took it. */
  datatype Store = Store(at: int, id: nat, provider: string, body: string, response: string, taken: bool)

  datatype Machine = Machine(now: int, world: World, phases: map<nat, Phase>, stores: seq<Store>)

  const START := Machine(0, World(map[], [], [], []), map[], [])

  datatype Step =
    | Arrive(id: nat, path: string, org: string, raw: Option<string>)
    | LookUp(id: nat, redisUp: bool)
    | Decide(id: nat, opa: OpaResult)
    | Route(id: nat, reply: Option<Reply>)
    | Finish(id: nat, redisUp: bool)
    | Advance(ms: nat)
    | Evict(key: string)

  function UpTo(s: string, c: char): string {
    if s == "" || s[0] == c then "" else [s[0]] + UpTo(s[1..], c)
  }

  function ProviderOf(path: string): string {
    UpTo(if PATH_PREFIX <= path then path[|PATH_PREFIX|..] else path, '/')
  }

  /** The text up to the first slash, whatever follows it. */
  lemma {:induction false} UpToSlash(p: string, rest: string)
    requires '/' !in p
    ensures UpTo(p, '/') == p && UpTo(p + "/" + rest, '/') == p
  {
    if p != "" {
      UpToSlash(p[1..], rest);
      assert (p + "/" + rest)[1..] == p[1..] + "/" + rest;
    } else {
      assert (p + "/" + rest)[0] == '/';
    }
  }

  /** The provider is the part of the path after /proxy/v1/ up to the next slash or the end. */
  lemma ProviderIsFirstPart(p: string, rest: string)
    requires '/' !in p
    ensures ProviderOf("/proxy/v1/" + p + "/" + rest) == p
    ensures ProviderOf("/proxy/v1/" + p) == p
  {
    var lead := "/proxy/v1/";
    UpToSlash(p, rest);
    assert lead + p + "/" + rest == lead + (p + "/" + rest);
    assert (lead + (p + "/" + rest))[|lead|..] == p + "/" + rest;
    assert (lead + p)[|lead|..] == p;
    assert lead <= lead + (p + "/" + rest) && lead <= lead + p;
  }

  /** A path without that prefix is taken from its own start. */
  lemma ProviderWithoutPrefix(p: string, rest: string)
    requires '/' !in p
    ensures !("/proxy/v1/" <= p + "/" + rest) ==> ProviderOf(p + "/" + rest) == p
    ensures ProviderOf(p) == p
  {
    UpToSlash(p, rest);
    assert p != "" ==> p[0] != '/';
  }

  function KeyOf(env: Env, provider: string, body: string): string {
    BuildKey(env.sha, provider, env.modelOf(body), body)
  }

  function EventOf(env: Env, id: nat, meta: Meta, body: string, input: int, output: int,
                   status: Status, dlp: bool, action: Action): UsageEvent {
    UsageEvent(id, meta.org, meta.provider, meta.model, env.estimate(env.promptOf(body), meta.provider),
               input, output, status, dlp, action, false)
  }

  function End(m: Machine, world: World, id: nat, outcome: Outcome, response: Response): Machine {
    m.(world := world, phases := m.phases[id := Done(outcome, response)])
  }

  /** A step that its request cannot take changes nothing. */
  function Apply(env: Env, m: Machine, step: Step): Machine {
    var w := m.world;
    match step
    case Advance(ms) => m.(now := m.now + ms)
    case Evict(key) => m.(world := w.(cache := w.cache - {key}))
    case Arrive(id, path, org, raw) =>
      if id in m.phases then m
      else if ProviderOf(path) == "" then End(m, w, id, Rejected, Plain(400, "invalid-request"))
      else if raw.None? then End(m, w, id, Rejected, Plain(400, "body-read-error"))
      else
        var body := if |raw.value| <= BODY_LIMIT then raw.value else raw.value[..BODY_LIMIT];
        var meta := Meta(org, ProviderOf(path), env.modelOf(body), env.streams(body));
        m.(phases := m.phases[id := Looking(meta, body)])
    case _ =>
      if step.id !in m.phases then m else Advanced(env, m, step, step.id, m.phases[step.id])
  }

  function Advanced(env: Env, m: Machine, step: Step, id: nat, phase: Phase): Machine {
    var w := m.world;
    match (step, phase)
    case (LookUp(_, redisUp), Looking(meta, body)) =>
      var found := if meta.isStream || !redisUp then None else Lookup(w.cache, m.now, KeyOf(env, meta.provider, body));
      if found.Some? then
        var event := UsageEvent(id, meta.org, meta.provider, meta.model, 0, 0, 0, Success, false, Allow, true);
        End(m, w.(events := w.events + [event]), id, Hit, Plain(200, found.value))
      else m.(phases := m.phases[id := Deciding(meta, body)])
    case (Decide(_, opa), Deciding(meta, body)) =>
      var d, dlp := Evaluate(opa, env.blank), env.violates(env.promptOf(body));
      if d.allow then m.(phases := m.phases[id := Routing(meta, body, d)])
      else if d.action.RequireApproval? then
        var event := EventOf(env, id, meta, body, 0, 0, Queued, dlp, d.action);
        End(m, w.(alerts := w.alerts + [Alert(id, ApprovalRequired)], events := w.events + [event]), id, Held,
            Plain(202, "require-approval"))
      else
        var event := EventOf(env, id, meta, body, 0, 0, Blocked, dlp, d.action);
        End(m, w.(alerts := w.alerts + (if dlp then [Alert(id, PiiDetected)] else []), events := w.events + [event]),
            id, Denied, Plain(403, "policy-block"))
    case (Route(_, reply), Routing(meta, body, d)) =>
      var known := meta.provider in env.registered;
      var w' := if known then w.(calls := w.calls + [Call(id, meta.provider, body)]) else w;
      if known && reply.Some? then
        m.(world := w', phases := m.phases[id := Answering(meta, body, d, reply.value)])
      else
        var event := EventOf(env, id, meta, body, 0, 0, Error, false, d.action);
        End(m, w'.(events := w.events + [event]), id, if known then Failed else Unrouted,
            if meta.isStream && known then Streamed else Plain(502, "upstream-error"))
    case (Finish(_, redisUp), Answering(meta, body, d, reply)) =>
      var dlp := env.violates(env.promptOf(body));
      var event := EventOf(env, id, meta, body, reply.input, reply.output, Success, dlp, d.action);
      if meta.isStream then End(m, w.(events := w.events + [event]), id, Forwarded, Streamed)
      else
        var item := Item(reply.body, m.now + DEFAULT_TTL);
        var cache := if redisUp then w.cache[KeyOf(env, meta.provider, body) := item] else w.cache;
        var store := Store(m.now, id, meta.provider, body, reply.body, redisUp);
        End(m, w.(cache := cache, events := w.events + [event]), id, Forwarded, Plain(200, reply.body))
          .(stores := m.stores + [store])
    case _ => m
  }

  function Run(env: Env, steps: seq<Step>): Machine {
    if steps == [] then START else Apply(env, Run(env, steps[..|steps| - 1]), steps[|steps| - 1])
  }

  // ----- Reference for the cache: the last store of a provider and body, no key and no Redis involved

  function LastStore(stores: seq<Store>, provider: string, body: string): Option<Store> {
    if stores == [] then None
    else
      var s := stores[|stores| - 1];
      if s.taken && s.provider == provider && s.body == body then Some(s)
      else LastStore(stores[..|stores| - 1], provider, body)
  }

  function Remembered(m: Machine, provider: string, body: string): Option<string> {
    match LastStore(m.stores, provider, body)
    case None => None
    case Some(s) => if m.now < s.at + 3_600_000 then Some(s.response) else None
  }

  /** The last store under a key. */
  function LastByKey(env: Env, stores: seq<Store>, key: string): Option<Store> {
    if stores == [] then None
    else
      var s := stores[|stores| - 1];
      if s.taken && KeyOf(env, s.provider, s.body) == key then Some(s)
      else LastByKey(env, stores[..|stores| - 1], key)
  }

  /** Digests have one length, and no stored body collides with this one. */
  ghost predicate NoCollision(env: Env, stores: seq<Store>, body: string) {
    forall i :: 0 <= i < |stores| ==>
      |env.sha(stores[i].body)| == |env.sha(body)| &&
      (env.sha(stores[i].body) == env.sha(body) ==> stores[i].body == body)
  }

  lemma {:induction false} LastByKeyIsLastStore(env: Env, stores: seq<Store>, provider: string, body: string)
    requires NoCollision(env, stores, body)
    ensures LastByKey(env, stores, KeyOf(env, provider, body)) == LastStore(stores, provider, body)
  {
    if stores != [] {
      var m := |stores| - 1;
      var s := stores[m];
      LastByKeyIsLastStore(env, stores[..m], provider, body);
      if KeyOf(env, s.provider, s.body) == KeyOf(env, provider, body) {
        KeyInjective(env.sha, env.modelOf, s.provider, s.body, provider, body);
      }
    }
  }

  /** The entry under a key is the last store under it; without evictions a key once stored is still there. */
  ghost predicate KeyOk(env: Env, entries: Entries, stores: seq<Store>, key: string, evicted: bool) {
    var s := LastByKey(env, stores, key);
    && (key in entries ==> s.Some? && entries[key] == Item(s.value.response, s.value.at + DEFAULT_TTL))
    && (!evicted && s.Some? ==> key in entries)
  }

  ghost predicate CacheInv(env: Env, m: Machine, evicted: bool) {
    forall key: string :: KeyOk(env, m.world.cache, m.stores, key, evicted)
  }

  predicate Evicts(steps: seq<Step>) {
    exists i :: 0 <= i < |steps| && steps[i].Evict?
  }

  function Stored(env: Env, entries: Entries, s: Store): Entries {
    if s.taken then entries[KeyOf(env, s.provider, s.body) := Item(s.response, s.at + DEFAULT_TTL)] else entries
  }

  lemma StoreKeepsKeyOk(env: Env, entries: Entries, stores: seq<Store>, s: Store, key: string, evicted: bool)
    requires KeyOk(env, entries, stores, key, evicted)
    ensures KeyOk(env, Stored(env, entries, s), stores + [s], key, evicted)
  {
    assert (stores + [s])[..|stores|] == stores;
  }

  /** A step leaves the cache alone, or takes one store into it, or evicts one key. */
  lemma ApplyCache(env: Env, m: Machine, step: Step)
    ensures
      var m' := Apply(env, m, step);
      || (m'.world.cache == m.world.cache && m'.stores == m.stores)
      || (step.Evict? && m'.world.cache == m.world.cache - {step.key} && m'.stores == m.stores)
      || (|m'.stores| == |m.stores| + 1 && m'.stores == m.stores + [m'.stores[|m.stores|]]
          && m'.world.cache == Stored(env, m.world.cache, m'.stores[|m.stores|]))
  {
  }

  lemma ApplyKeepsCacheInv(env: Env, m: Machine, step: Step, evicted: bool)
    requires CacheInv(env, m, evicted)
    ensures CacheInv(env, Apply(env, m, step), evicted || step.Evict?)
  {
    var m' := Apply(env, m, step);
    ApplyCache(env, m, step);
    var evicts := evicted || step.Evict?;
    forall key: string ensures KeyOk(env, m'.world.cache, m'.stores, key, evicts) {
      assert KeyOk(env, m.world.cache, m.stores, key, evicted);
      if m'.stores != m.stores {
        StoreKeepsKeyOk(env, m.world.cache, m.stores, m'.stores[|m.stores|], key, evicted);
      }
    }
  }

  lemma {:induction false} RunKeepsCacheInv(env: Env, steps: seq<Step>)
    ensures CacheInv(env, Run(env, steps), Evicts(steps))
  {
    if steps != [] {
      var n := |steps| - 1;
      RunKeepsCacheInv(env, steps[..n]);
      ApplyKeepsCacheInv(env, Run(env, steps[..n]), steps[n], Evicts(steps[..n]));
      assert Evicts(steps[..n]) || steps[n].Evict? <==> Evicts(steps) by {
        if Evicts(steps[..n]) {
          var i :| 0 <= i < n && steps[..n][i].Evict?;
          assert steps[i].Evict?;
        }
        if Evicts(steps) {
          var i :| 0 <= i < |steps| && steps[i].Evict?;
          assert i < n ==> steps[..n][i].Evict?;
        }
      }
    }
  }

  /**
   After any steps, a lookup that hits returns what the last accepted store of the same provider and
   body put there less than an hour ago; evictions only turn such hits into misses.
   */
  lemma CacheRefinesLastStore(env: Env, steps: seq<Step>, provider: string, body: string)
    requires NoCollision(env, Run(env, steps).stores, body)
    ensures
      var m := Run(env, steps);
      var found := Lookup(m.world.cache, m.now, KeyOf(env, provider, body));
      && (found.Some? ==> found == Remembered(m, provider, body))
      && (!Evicts(steps) ==> found == Remembered(m, provider, body))
  {
    var m := Run(env, steps);
    RunKeepsCacheInv(env, steps);
    LastByKeyIsLastStore(env, m.stores, provider, body);
    assert KeyOk(env, m.world.cache, m.stores, KeyOf(env, provider, body), Evicts(steps));
  }

  /** Model and stream flag of a request in flight are those of its body. */
  ghost predicate MetaFromBody(env: Env, m: Machine) {
    forall id :: id in m.phases && !m.phases[id].Done? ==>
      var p := m.phases[id];
      p.meta.model == env.modelOf(p.body) && p.meta.isStream == env.streams(p.body)
  }

  lemma {:induction false} RunKeepsMeta(env: Env, steps: seq<Step>)
    ensures MetaFromBody(env, Run(env, steps))
  {
    if steps != [] {
      RunKeepsMeta(env, steps[..|steps| - 1]);
      ApplyKeepsMeta(env, Run(env, steps[..|steps| - 1]), steps[|steps| - 1]);
    }
  }

  lemma ApplyKeepsMeta(env: Env, m: Machine, step: Step)
    requires MetaFromBody(env, m)
    ensures MetaFromBody(env, Apply(env, m, step))
  {
  }

  /**
   So a request that the cache answers, among any others in flight, gets exactly that response; and it is
   answered whenever Redis is up, it is no stream, something is remembered and nothing was evicted.
   */
  lemma HitServesLastStore(env: Env, steps: seq<Step>, id: nat, redisUp: bool)
    requires id in Run(env, steps).phases && Run(env, steps).phases[id].Looking?
    requires NoCollision(env, Run(env, steps).stores, Run(env, steps).phases[id].body)
    ensures
      var m := Run(env, steps);
      var p := m.phases[id];
      var stored := Remembered(m, p.meta.provider, p.body);
      var p' := Apply(env, m, LookUp(id, redisUp)).phases[id];
      && (p'.Done? ==> redisUp && !env.streams(p.body) && stored.Some? && p' == Done(Hit, Plain(200, stored.value)))
      && (redisUp && !env.streams(p.body) && stored.Some? && !Evicts(steps) ==> p'.Done?)
  {
    var p := Run(env, steps).phases[id];
    RunKeepsMeta(env, steps);
    CacheRefinesLastStore(env, steps, p.meta.provider, p.body);
  }

  /** A request of this organisation, arriving and looking into the cache. */
  function Ask(env: Env, m: Machine, id: nat, path: string, org: string, body: string): Machine {
    Apply(env, Apply(env, m, Arrive(id, path, org, Some(body))), LookUp(id, true))
  }

  /**
   The remembered response goes to whichever organisation asks, and before any scan or policy: the
   request ends at its lookup, whatever the organisation of the request that stored the response.
   */
  lemma HitIsForAnyOrganisation(env: Env, steps: seq<Step>, id: nat, path: string, org: string, body: string)
    requires !Evicts(steps) && id !in Run(env, steps).phases && ProviderOf(path) != ""
    requires |body| <= BODY_LIMIT && !env.streams(body) && NoCollision(env, Run(env, steps).stores, body)
    ensures
      var m := Run(env, steps);
      var stored := Remembered(m, ProviderOf(path), body);
      var m' := Ask(env, m, id, path, org, body);
      && id in m'.phases
      && (if stored.Some? then m'.phases[id] == Done(Hit, Plain(200, stored.value)) else m'.phases[id].Deciding?)
      && m'.world.calls == m.world.calls && m'.world.alerts == m.world.alerts
  {
    CacheRefinesLastStore(env, steps, ProviderOf(path), body);
  }

  // ----- Accounting

  function EventCount(events: seq<UsageEvent>, id: nat): nat {
    if events == [] then 0
    else EventCount(events[..|events| - 1], id) + if events[|events| - 1].id == id then 1 else 0
  }

  function CallCount(calls: seq<Call>, id: nat): nat {
    if calls == [] then 0
    else CallCount(calls[..|calls| - 1], id) + if calls[|calls| - 1].id == id then 1 else 0
  }

  ghost function Finished(m: Machine, outcome: Outcome): set<nat> {
    set id | id in m.phases && m.phases[id].Done? && m.phases[id].outcome == outcome
  }

  predicate Answered(m: Machine, id: nat) {
    id in m.phases && m.phases[id].Done? && !m.phases[id].outcome.Rejected?
  }

  predicate CalledProvider(m: Machine, id: nat) {
    id in m.phases && (m.phases[id].Answering? || (m.phases[id].Done? && m.phases[id].outcome in {Failed, Forwarded}))
  }

  function StatusOf(outcome: Outcome): Status {
    match outcome
    case Held => Queued
    case Denied => Blocked
    case Failed => Error
    case Unrouted => Error
    case _ => Success
  }

  /** The event of a request that missed the cache, was allowed and names a known provider. */
  predicate MustCall(env: Env, e: UsageEvent) {
    !e.cacheHit && e.action.Allow? && e.provider in env.registered
  }

  /** An event tells how its request ended: hit, held, denied, called or without a provider to call. */
  ghost predicate EventMatches(env: Env, m: Machine, e: UsageEvent) {
    && Answered(m, e.id)
    && var outcome := m.phases[e.id].outcome;
    && e.status == StatusOf(outcome) && (e.cacheHit <==> outcome.Hit?)
    && (e.action.RequireApproval? <==> outcome.Held?) && (e.action.Block? <==> outcome.Denied?)
    && (MustCall(env, e) <==> outcome.Failed? || outcome.Forwarded?)
  }

  /** A request past the policy was allowed, and one past the router names a known provider. */
  ghost predicate DecisionsOk(env: Env, m: Machine) {
    forall id :: id in m.phases ==>
      match m.phases[id]
      case Routing(_, _, d) => d.action.Allow?
      case Answering(meta, _, d, _) => d.action.Allow? && meta.provider in env.registered
      case _ => true
  }

  /** A store comes from a request, not a stream, that called its known provider and was answered with that body. */
  ghost predicate StoreMatches(env: Env, m: Machine, s: Store) {
    && s.id in m.phases && m.phases[s.id] == Done(Forwarded, Plain(200, s.response))
    && Call(s.id, s.provider, s.body) in m.world.calls
    && !env.streams(s.body) && s.provider in env.registered
  }

  /** Exactly one usage event for every request that got past the body read and finished. */
  ghost predicate EventsCounted(env: Env, m: Machine) {
    && (forall id: nat :: EventCount(m.world.events, id) == if Answered(m, id) then 1 else 0)
    && (forall e :: e in m.world.events ==> EventMatches(env, m, e))
  }

  /** Exactly one provider call for every request that came to the point of calling. */
  ghost predicate CallsCounted(m: Machine) {
    forall id: nat :: CallCount(m.world.calls, id) == if CalledProvider(m, id) then 1 else 0
  }

  /** Exactly one provider call for an event of a missed, allowed and routable request, and none for any other. */
  ghost predicate CallsFollowEvents(env: Env, m: Machine) {
    forall e :: e in m.world.events ==> CallCount(m.world.calls, e.id) == if MustCall(env, e) then 1 else 0
  }

  ghost predicate StoresMatch(env: Env, m: Machine) {
    && (forall s :: s in m.stores ==> StoreMatches(env, m, s))
    && (forall id :: id in m.phases && m.phases[id].Answering? ==>
          Call(id, m.phases[id].meta.provider, m.phases[id].body) in m.world.calls)
  }

  ghost function Total(m: Machine): nat {
    |Finished(m, Hit)| + |Finished(m, Held)| + |Finished(m, Denied)| + |Finished(m, Unrouted)|
    + |Finished(m, Failed)| + |Finished(m, Forwarded)|
  }

  ghost predicate Summed(m: Machine) {
    |m.world.events| == Total(m)
  }

  /** The request a step is about. */
  predicate Touches(step: Step, id: nat) {
    !step.Advance? && !step.Evict? && step.id == id
  }

  /** A finished request never moves again, and a step finishes at most its own request. */
  lemma ApplyPhases(env: Env, m: Machine, step: Step, id: nat)
    ensures id in m.phases && m.phases[id].Done? ==>
              id in Apply(env, m, step).phases && Apply(env, m, step).phases[id] == m.phases[id]
    ensures !Touches(step, id) ==>
              (id in m.phases <==> id in Apply(env, m, step).phases) &&
              (id in m.phases ==> Apply(env, m, step).phases[id] == m.phases[id])
  {
  }

  lemma ApplyEvents(env: Env, m: Machine, step: Step)
    requires DecisionsOk(env, m)
    ensures
      var m' := Apply(env, m, step);
      if |m'.world.events| == |m.world.events| then
        m'.world.events == m.world.events && forall id: nat :: Answered(m', id) <==> Answered(m, id)
      else
        && !(step.Advance? || step.Evict?) && !Answered(m, step.id) && Answered(m', step.id)
        && m'.world.events == m.world.events + [m'.world.events[|m.world.events|]]
        && m'.world.events[|m.world.events|].id == step.id && EventMatches(env, m', m'.world.events[|m.world.events|])
  {
    forall id: nat ensures Touches(step, id) || (Answered(Apply(env, m, step), id) <==> Answered(m, id)) {
      ApplyPhases(env, m, step, id);
    }
  }

  lemma ApplyCalls(env: Env, m: Machine, step: Step)
    ensures
      var m' := Apply(env, m, step);
      if |m'.world.calls| == |m.world.calls| then
        m'.world.calls == m.world.calls && forall id: nat :: CalledProvider(m', id) <==> CalledProvider(m, id)
      else
        && !(step.Advance? || step.Evict?) && !CalledProvider(m, step.id) && CalledProvider(m', step.id)
        && m'.world.calls == m.world.calls + [m'.world.calls[|m.world.calls|]]
        && m'.world.calls[|m.world.calls|].id == step.id
  {
    forall id: nat ensures Touches(step, id) || (CalledProvider(Apply(env, m, step), id) <==> CalledProvider(m, id)) {
      ApplyPhases(env, m, step, id);
    }
  }

  lemma ApplyKeepsDecisionsOk(env: Env, m: Machine, step: Step)
    requires DecisionsOk(env, m)
    ensures DecisionsOk(env, Apply(env, m, step))
  {
  }

  lemma ApplyKeepsEventsCounted(env: Env, m: Machine, step: Step)
    requires EventsCounted(env, m) && DecisionsOk(env, m)
    ensures EventsCounted(env, Apply(env, m, step))
  {
    var m' := Apply(env, m, step);
    ApplyEvents(env, m, step);
    if |m'.world.events| != |m.world.events| {
      assert m'.world.events[..|m.world.events|] == m.world.events;
    }
    forall id: nat ensures EventCount(m'.world.events, id) == if Answered(m', id) then 1 else 0 {
      ApplyPhases(env, m, step, id);
    }
    forall e | e in m'.world.events ensures EventMatches(env, m', e) {
      if e in m.world.events {
        assert EventMatches(env, m, e);
        ApplyPhases(env, m, step, e.id);
      }
    }
  }

  lemma ApplyKeepsCallsCounted(env: Env, m: Machine, step: Step)
    requires CallsCounted(m)
    ensures CallsCounted(Apply(env, m, step))
  {
    var m' := Apply(env, m, step);
    ApplyCalls(env, m, step);
    if |m'.world.calls| != |m.world.calls| {
      assert m'.world.calls[..|m.world.calls|] == m.world.calls;
    }
    forall id: nat ensures CallCount(m'.world.calls, id) == if CalledProvider(m', id) then 1 else 0 {
      if !Touches(step, id) {
        ApplyPhases(env, m, step, id);
      }
    }
  }

  lemma ApplyKeepsStoresMatch(env: Env, m: Machine, step: Step)
    requires StoresMatch(env, m) && DecisionsOk(env, m) && MetaFromBody(env, m)
    ensures StoresMatch(env, Apply(env, m, step))
  {
    var m' := Apply(env, m, step);
    forall s | s in m'.stores ensures StoreMatches(env, m', s) {
      if s in m.stores {
        assert StoreMatches(env, m, s);
        ApplyPhases(env, m, step, s.id);
      }
    }
  }

  predicate IsDone(m: Machine, id: nat) {
    id in m.phases && m.phases[id].Done?
  }

  lemma ApplyKeepsSummed(env: Env, m: Machine, step: Step)
    requires Summed(m) && DecisionsOk(env, m)
    ensures Summed(Apply(env, m, step))
  {
    var m' := Apply(env, m, step);
    ApplyEvents(env, m, step);
    ApplySameBut(env, m, step);
    if IsDone(m', Subject(step)) && !IsDone(m, Subject(step)) {
      TotalOne(m, m', Subject(step));
    } else {
      forall outcome: Outcome ensures Finished(m', outcome) == Finished(m, outcome) {
        FinishedSame(m, m', Subject(step), outcome);
      }
    }
  }

  /** Nothing but the request id changes its phase. */
  ghost predicate SameBut(m: Machine, m': Machine, id: nat) {
    forall x: nat :: x != id ==> (IsDone(m, x) <==> IsDone(m', x)) && (IsDone(m, x) ==> m'.phases[x] == m.phases[x])
  }

  lemma TotalOne(m: Machine, m': Machine, id: nat)
    requires IsDone(m', id) && !IsDone(m, id) && SameBut(m, m', id)
    ensures Total(m') == Total(m) + if m'.phases[id].outcome.Rejected? then 0 else 1
  {
    FinishedOne(m, m', id, Hit);
    FinishedOne(m, m', id, Held);
    FinishedOne(m, m', id, Denied);
    FinishedOne(m, m', id, Unrouted);
    FinishedOne(m, m', id, Failed);
    FinishedOne(m, m', id, Forwarded);
  }

  lemma InFinished(m: Machine, outcome: Outcome, id: nat)
    ensures id in Finished(m, outcome) <==> IsDone(m, id) && m.phases[id].outcome == outcome
  {
  }

  lemma FinishedOne(m: Machine, m': Machine, id: nat, outcome: Outcome)
    requires IsDone(m', id) && !IsDone(m, id) && SameBut(m, m', id)
    ensures |Finished(m', outcome)| == |Finished(m, outcome)| + if outcome == m'.phases[id].outcome then 1 else 0
  {
    var a, b := Finished(m, outcome), Finished(m', outcome);
    forall x: nat ensures x in b <==> x in a || (x == id && outcome == m'.phases[id].outcome) {
      InFinished(m, outcome, x);
      InFinished(m', outcome, x);
    }
    InFinished(m, outcome, id);
    if outcome == m'.phases[id].outcome {
      OneMore(a, b, id);
    } else {
      assert b == a;
    }
  }

  lemma FinishedSame(m: Machine, m': Machine, id: nat, outcome: Outcome)
    requires IsDone(m', id) <==> IsDone(m, id)
    requires IsDone(m, id) ==> m'.phases[id] == m.phases[id]
    requires SameBut(m, m', id)
    ensures Finished(m', outcome) == Finished(m, outcome)
  {
  }

  /** The request a step is about, or any. */
  function Subject(step: Step): nat {
    if step.Advance? || step.Evict? then 0 else step.id
  }

  lemma ApplySameBut(env: Env, m: Machine, step: Step)
    ensures SameBut(m, Apply(env, m, step), Subject(step))
    ensures IsDone(m, Subject(step)) ==> IsDone(Apply(env, m, step), Subject(step))
                                         && Apply(env, m, step).phases[Subject(step)] == m.phases[Subject(step)]
    ensures step.Advance? || step.Evict? ==> (IsDone(Apply(env, m, step), 0) <==> IsDone(m, 0))
  {
    forall id: nat { ApplyPhases(env, m, step, id); }
  }

  /** The two counts together: a call for each event that must have one. */
  lemma CountsAgree(env: Env, m: Machine)
    requires EventsCounted(env, m) && CallsCounted(m)
    ensures CallsFollowEvents(env, m)
  {
    forall e | e in m.world.events ensures CallCount(m.world.calls, e.id) == if MustCall(env, e) then 1 else 0 {
      assert EventMatches(env, m, e);
    }
  }

  /**
   Over any steps of any number of requests in flight: one usage event per finished request that got past
   the body read, telling how it ended; the provider called exactly once for an event that missed, was
   allowed and names a known provider, and never for another; stores only from such calls, never from
   streams; and the events add up.
   */
  lemma {:induction false} RunIsAccounted(env: Env, steps: seq<Step>)
    ensures EventsCounted(env, Run(env, steps)) && CallsCounted(Run(env, steps))
    ensures CallsFollowEvents(env, Run(env, steps)) && DecisionsOk(env, Run(env, steps))
    ensures StoresMatch(env, Run(env, steps)) && Summed(Run(env, steps))
  {
    if steps != [] {
      var n := |steps| - 1;
      RunIsAccounted(env, steps[..n]);
      RunKeepsMeta(env, steps[..n]);
      ApplyKeepsDecisionsOk(env, Run(env, steps[..n]), steps[n]);
      ApplyKeepsEventsCounted(env, Run(env, steps[..n]), steps[n]);
      ApplyKeepsCallsCounted(env, Run(env, steps[..n]), steps[n]);
      ApplyKeepsStoresMatch(env, Run(env, steps[..n]), steps[n]);
      ApplyKeepsSummed(env, Run(env, steps[..n]), steps[n]);
    }
    CountsAgree(env, Run(env, steps));
  }
}
