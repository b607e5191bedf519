/** ServeHTTP: one request taken through the pipeline on the handler's cache, publisher and router. */
module ProxyHandler {
  import opened Wrappers
  import opened PolicyEvaluator
  import opened ProxyCache
  import opened ProxyPipeline

  /** What the outside world answers during one request. elapsed is the time from the lookup to the store. */
  datatype Outside = Outside(redisGet: bool, opa: OpaResult, reply: Option<Reply>, elapsed: nat, redisSet: bool)

  /** How one request ends: what it leaves behind and what the client gets. */
  datatype Ended = Ended(world: World, outcome: Outcome, response: Response)

  // ----- The pipeline of one request, from each stage on

  function FinishOf(env: Env, now: int, w: World, id: nat, meta: Meta, body: string, d: Decision,
                    reply: Reply, o: Outside): Ended
  {
    var dlp := env.violates(env.promptOf(body));
    var event := EventOf(env, id, meta, body, reply.input, reply.output, Success, dlp, d.action);
    var w' := w.(events := w.events + [event]);
    if meta.isStream then Ended(w', Forwarded, Streamed)
    else
      var item := Item(reply.body, now + o.elapsed + DEFAULT_TTL);
      Ended(if o.redisSet then w'.(cache := w.cache[KeyOf(env, meta.provider, body) := item]) else w',
            Forwarded, Plain(200, reply.body))
  }

  function RouteOf(env: Env, now: int, w: World, id: nat, meta: Meta, body: string, d: Decision, o: Outside): Ended {
    var known := meta.provider in env.registered;
    var w' := if known then w.(calls := w.calls + [Call(id, meta.provider, body)]) else w;
    if known && o.reply.Some? then FinishOf(env, now, w', id, meta, body, d, o.reply.value, o)
    else
      Ended(w'.(events := w.events + [EventOf(env, id, meta, body, 0, 0, Error, false, d.action)]),
            if known then Failed else Unrouted,
            if meta.isStream && known then Streamed else Plain(502, "upstream-error"))
  }

  function DecideOf(env: Env, now: int, w: World, id: nat, meta: Meta, body: string, o: Outside): Ended {
    var d, dlp := Evaluate(o.opa, env.blank), env.violates(env.promptOf(body));
    if d.allow then RouteOf(env, now, w, id, meta, body, d, o)
    else if d.action.RequireApproval? then
      Ended(w.(alerts := w.alerts + [Alert(id, ApprovalRequired)],
               events := w.events + [EventOf(env, id, meta, body, 0, 0, Queued, dlp, d.action)]),
            Held, Plain(202, "require-approval"))
    else
      Ended(w.(alerts := w.alerts + (if dlp then [Alert(id, PiiDetected)] else []),
               events := w.events + [EventOf(env, id, meta, body, 0, 0, Blocked, dlp, d.action)]),
            Denied, Plain(403, "policy-block"))
  }

  function LookOf(env: Env, now: int, w: World, id: nat, meta: Meta, body: string, o: Outside): Ended {
    var found := if meta.isStream || !o.redisGet then None else Lookup(w.cache, now, KeyOf(env, meta.provider, body));
    if found.Some? then
      var event := UsageEvent(id, meta.org, meta.provider, meta.model, 0, 0, 0, Success, false, Allow, true);
      Ended(w.(events := w.events + [event]), Hit, Plain(200, found.value))
    else DecideOf(env, now, w, id, meta, body, o)
  }

  function Body(raw: string): string {
    if |raw| <= BODY_LIMIT then raw else raw[..BODY_LIMIT]
  }

  function MetaOf(env: Env, path: string, org: string, body: string): Meta {
    Meta(org, ProviderOf(path), env.modelOf(body), env.streams(body))
  }

  function ServeOf(env: Env, now: int, w: World, id: nat, path: string, org: string, raw: Option<string>,
                   o: Outside): Ended
  {
    if ProviderOf(path) == "" then Ended(w, Rejected, Plain(400, "invalid-request"))
    else if raw.None? then Ended(w, Rejected, Plain(400, "body-read-error"))
    else LookOf(env, now, w, id, MetaOf(env, path, org, Body(raw.value)), Body(raw.value), o)
  }

  // ----- The same request as steps of the machine, whatever else is in flight

  function AfterRoute(env: Env, m: Machine, id: nat, o: Outside): Machine {
    Apply(env, Apply(env, m, Advance(o.elapsed)), Finish(id, o.redisSet))
  }

  function AfterDecide(env: Env, m: Machine, id: nat, o: Outside): Machine {
    AfterRoute(env, Apply(env, m, Route(id, o.reply)), id, o)
  }

  function AfterLook(env: Env, m: Machine, id: nat, o: Outside): Machine {
    AfterDecide(env, Apply(env, m, Decide(id, o.opa)), id, o)
  }

  function AfterArrive(env: Env, m: Machine, id: nat, o: Outside): Machine {
    AfterLook(env, Apply(env, m, LookUp(id, o.redisGet)), id, o)
  }

  predicate EndsAs(m: Machine, id: nat, e: Ended) {
    m.world == e.world && id in m.phases && m.phases[id] == Done(e.outcome, e.response)
  }

  /** The end of a request that is done already. */
  function Ending(m: Machine, id: nat): Ended
    requires id in m.phases && m.phases[id].Done?
  {
    Ended(m.world, m.phases[id].outcome, m.phases[id].response)
  }

  lemma RouteStage(env: Env, m: Machine, id: nat, o: Outside)
    requires id in m.phases
    ensures m.phases[id].Done? ==> EndsAs(AfterRoute(env, m, id, o), id, Ending(m, id))
    ensures m.phases[id].Answering? ==>
              var p := m.phases[id];
              EndsAs(AfterRoute(env, m, id, o), id,
                     FinishOf(env, m.now, m.world, id, p.meta, p.body, p.decision, p.reply, o))
  {
  }

  lemma DecideStage(env: Env, m: Machine, id: nat, o: Outside)
    requires id in m.phases
    ensures m.phases[id].Done? ==> EndsAs(AfterDecide(env, m, id, o), id, Ending(m, id))
    ensures m.phases[id].Routing? ==>
              var p := m.phases[id];
              EndsAs(AfterDecide(env, m, id, o), id, RouteOf(env, m.now, m.world, id, p.meta, p.body, p.decision, o))
  {
    RouteStage(env, Apply(env, m, Route(id, o.reply)), id, o);
  }

  lemma LookStage(env: Env, m: Machine, id: nat, o: Outside)
    requires id in m.phases
    ensures m.phases[id].Done? ==> EndsAs(AfterLook(env, m, id, o), id, Ending(m, id))
    ensures m.phases[id].Deciding? ==>
              var p := m.phases[id];
              EndsAs(AfterLook(env, m, id, o), id, DecideOf(env, m.now, m.world, id, p.meta, p.body, o))
  {
    DecideStage(env, Apply(env, m, Decide(id, o.opa)), id, o);
  }

  lemma ArriveStage(env: Env, m: Machine, id: nat, o: Outside)
    requires id in m.phases
    ensures m.phases[id].Done? ==> EndsAs(AfterArrive(env, m, id, o), id, Ending(m, id))
    ensures m.phases[id].Looking? ==>
              var p := m.phases[id];
              EndsAs(AfterArrive(env, m, id, o), id, LookOf(env, m.now, m.world, id, p.meta, p.body, o))
  {
    LookStage(env, Apply(env, m, LookUp(id, o.redisGet)), id, o);
  }

  /** A request served without interruption ends exactly as its steps do on the machine. */
  lemma ServingIsARun(env: Env, m: Machine, id: nat, path: string, org: string, raw: Option<string>, o: Outside)
    requires id !in m.phases
    ensures EndsAs(AfterArrive(env, Apply(env, m, Arrive(id, path, org, raw)), id, o), id,
                   ServeOf(env, m.now, m.world, id, path, org, raw, o))
  {
    ArriveStage(env, Apply(env, m, Arrive(id, path, org, raw)), id, o);
  }

  /** What the request finds: is it past the body read, and does the cache answer it? */
  predicate Accepted(path: string, raw: Option<string>) {
    ProviderOf(path) != "" && raw.Some?
  }

  function Found(env: Env, now: int, w: World, path: string, raw: string, o: Outside): Option<string> {
    if env.streams(Body(raw)) || !o.redisGet then None
    else Lookup(w.cache, now, KeyOf(env, ProviderOf(path), Body(raw)))
  }

  /** Allowed, missed, and naming a provider the router knows. */
  predicate CallsProvider(env: Env, now: int, w: World, path: string, raw: Option<string>, o: Outside) {
    Accepted(path, raw) && Found(env, now, w, path, raw.value, o).None? && ProviderOf(path) in env.registered
    && (o.opa.EvalError? || (o.opa.Result? && o.opa.allow == Some(true)))
  }

  /**
   The provider is called exactly on an allowed miss, only its answer changes the cache, and every
   accepted request leaves exactly one event.
   */
  lemma ServeEffects(env: Env, now: int, w: World, id: nat, path: string, org: string, raw: Option<string>, o: Outside)
    ensures
      var w' := ServeOf(env, now, w, id, path, org, raw, o).world;
      var called := CallsProvider(env, now, w, path, raw, o);
      && w'.calls == w.calls + (if called then [Call(id, ProviderOf(path), Body(raw.value))] else [])
      && w'.cache == (if called && o.reply.Some? && !env.streams(Body(raw.value)) && o.redisSet
                      then w.cache[KeyOf(env, ProviderOf(path), Body(raw.value)) :=
                                   Item(o.reply.value.body, now + o.elapsed + DEFAULT_TTL)]
                      else w.cache)
      && |w'.events| == |w.events| + (if Accepted(path, raw) then 1 else 0) && w.events <= w'.events
      && w'.alerts == w.alerts +
         (if !Accepted(path, raw) then []
          else match ServeOf(env, now, w, id, path, org, raw, o).outcome
               case Held => [Alert(id, ApprovalRequired)]
               case Denied => if env.violates(env.promptOf(Body(raw.value))) then [Alert(id, PiiDetected)] else []
               case _ => [])
  {
  }

  /** The event's status and the response, by outcome. */
  lemma ServeOutcomes(env: Env, now: int, w: World, id: nat, path: string, org: string, raw: Option<string>, o: Outside)
    requires Accepted(path, raw)
    ensures
      var e := ServeOf(env, now, w, id, path, org, raw, o);
      var hit := Found(env, now, w, path, raw.value, o);
      var event := e.world.events[|e.world.events| - 1];
      && |e.world.events| > 0 && event.id == id && event.status == StatusOf(e.outcome)
      && (event.cacheHit <==> hit.Some?) && (e.outcome.Hit? <==> hit.Some?)
      && (hit.Some? ==> e.response == Plain(200, hit.value))
      && (e.outcome.Forwarded? <==> CallsProvider(env, now, w, path, raw, o) && o.reply.Some?)
      && (e.outcome.Forwarded? && !env.streams(Body(raw.value)) ==> e.response == Plain(200, o.reply.value.body))
      && (event.status == Queued ==>
            o.opa.Result? && o.opa.requiresApproval == Some(true) && e.response == Plain(202, "require-approval"))
      && (event.status == Blocked ==> e.response == Plain(403, "policy-block"))
      && (event.status == Success <==> hit.Some? || e.outcome.Forwarded?)
      && (event.status == Error <==> hit.None? && Evaluate(o.opa, env.blank).allow && !e.outcome.Forwarded?)
  {
  }

  /** The event's token counts are the provider's, its scan flag is that of the prompt when the scan ran. */
  lemma ServeCounts(env: Env, now: int, w: World, id: nat, path: string, org: string, raw: Option<string>, o: Outside)
    requires Accepted(path, raw)
    ensures
      var e := ServeOf(env, now, w, id, path, org, raw, o);
      var event := e.world.events[|e.world.events| - 1];
      && |e.world.events| > 0 && event.org == org && event.provider == ProviderOf(path)
      && event.model == env.modelOf(Body(raw.value))
      && event.estimated ==
         (if e.outcome.Hit? then 0 else env.estimate(env.promptOf(Body(raw.value)), ProviderOf(path)))
      && (if e.outcome.Forwarded? then event.input == o.reply.value.input && event.output == o.reply.value.output
          else event.input == 0 && event.output == 0)
      && (event.dlp <==> env.violates(env.promptOf(Body(raw.value))) && !e.outcome.Hit? && event.status != Error)
  {
  }

  /** A request that is turned away leaves nothing behind; a failed call or an unknown provider answers 502. */
  lemma ServeRefusals(env: Env, now: int, w: World, id: nat, path: string, org: string, raw: Option<string>, o: Outside)
    ensures
      var e := ServeOf(env, now, w, id, path, org, raw, o);
      && (e.outcome.Rejected? <==> ProviderOf(path) == "" || raw.None?)
      && (e.outcome.Rejected? ==> e.world == w)
      && (ProviderOf(path) == "" ==> e.response == Plain(400, "invalid-request"))
      && (ProviderOf(path) != "" && raw.None? ==> e.response == Plain(400, "body-read-error"))
      && (e.outcome.Unrouted? ==> e.response == Plain(502, "upstream-error"))
      && (e.outcome.Failed? ==>
            e.response == if env.streams(Body(raw.value)) then Streamed else Plain(502, "upstream-error"))
      && (e.outcome.Forwarded? && env.streams(Body(raw.value)) ==> e.response == Streamed)
  {
  }

  /** The body is read up to 8 MB. */
  lemma BodyIsCut(raw: string)
    ensures Body(raw) <= raw && |Body(raw)| == if |raw| <= 8_388_608 then |raw| else 8_388_608
  {
  }

  class Handler {
    const env: Env
    const cache: SemanticCache
    var events: seq<UsageEvent>
    var alerts: seq<Alert>
    var calls: seq<Call>

    ghost predicate Valid() {
      cache.sha == env.sha
    }

    ghost function Seen(): World
      reads this, cache
    {
      World(cache.entries, events, alerts, calls)
    }

    constructor (env: Env, cache: SemanticCache)
      requires cache.sha == env.sha
      ensures Valid() && this.env == env && this.cache == cache && Seen() == World(cache.entries, [], [], [])
    {
      this.env := env;
      this.cache := cache;
      events, alerts, calls := [], [], [];
    }

    method PublishEvent(id: nat, meta: Meta, estimated: int, input: int, output: int, status: Status,
                        dlp: bool, action: Action, cacheHit: bool)
      modifies this`events
      ensures events == old(events) +
        [UsageEvent(id, meta.org, meta.provider, meta.model, estimated, input, output, status, dlp, action, cacheHit)]
    {
      events := events +
        [UsageEvent(id, meta.org, meta.provider, meta.model, estimated, input, output, status, dlp, action, cacheHit)];
    }

    /** Steps 1 to 3: metadata, body, cache. */
    method ServeHTTP(now: int, id: nat, path: string, org: string, raw: Option<string>, o: Outside)
      returns (response: Response)
      requires Valid()
      modifies this, cache
      ensures Seen() == ServeOf(env, now, old(Seen()), id, path, org, raw, o).world
      ensures response == ServeOf(env, now, old(Seen()), id, path, org, raw, o).response
    {
      var provider := ProviderOf(path);
      if provider == "" {
        return Plain(400, "invalid-request");
      }
      if raw.None? {
        return Plain(400, "body-read-error");
      }
      var body := Body(raw.value);
      var meta := Meta(org, provider, env.modelOf(body), env.streams(body));
      if !meta.isStream {
        var cached := cache.Get(now, meta.provider, meta.model, body, o.redisGet);
        if cached.Some? {
          PublishEvent(id, meta, 0, 0, 0, Success, false, Allow, true);
          return Plain(200, cached.value);
        }
      }
      response := Govern(now, id, meta, body, o);
    }

    /** Steps 4 to 6: scan, estimate, policy. */
    method Govern(now: int, id: nat, meta: Meta, body: string, o: Outside) returns (response: Response)
      requires Valid() && meta.model == env.modelOf(body)
      modifies this, cache
      ensures Seen() == DecideOf(env, now, old(Seen()), id, meta, body, o).world
      ensures response == DecideOf(env, now, old(Seen()), id, meta, body, o).response
    {
      var prompt := env.promptOf(body);
      var dlp := env.violates(prompt);
      var estimated := env.estimate(prompt, meta.provider);
      var decision := Evaluate(o.opa, env.blank);
      if !decision.allow {
        if decision.action.RequireApproval? {
          alerts := alerts + [Alert(id, ApprovalRequired)];
          PublishEvent(id, meta, estimated, 0, 0, Queued, dlp, decision.action, false);
          return Plain(202, "require-approval");
        }
        if dlp {
          alerts := alerts + [Alert(id, PiiDetected)];
        }
        PublishEvent(id, meta, estimated, 0, 0, Blocked, dlp, decision.action, false);
        return Plain(403, "policy-block");
      }
      response := Forward(now, id, meta, body, decision, estimated, dlp, o);
    }

    /** Steps 7 to 9: route, answer, store, publish. */
    method Forward(now: int, id: nat, meta: Meta, body: string, decision: Decision,
                   estimated: int, dlp: bool, o: Outside)
      returns (response: Response)
      requires Valid() && meta.model == env.modelOf(body)
      requires estimated == env.estimate(env.promptOf(body), meta.provider) && dlp == env.violates(env.promptOf(body))
      modifies this, cache
      ensures Seen() == RouteOf(env, now, old(Seen()), id, meta, body, decision, o).world
      ensures response == RouteOf(env, now, old(Seen()), id, meta, body, decision, o).response
    {
      var known := meta.provider in env.registered;
      if known {
        calls := calls + [Call(id, meta.provider, body)];
      }
      if !known || o.reply.None? {
        PublishEvent(id, meta, estimated, 0, 0, Error, false, decision.action, false);
        return if meta.isStream && known then Streamed else Plain(502, "upstream-error");
      }
      var reply := o.reply.value;
      response := Streamed;
      if !meta.isStream {
        response := Plain(200, reply.body);
        cache.Set(now + o.elapsed, meta.provider, meta.model, body, reply.body, 0, o.redisSet);
      }
      PublishEvent(id, meta, estimated, reply.input, reply.output, Success, dlp, decision.action, false);
    }
  }
}
