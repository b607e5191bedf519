/** What the steps themselves say of a request, and that provider calls, events and stores follow it. */
module ProxyHistory {
  import opened Wrappers
  import opened PolicyEvaluator
  import opened ProxyCache
  import opened ProxyPipeline

  /** The policy engine lets the request pass: it says so, or it fails. */
  predicate Permits(opa: OpaResult) {
    opa.EvalError? || (opa.Result? && opa.allow == Some(true))
  }

  /** With this step the request looks, and the cache has nothing for it. */
  predicate MissesNow(env: Env, m: Machine, step: Step, id: nat) {
    && step.LookUp? && step.id == id && id in m.phases && m.phases[id].Looking?
    && var p := m.phases[id];
    && (env.streams(p.body) || !step.redisUp || Lookup(m.world.cache, m.now, KeyOf(env, p.meta.provider, p.body)).None?)
  }

  /** With this step the policy is asked about the request, and permits it. */
  predicate PermitsNow(m: Machine, step: Step, id: nat) {
    step.Decide? && step.id == id && id in m.phases && m.phases[id].Deciding? && Permits(step.opa)
  }

  /** Somewhere in the run the cache missed for this request. */
  predicate Missed(env: Env, steps: seq<Step>, id: nat) {
    steps != [] &&
    var n := |steps| - 1;
    Missed(env, steps[..n], id) || MissesNow(env, Run(env, steps[..n]), steps[n], id)
  }

  /** Somewhere in the run the policy permitted this request. */
  predicate Permitted(env: Env, steps: seq<Step>, id: nat) {
    steps != [] &&
    var n := |steps| - 1;
    Permitted(env, steps[..n], id) || PermitsNow(Run(env, steps[..n]), steps[n], id)
  }

  /** The phase a request can be in, given what happened to it. */
  predicate PhaseTells(m: Machine, id: nat, missed: bool, permitted: bool) {
    if id !in m.phases then !missed && !permitted
    else
      match m.phases[id]
      case Looking(_, _) => !missed && !permitted
      case Deciding(_, _) => missed && !permitted
      case Routing(_, _, _) => missed && permitted
      case Answering(_, _, _, _) => missed && permitted
      case Done(outcome, _) =>
        match outcome
        case Rejected => !missed && !permitted
        case Hit => !missed && !permitted
        case Held => missed && !permitted
        case Denied => missed && !permitted
        case _ => missed && permitted
  }

  lemma OwnStepTells(env: Env, m: Machine, step: Step, id: nat, missed: bool, permitted: bool)
    requires MetaFromBody(env, m) && PhaseTells(m, id, missed, permitted) && Touches(step, id)
    ensures PhaseTells(Apply(env, m, step), id,
                       missed || MissesNow(env, m, step, id), permitted || PermitsNow(m, step, id))
  {
  }

  lemma StepTells(env: Env, m: Machine, step: Step, id: nat, missed: bool, permitted: bool)
    requires MetaFromBody(env, m) && PhaseTells(m, id, missed, permitted)
    ensures PhaseTells(Apply(env, m, step), id,
                       missed || MissesNow(env, m, step, id), permitted || PermitsNow(m, step, id))
  {
    if Touches(step, id) {
      OwnStepTells(env, m, step, id, missed, permitted);
    } else {
      ApplyPhases(env, m, step, id);
    }
  }

  lemma {:induction false} RunTells(env: Env, steps: seq<Step>, id: nat)
    ensures PhaseTells(Run(env, steps), id, Missed(env, steps, id), Permitted(env, steps, id))
  {
    if steps != [] {
      var n := |steps| - 1;
      RunTells(env, steps[..n], id);
      RunKeepsMeta(env, steps[..n]);
      StepTells(env, Run(env, steps[..n]), steps[n], id, Missed(env, steps[..n], id), Permitted(env, steps[..n], id));
    }
  }

  /**
   Over any run, of any requests in flight: a request that ended with an event had its provider called
   exactly once when the cache missed, the policy permitted it and the provider is known, and not at all
   otherwise; its event says a hit exactly when the cache did not miss, and blocked or queued exactly
   when it missed without being permitted.
   */
  lemma CalledIffPermittedMiss(env: Env, steps: seq<Step>, e: UsageEvent)
    requires e in Run(env, steps).world.events
    ensures
      var missed, permitted := Missed(env, steps, e.id), Permitted(env, steps, e.id);
      && CallCount(Run(env, steps).world.calls, e.id) ==
         (if missed && permitted && e.provider in env.registered then 1 else 0)
      && (e.cacheHit <==> !missed)
      && (e.status == Blocked || e.status == Queued <==> missed && !permitted)
  {
    RunIsAccounted(env, steps);
    RunTells(env, steps, e.id);
    assert EventMatches(env, Run(env, steps), e);
  }

  lemma {:induction false} CallIsCounted(calls: seq<Call>, c: Call)
    requires c in calls
    ensures CallCount(calls, c.id) > 0
  {
    var n := |calls| - 1;
    if calls[n] != c {
      assert calls == calls[..n] + [calls[n]];
      CallIsCounted(calls[..n], c);
    }
  }

  /** No provider is called for a request, finished or not, that the cache answered or the policy did not permit. */
  lemma CallsArePermittedMisses(env: Env, steps: seq<Step>, c: Call)
    requires c in Run(env, steps).world.calls
    ensures Missed(env, steps, c.id) && Permitted(env, steps, c.id)
  {
    RunIsAccounted(env, steps);
    RunTells(env, steps, c.id);
    CallIsCounted(Run(env, steps).world.calls, c);
  }

  /** So only responses to permitted misses that are no streams are ever stored. */
  lemma StoresArePermittedMisses(env: Env, steps: seq<Step>, s: Store)
    requires s in Run(env, steps).stores
    ensures Missed(env, steps, s.id) && Permitted(env, steps, s.id)
    ensures !env.streams(s.body) && s.provider in env.registered
    ensures Call(s.id, s.provider, s.body) in Run(env, steps).world.calls
  {
    RunIsAccounted(env, steps);
    RunTells(env, steps, s.id);
    assert StoreMatches(env, Run(env, steps), s);
  }
}
