/** The response cache: Redis keys, expiry, and when two keys are equal. */
module ProxyCache {
  import opened Wrappers

  const DEFAULT_TTL := 3_600_000  // one hour, in milliseconds
  const KEY_PREFIX := "aigcm:cache:"

  datatype Item = Item(body: string, expires: int)

  type Entries = map<string, Item>

  function BuildKey(sha: string -> string, provider: string, model: string, prompt: string): string {
    KEY_PREFIX + provider + ":" + model + ":" + sha(prompt)
  }

  /** Redis answers nothing for a key that expired, was evicted or was never set. */
  function Lookup(entries: Entries, now: int, key: string): Option<string> {
    if key in entries && now < entries[key].expires then Some(entries[key].body) else None
  }

  /** Two requests share a key exactly when their prompts and their joined provider and model agree. */
  lemma KeysEqualIff(sha: string -> string, provider: string, model: string, prompt: string,
                     provider': string, model': string, prompt': string)
    requires |sha(prompt)| == |sha(prompt')|
    requires sha(prompt) == sha(prompt') ==> prompt == prompt'
    ensures BuildKey(sha, provider, model, prompt) == BuildKey(sha, provider', model', prompt') <==>
            prompt == prompt' && provider + ":" + model == provider' + ":" + model'
    ensures "aigcm:cache:" <= BuildKey(sha, provider, model, prompt)
  {
    var name, name' := provider + ":" + model, provider' + ":" + model';
    var head, head' := KEY_PREFIX + name + ":", KEY_PREFIX + name' + ":";
    var key, key' := BuildKey(sha, provider, model, prompt), BuildKey(sha, provider', model', prompt');
    assert key == head + sha(prompt) && key' == head' + sha(prompt');
    if key == key' {
      assert |head| == |head'|;
      assert sha(prompt) == key[|head|..] && sha(prompt') == key'[|head'|..];
      assert name == key[|KEY_PREFIX|..|head| - 1] && name' == key'[|KEY_PREFIX|..|head'| - 1];
    }
  }

  /**
   Providers and models may contain the separator, so the key is not injective in its three parts;
   it is once the model is a function of the prompt.
   */
  lemma KeyInjective(sha: string -> string, modelOf: string -> string,
                     provider: string, prompt: string, provider': string, prompt': string)
    requires |sha(prompt)| == |sha(prompt')|
    requires sha(prompt) == sha(prompt') ==> prompt == prompt'
    requires BuildKey(sha, provider, modelOf(prompt), prompt) == BuildKey(sha, provider', modelOf(prompt'), prompt')
    ensures provider == provider' && prompt == prompt'
  {
    KeysEqualIff(sha, provider, modelOf(prompt), prompt, provider', modelOf(prompt'), prompt');
    var tail := ":" + modelOf(prompt);
    var name, name' := provider + tail, provider' + tail;
    assert name == provider + ":" + modelOf(prompt) && name' == provider' + ":" + modelOf(prompt');
    assert |provider| == |provider'|;
    assert provider == name[..|provider|] && provider' == name'[..|provider'|];
  }

  /** With the model chosen freely, two different requests for one prompt can share a key. */
  lemma KeyAmbiguousInModel(sha: string -> string, prompt: string)
    ensures BuildKey(sha, "a:b", "c", prompt) == BuildKey(sha, "a", "b:c", prompt)
  {
    assert KEY_PREFIX + "a:b" + ":" + "c" == KEY_PREFIX + "a" + ":" + "b:c";
  }

  class SemanticCache {
    const sha: string -> string
    var entries: Entries

    constructor (sha: string -> string)
      ensures this.sha == sha && entries == map[]
    {
      this.sha := sha;
      entries := map[];
    }

    method Get(now: int, provider: string, model: string, prompt: string, redisUp: bool)
      returns (response: Option<string>)
      ensures response == if redisUp then Lookup(entries, now, BuildKey(sha, provider, model, prompt)) else None
    {
      var key := BuildKey(sha, provider, model, prompt);
      if !redisUp || key !in entries || entries[key].expires <= now {
        return None;
      }
      return Some(entries[key].body);
    }

    /** ttl 0 stands for the default; a Redis failure is ignored and leaves the entry that was there. */
    method Set(now: int, provider: string, model: string, prompt: string, response: string, ttl: nat, redisUp: bool)
      modifies this
      ensures
        var item := Item(response, now + if ttl == 0 then DEFAULT_TTL else ttl);
        entries == if redisUp then old(entries)[BuildKey(sha, provider, model, prompt) := item] else old(entries)
    {
      var lifetime := if ttl == 0 then DEFAULT_TTL else ttl;
      if redisUp {
        entries := entries[BuildKey(sha, provider, model, prompt) := Item(response, now + lifetime)];
      }
    }

    method Invalidate(provider: string, model: string, prompt: string, redisUp: bool)
      modifies this
      ensures entries == if redisUp then old(entries) - {BuildKey(sha, provider, model, prompt)} else old(entries)
    {
      if redisUp {
        entries := entries - {BuildKey(sha, provider, model, prompt)};
      }
    }
  }
}
