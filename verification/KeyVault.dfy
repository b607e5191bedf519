/** The key vault: nonce-prefixed ciphertexts, and the store of encrypted keys per organisation. */
module KeyVault {
  import opened Wrappers

  const NONCE_SIZE := 12

  /** seal and open are AES-256-GCM under the master key, hash is hex(SHA-256); bytes are characters here. */
  datatype Env = Env(seal: (string, string) -> string, open: (string, string) -> Option<string>, hash: string -> string)

  /** Opening inverts sealing under the same nonce. */
  ghost predicate OpensWhatItSeals(env: Env) {
    forall nonce: string, plain: string :: env.open(nonce, env.seal(nonce, plain)) == Some(plain)
  }

  datatype VaultError = TooShort | OpenFailed | KeyNotFound | DbError

  function Encrypt(env: Env, plain: string, nonce: string): string {
    nonce + env.seal(nonce, plain)
  }

  function Decrypt(env: Env, ciphertext: string): Result<string, VaultError> {
    if |ciphertext| < NONCE_SIZE then Err(TooShort)
    else
      match env.open(ciphertext[..NONCE_SIZE], ciphertext[NONCE_SIZE..])
      case Some(plain) => Ok(plain)
      case None => Err(OpenFailed)
  }

  lemma DecryptInvertsEncrypt(env: Env, plain: string, nonce: string)
    requires OpensWhatItSeals(env) && |nonce| == 12
    ensures Decrypt(env, Encrypt(env, plain, nonce)) == Ok(plain)
  {
    var c := Encrypt(env, plain, nonce);
    assert c[..NONCE_SIZE] == nonce && c[NONCE_SIZE..] == env.seal(nonce, plain);
  }

  /** The first 12 bytes are the nonce; what is shorter or does not open is refused. */
  lemma DecryptIs(env: Env, c: string)
    ensures
      if |c| < 12 then Decrypt(env, c) == Err(TooShort)
      else match env.open(c[..12], c[12..]) case Some(plain) => Decrypt(env, c) == Ok(plain)
                                             case None => Decrypt(env, c) == Err(OpenFailed)
  {
  }

  datatype Record = Record(org: string, keyHash: string, encrypted: string, active: bool)

  /** api_keys and key_rotation_log. */
  datatype Tables = Tables(keys: map<string, Record>, rotations: seq<(string, string)>)

  const EMPTY := Tables(map[], [])

  predicate Owns(t: Tables, id: string, org: string) {
    id in t.keys && t.keys[id].org == org
  }

  // ----- The operations

  function Created(env: Env, t: Tables, id: string, org: string, plain: string, nonce: string): Tables {
    t.(keys := t.keys[id := Record(org, env.hash(plain), Encrypt(env, plain, nonce), true)])
  }

  /**
   The update filters on the organisation, the log entry only needs the key to exist: a rotation under
   another organisation succeeds, is logged, and changes no key.
   */
  function Rotated(env: Env, t: Tables, id: string, org: string, plain: string, reason: string, nonce: string): Tables {
    if id !in t.keys then t
    else
      var renewed := t.keys[id].(encrypted := Encrypt(env, plain, nonce), keyHash := env.hash(plain));
      Tables(if t.keys[id].org == org then t.keys[id := renewed] else t.keys, t.rotations + [(id, reason)])
  }

  function Deactivated(t: Tables, id: string, org: string): Tables {
    if Owns(t, id, org) then t.(keys := t.keys[id := t.keys[id].(active := false)]) else t
  }

  class Store {
    const env: Env
    var keys: map<string, Record>
    var rotations: seq<(string, string)>

    ghost function Seen(): Tables
      reads this
    {
      Tables(keys, rotations)
    }

    constructor (env: Env)
      ensures this.env == env && Seen() == EMPTY
    {
      this.env := env;
      keys, rotations := map[], [];
    }

    /** id is the fresh UUID of the new key. */
    method Create(id: string, org: string, plain: string, nonce: string, dbOk: bool)
      returns (res: Result<Record, VaultError>)
      requires id !in keys
      modifies this
      ensures Seen() == if dbOk then Created(env, old(Seen()), id, org, plain, nonce) else old(Seen())
      ensures res == if dbOk then Ok(keys[id]) else Err(DbError)
    {
      var encrypted := Encrypt(env, plain, nonce);
      var hash := env.hash(plain);
      if !dbOk {
        return Err(DbError);
      }
      keys := keys[id := Record(org, hash, encrypted, true)];
      return Ok(keys[id]);
    }

    /** One transaction of two statements: an error in either leaves both tables as they were. */
    method Rotate(id: string, org: string, plain: string, reason: string, nonce: string, dbOk: bool)
      returns (err: Option<VaultError>)
      modifies this
      ensures Seen() == if dbOk then Rotated(env, old(Seen()), id, org, plain, reason, nonce) else old(Seen())
      ensures err.None? <==> dbOk && id in old(keys)
    {
      var encrypted := Encrypt(env, plain, nonce);
      var hash := env.hash(plain);
      if !dbOk {
        return Some(DbError);
      }
      var updated := if id in keys && keys[id].org == org
                     then keys[id := keys[id].(encrypted := encrypted, keyHash := hash)] else keys;
      if id !in updated {
        return Some(DbError);
      }
      keys, rotations := updated, rotations + [(id, reason)];
      return None;
    }

    method Deactivate(id: string, org: string, dbOk: bool) returns (err: Option<VaultError>)
      modifies this
      ensures Seen() == if dbOk then Deactivated(old(Seen()), id, org) else old(Seen())
      ensures err.None? <==> dbOk
    {
      if !dbOk {
        return Some(DbError);
      }
      if id in keys && keys[id].org == org {
        keys := keys[id := keys[id].(active := false)];
      }
      return None;
    }

    method DecryptKey(id: string, org: string) returns (res: Result<string, VaultError>)
      ensures res == Reveal(env, Seen(), id, org)
    {
      if id !in keys || keys[id].org != org || !keys[id].active {
        return Err(KeyNotFound);
      }
      return Decrypt(env, keys[id].encrypted);
    }
  }

  /** What Decrypt answers for a key id. */
  function Reveal(env: Env, t: Tables, id: string, org: string): Result<string, VaultError> {
    if Owns(t, id, org) && t.keys[id].active then Decrypt(env, t.keys[id].encrypted) else Err(KeyNotFound)
  }

  // ----- Runs

  datatype Step =
    | Create(id: string, org: string, plain: string, nonce: string)
    | Rotate(id: string, org: string, plain: string, reason: string, nonce: string)
    | Deactivate(id: string, org: string)

  /** New ids are random UUIDs: creating an id that exists does not happen. */
  function Apply(env: Env, t: Tables, step: Step): Tables {
    match step
    case Create(id, org, plain, nonce) => if id in t.keys then t else Created(env, t, id, org, plain, nonce)
    case Rotate(id, org, plain, reason, nonce) => Rotated(env, t, id, org, plain, reason, nonce)
    case Deactivate(id, org) => Deactivated(t, id, org)
  }

  function Run(env: Env, steps: seq<Step>): Tables {
    if steps == [] then EMPTY else Apply(env, Run(env, steps[..|steps| - 1]), steps[|steps| - 1])
  }

  // ----- Reference: what the steps themselves say about one key

  /** The organisation that created the key, the plaintext it stored last, and whether it deactivated it. */
  datatype Known = Unknown | Known(org: string, plain: string, active: bool)

  function Story(steps: seq<Step>, id: string): Known {
    if steps == [] then Unknown
    else
      var k, last := Story(steps[..|steps| - 1], id), steps[|steps| - 1];
      if last.id != id then k
      else if k.Unknown? then (if last.Create? then Known(last.org, last.plain, true) else Unknown)
      else if last.org != k.org then k
      else match last
           case Create(_, _, _, _) => k
           case Rotate(_, _, plain, _, _) => k.(plain := plain)
           case Deactivate(_, _) => k.(active := false)
  }

  /**
   In every reachable state a key is there exactly when it was created; its ciphertext decrypts to the
   plaintext its own organisation stored last, its hash is that plaintext's, and it is active until that
   organisation deactivates it, whatever other organisations did with its id.
   */
  lemma {:induction false} StoreFollowsStory(env: Env, steps: seq<Step>, id: string)
    requires OpensWhatItSeals(env)
    requires forall i :: 0 <= i < |steps| && !steps[i].Deactivate? ==> |steps[i].nonce| == NONCE_SIZE
    ensures
      var t, k := Run(env, steps), Story(steps, id);
      && (id in t.keys <==> k.Known?)
      && (k.Known? ==>
            && t.keys[id].org == k.org && t.keys[id].active == k.active && t.keys[id].keyHash == env.hash(k.plain)
            && Decrypt(env, t.keys[id].encrypted) == Ok(k.plain))
  {
    if steps != [] {
      var n := |steps| - 1;
      StoreFollowsStory(env, steps[..n], id);
      if !steps[n].Deactivate? {
        DecryptInvertsEncrypt(env, steps[n].plain, steps[n].nonce);
      }
    }
  }

  /** So Decrypt gives a key's latest plaintext to its own organisation while it is active, and nothing otherwise. */
  lemma RevealFollowsStory(env: Env, steps: seq<Step>, id: string, org: string)
    requires OpensWhatItSeals(env)
    requires forall i :: 0 <= i < |steps| && !steps[i].Deactivate? ==> |steps[i].nonce| == NONCE_SIZE
    ensures
      var k := Story(steps, id);
      Reveal(env, Run(env, steps), id, org) ==
      if k.Known? && k.org == org && k.active then Ok(k.plain) else Err(KeyNotFound)
  {
    StoreFollowsStory(env, steps, id);
  }

  lemma RunSplits(env: Env, steps: seq<Step>, more: Step)
    ensures Run(env, steps + [more]) == Apply(env, Run(env, steps), more)
  {
    assert (steps + [more])[..|steps|] == steps;
  }

  /** An inactive key stays inactive and undecryptable, and keeps its organisation, under any further steps. */
  lemma {:induction false} InactiveForever(env: Env, steps: seq<Step>, more: seq<Step>, id: string, org: string)
    requires id in Run(env, steps).keys && !Run(env, steps).keys[id].active
    ensures
      var t := Run(env, steps + more);
      && id in t.keys && !t.keys[id].active && t.keys[id].org == Run(env, steps).keys[id].org
      && Reveal(env, t, id, org) == Err(KeyNotFound)
  {
    if more == [] {
      assert steps + more == steps;
    } else {
      var n := |more| - 1;
      InactiveForever(env, steps, more[..n], id, org);
      assert steps + more == steps + more[..n] + [more[n]];
      RunSplits(env, steps + more[..n], more[n]);
    }
  }

  /** A step of one organisation leaves every key of another as it was. */
  lemma OtherOrgsUntouched(env: Env, t: Tables, step: Step, id: string)
    requires id in t.keys && t.keys[id].org != step.org
    ensures id in Apply(env, t, step).keys && Apply(env, t, step).keys[id] == t.keys[id]
  {
  }

  /** A rotation that reports success replaced the key exactly when it was made by the key's organisation. */
  lemma RotationTakesEffectIff(env: Env, t: Tables, id: string, org: string, plain: string,
                               reason: string, nonce: string)
    requires OpensWhatItSeals(env) && |nonce| == NONCE_SIZE && id in t.keys
    requires Decrypt(env, t.keys[id].encrypted) != Ok(plain)
    ensures
      var t' := Rotated(env, t, id, org, plain, reason, nonce);
      && t'.rotations == t.rotations + [(id, reason)]
      && (Decrypt(env, t'.keys[id].encrypted) == Ok(plain) <==> t.keys[id].org == org)
  {
    DecryptInvertsEncrypt(env, plain, nonce);
  }
}
