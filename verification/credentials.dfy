/**
 The process-wide credential caches of `src/credentials.ts`.

 `cert` and `refreshToken` each keep a table from the `JSON.stringify` text of
 their input to the credential built for it, and build a credential only for a
 text they have not seen; `applicationDefault` keeps one slot that it fills on
 its first call. The three module-level variables are the fields of one
 `CredentialCache` object, standing for the module instance of a process.
 */
module Credentials {
  import opened Wrappers

  /** A JSON value: the input of `cert` and `refreshToken` is a file path (a string) or an object. */
  datatype Json =
    | JNull
    | JBool(b: bool)
    | JNumber(n: int)
    | JString(s: string)
    | JArray(items: seq<Json>)
    | JObject(members: seq<(string, Json)>)

  /** An `http.Agent`: an opaque transport object that a credential keeps. */
  class Agent {}

  /** Which of `CertCredential`, `RefreshTokenCredential`, `ApplicationDefaultCredential` was built. */
  datatype CredentialKind = CertKind | RefreshTokenKind | ApplicationDefaultKind

  /**
   A credential object. Its behaviour (token fetching) is not part of this model;
   it records what it was built from, and its identity is that of the object.
   */
  class Credential {
    const kind: CredentialKind
    const source: Option<Json>
    const agent: Option<Agent>

    constructor (kind: CredentialKind, source: Option<Json>, agent: Option<Agent>)
      ensures this.kind == kind && this.source == source && this.agent == agent
    {
      this.kind := kind;
      this.source := source;
      this.agent := agent;
    }
  }

  /** Every entry of `table` is a credential of `kind` built from an input whose key is the entry's key. */
  ghost predicate Keyed(table: map<string, Credential>, kind: CredentialKind, stringify: Json -> string)
  {
    forall key :: key in table ==>
      && table[key].kind == kind
      && table[key].source.Some?
      && stringify(table[key].source.value) == key
  }

  /** `after` holds every entry of `before`, unchanged: the table only grows. */
  ghost predicate Grows(before: map<string, Credential>, after: map<string, Credential>)
  {
    && before.Keys <= after.Keys
    && forall key :: key in before ==> after[key] == before[key]
  }

  class CredentialCache {
    /** `JSON.stringify`: a deterministic function of the input, not assumed to be injective. */
    const stringify: Json -> string
    /** `globalCertCreds` */
    var certCreds: map<string, Credential>
    /** `globalRefreshTokenCreds` */
    var refreshTokenCreds: map<string, Credential>
    /** `globalAppDefaultCred`; `None` while it is `undefined` */
    var appDefaultCred: Option<Credential>

    ghost predicate Valid()
      reads this
    {
      && Keyed(certCreds, CertKind, stringify)
      && Keyed(refreshTokenCreds, RefreshTokenKind, stringify)
      && (appDefaultCred.Some? ==>
            appDefaultCred.value.kind == ApplicationDefaultKind && appDefaultCred.value.source == None)
    }

    /** The state of a freshly loaded module: both tables empty, the slot undefined. */
    constructor (stringify: Json -> string)
      ensures Valid()
      ensures this.stringify == stringify
      ensures certCreds == map[] && refreshTokenCreds == map[] && appDefaultCred == None
    {
      this.stringify := stringify;
      certCreds := map[];
      refreshTokenCreds := map[];
      appDefaultCred := None;
    }

    /**
     `cert(serviceAccountPathOrObject, httpAgent)`: the credential stored under the
     input's key, built with `httpAgent` and stored only when the key is new.
     */
    method Cert(serviceAccountPathOrObject: Json, httpAgent: Option<Agent>) returns (c: Credential)
      requires Valid()
      modifies this`certCreds
      ensures Valid()
      ensures stringify(serviceAccountPathOrObject) in certCreds
      ensures c == certCreds[stringify(serviceAccountPathOrObject)]
      ensures Grows(old(certCreds), certCreds)
      // a hit: the table is untouched and the agent of this call plays no part
      ensures stringify(serviceAccountPathOrObject) in old(certCreds) ==>
        certCreds == old(certCreds)
      // a miss: exactly one new entry, a new credential built from this call's arguments
      ensures stringify(serviceAccountPathOrObject) !in old(certCreds) ==>
        && fresh(c)
        && c.kind == CertKind && c.source == Some(serviceAccountPathOrObject) && c.agent == httpAgent
        && certCreds == old(certCreds)[stringify(serviceAccountPathOrObject) := c]
      ensures unchanged(this`refreshTokenCreds, this`appDefaultCred)
    {
      var stringifiedServiceAccount := stringify(serviceAccountPathOrObject);
      if stringifiedServiceAccount !in certCreds {
        var built := new Credential(CertKind, Some(serviceAccountPathOrObject), httpAgent);
        certCreds := certCreds[stringifiedServiceAccount := built];
      }
      c := certCreds[stringifiedServiceAccount];
    }

    /** `refreshToken(refreshTokenPathOrObject, httpAgent)`: `Cert`'s behaviour on its own table. */
    method RefreshToken(refreshTokenPathOrObject: Json, httpAgent: Option<Agent>) returns (c: Credential)
      requires Valid()
      modifies this`refreshTokenCreds
      ensures Valid()
      ensures stringify(refreshTokenPathOrObject) in refreshTokenCreds
      ensures c == refreshTokenCreds[stringify(refreshTokenPathOrObject)]
      ensures Grows(old(refreshTokenCreds), refreshTokenCreds)
      ensures stringify(refreshTokenPathOrObject) in old(refreshTokenCreds) ==>
        refreshTokenCreds == old(refreshTokenCreds)
      ensures stringify(refreshTokenPathOrObject) !in old(refreshTokenCreds) ==>
        && fresh(c)
        && c.kind == RefreshTokenKind && c.source == Some(refreshTokenPathOrObject) && c.agent == httpAgent
        && refreshTokenCreds == old(refreshTokenCreds)[stringify(refreshTokenPathOrObject) := c]
      ensures unchanged(this`certCreds, this`appDefaultCred)
    {
      var stringifiedRefreshToken := stringify(refreshTokenPathOrObject);
      if stringifiedRefreshToken !in refreshTokenCreds {
        var built := new Credential(RefreshTokenKind, Some(refreshTokenPathOrObject), httpAgent);
        refreshTokenCreds := refreshTokenCreds[stringifiedRefreshToken := built];
      }
      c := refreshTokenCreds[stringifiedRefreshToken];
    }

    /** `applicationDefault(httpAgent)`: the one application-default credential, built on the first call. */
    method ApplicationDefault(httpAgent: Option<Agent>) returns (c: Credential)
      requires Valid()
      modifies this`appDefaultCred
      ensures Valid()
      ensures appDefaultCred == Some(c)
      ensures old(appDefaultCred).Some? ==> c == old(appDefaultCred).value
      ensures old(appDefaultCred).None? ==>
        fresh(c) && c.kind == ApplicationDefaultKind && c.source == None && c.agent == httpAgent
      ensures unchanged(this`certCreds, this`refreshTokenCreds)
    {
      if appDefaultCred.None? {
        var built := new Credential(ApplicationDefaultKind, None, httpAgent);
        appDefaultCred := Some(built);
      }
      c := appDefaultCred.value;
    }
  }

  /**
   Two `cert` calls whose inputs have the same key give the same object, whatever
   the agents, and leave the cache as the first call alone leaves it.
   */
  method CertSameKey(cache: CredentialCache, x: Json, agentX: Option<Agent>, y: Json, agentY: Option<Agent>)
    returns (cx: Credential, cy: Credential)
    requires cache.Valid()
    requires cache.stringify(x) == cache.stringify(y)
    modifies cache
    ensures cache.Valid()
    ensures cx == cy
    ensures cache.stringify(x) in old(cache.certCreds) ==>
      cx == old(cache.certCreds)[cache.stringify(x)] && cache.certCreds == old(cache.certCreds)
    ensures cache.stringify(x) !in old(cache.certCreds) ==>
      && fresh(cx) && cx.source == Some(x) && cx.agent == agentX
      && cache.certCreds == old(cache.certCreds)[cache.stringify(x) := cx]
    ensures cache.refreshTokenCreds == old(cache.refreshTokenCreds)
    ensures cache.appDefaultCred == old(cache.appDefaultCred)
  {
    cx := cache.Cert(x, agentX);
    cy := cache.Cert(y, agentY);
  }

  /** `cert(x); cert(x)` leaves the same state as `cert(x)` and returns the same object twice. */
  method CertIdempotent(cache: CredentialCache, x: Json, agent1: Option<Agent>, agent2: Option<Agent>)
    returns (c1: Credential, c2: Credential)
    requires cache.Valid()
    modifies cache
    ensures cache.Valid()
    ensures c1 == c2
    ensures cache.certCreds ==
      if cache.stringify(x) in old(cache.certCreds) then old(cache.certCreds)
      else old(cache.certCreds)[cache.stringify(x) := c1]
    ensures cache.refreshTokenCreds == old(cache.refreshTokenCreds)
    ensures cache.appDefaultCred == old(cache.appDefaultCred)
  {
    c1 := cache.Cert(x, agent1);
    c2 := cache.Cert(x, agent2);
  }

  /** `refreshToken(x); refreshToken(x)` leaves the same state as one call and returns the same object twice. */
  method RefreshTokenIdempotent(cache: CredentialCache, x: Json, agent1: Option<Agent>, agent2: Option<Agent>)
    returns (c1: Credential, c2: Credential)
    requires cache.Valid()
    modifies cache
    ensures cache.Valid()
    ensures c1 == c2
    ensures cache.refreshTokenCreds ==
      if cache.stringify(x) in old(cache.refreshTokenCreds) then old(cache.refreshTokenCreds)
      else old(cache.refreshTokenCreds)[cache.stringify(x) := c1]
    ensures cache.certCreds == old(cache.certCreds)
    ensures cache.appDefaultCred == old(cache.appDefaultCred)
  {
    c1 := cache.RefreshToken(x, agent1);
    c2 := cache.RefreshToken(x, agent2);
  }

  /** Every `applicationDefault` call after the first returns the first call's object. */
  method ApplicationDefaultSingleton(cache: CredentialCache, agent1: Option<Agent>, agent2: Option<Agent>)
    returns (c1: Credential, c2: Credential)
    requires cache.Valid()
    modifies cache
    ensures cache.Valid()
    ensures c1 == c2 && cache.appDefaultCred == Some(c1)
    ensures old(cache.appDefaultCred).None? ==> fresh(c1) && c1.agent == agent1
    ensures cache.certCreds == old(cache.certCreds)
    ensures cache.refreshTokenCreds == old(cache.refreshTokenCreds)
  {
    c1 := cache.ApplicationDefault(agent1);
    c2 := cache.ApplicationDefault(agent2);
  }

  /**
   Inputs with different keys never share a credential: each stored credential
   remembers an input whose key is the one it is stored under.
   */
  lemma DistinctKeysDistinctCredentials(cache: CredentialCache, key1: string, key2: string)
    requires cache.Valid()
    requires key1 in cache.certCreds && key2 in cache.certCreds && key1 != key2
    ensures cache.certCreds[key1] != cache.certCreds[key2]
  {
  }

  /** No object is both a certificate credential, a refresh-token credential or the default one. */
  lemma StoresShareNothing(cache: CredentialCache, certKey: string, refreshKey: string)
    requires cache.Valid()
    requires certKey in cache.certCreds && refreshKey in cache.refreshTokenCreds
    ensures cache.certCreds[certKey] != cache.refreshTokenCreds[refreshKey]
    ensures cache.appDefaultCred != Some(cache.certCreds[certKey])
    ensures cache.appDefaultCred != Some(cache.refreshTokenCreds[refreshKey])
  {
  }
}
