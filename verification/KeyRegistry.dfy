/** The API keys of src/merchants/merchants.service.ts: the hashed key table against the plain
    record of which raw key was issued to whom and which were revoked. */
module KeyRegistry {
  import opened Prelude

  type Id = string

  datatype Merchant = Merchant(name: string, email: string, webhookUrl: Option<string>, webhookSecret: string, isActive: bool)

  datatype ApiKey = ApiKey(merchantId: Id, keyHash: string, isActive: bool, lastUsedAt: Option<int>)

  /** The two tables; email and keyHash are unique. */
  datatype Tables = Tables(merchants: map<Id, Merchant>, keys: map<Id, ApiKey>)

  type Hash = string -> string

  /** updateMerchant's DTO: only the given fields are written. */
  datatype Patch = Patch(name: Option<string>, email: Option<string>, webhookUrl: Option<string>, webhookSecret: Option<string>, isActive: Option<bool>)

  predicate EmailTaken(t: Tables, email: string, except: Option<Id>) {
    exists m :: m in t.merchants && Some(m) != except && t.merchants[m].email == email
  }

  predicate HashTaken(t: Tables, keyHash: string) {
    exists k :: k in t.keys && t.keys[k].keyHash == keyHash
  }

  function Or<T>(o: Option<T>, otherwise: T): T {
    if o.Some? then o.value else otherwise
  }

  function Patched(m: Merchant, p: Patch): Merchant {
    Merchant(Or(p.name, m.name), Or(p.email, m.email),
             if p.webhookUrl.Some? then p.webhookUrl else m.webhookUrl,
             Or(p.webhookSecret, m.webhookSecret), Or(p.isActive, m.isActive))
  }

  /** One write of the service; ids and raw keys are generated outside. */
  datatype Action =
    | CreateMerchant(m: Id, merchant: Merchant, keyId: Id, rawKey: string)
    | RotateKey(m: Id, keyId: Id, rawKey: string)
    | RevokeKey(keyId: Id)
    | UpdateMerchant(m: Id, patch: Patch)
    | TouchLastUsed(keyId: Id, at: int)

  /** The database's answer: an action that breaks a unique constraint or names a missing row throws
      and changes nothing. */
  predicate Succeeds(t: Tables, hash: Hash, a: Action) {
    match a
    case CreateMerchant(m, merchant, keyId, rawKey) =>
      m !in t.merchants && keyId !in t.keys && !EmailTaken(t, merchant.email, None) && !HashTaken(t, hash(rawKey))
    case RotateKey(m, keyId, rawKey) =>
      m in t.merchants && keyId !in t.keys && !HashTaken(t, hash(rawKey))
    case RevokeKey(keyId) => keyId in t.keys
    case UpdateMerchant(m, patch) =>
      m in t.merchants && (patch.email.Some? ==> !EmailTaken(t, patch.email.value, Some(m)))
    case TouchLastUsed(keyId, _) => keyId in t.keys
  }

  function Apply(t: Tables, hash: Hash, a: Action): Tables {
    if !Succeeds(t, hash, a) then t else
    match a
    case CreateMerchant(m, merchant, keyId, rawKey) =>
      Tables(t.merchants[m := merchant.(isActive := true)], t.keys[keyId := ApiKey(m, hash(rawKey), true, None)])
    case RotateKey(m, keyId, rawKey) =>
      t.(keys := t.keys[keyId := ApiKey(m, hash(rawKey), true, None)])
    case RevokeKey(keyId) => t.(keys := t.keys[keyId := t.keys[keyId].(isActive := false)])
    case UpdateMerchant(m, patch) => t.(merchants := t.merchants[m := Patched(t.merchants[m], patch)])
    case TouchLastUsed(keyId, at) => t.(keys := t.keys[keyId := t.keys[keyId].(lastUsedAt := Some(at))])
  }

  /** findUnique({ where: { keyHash } }) */
  ghost function ByHash(t: Tables, keyHash: string): Option<Id> {
    if k :| k in t.keys && t.keys[k].keyHash == keyHash then Some(k) else None
  }

  /** findMerchantByApiKey: the merchant of an active key of an active merchant. */
  ghost function Lookup(t: Tables, hash: Hash, rawKey: string): Option<Id> {
    var found := ByHash(t, hash(rawKey));
    if found.None? || !t.keys[found.value].isActive then None else
    var m := t.keys[found.value].merchantId;
    if m !in t.merchants || !t.merchants[m].isActive then None else Some(m)
  }

  // ----- The plain record ----------------------------------------------------------

  datatype Issue = Issue(merchant: Id, keyId: Id)

  /** Which raw keys were issued to whom, which of them revoked, and which merchants are active. */
  datatype Registry = Registry(issued: map<string, Issue>, revoked: set<string>, active: map<Id, bool>)

  ghost function Record(r: Registry, a: Action): Registry {
    match a
    case CreateMerchant(m, _, keyId, rawKey) => r.(issued := r.issued[rawKey := Issue(m, keyId)], active := r.active[m := true])
    case RotateKey(m, keyId, rawKey) => r.(issued := r.issued[rawKey := Issue(m, keyId)])
    case RevokeKey(keyId) => r.(revoked := r.revoked + set raw | raw in r.issued && r.issued[raw].keyId == keyId)
    case UpdateMerchant(m, patch) => if patch.isActive.Some? then r.(active := r.active[m := patch.isActive.value]) else r
    case TouchLastUsed(_, _) => r
  }

  /** Who a raw key stands for: its owner, while it is not revoked and the owner is active. */
  ghost function Owner(r: Registry, rawKey: string): Option<Id> {
    if rawKey in r.issued && rawKey !in r.revoked && r.issued[rawKey].merchant in r.active && r.active[r.issued[rawKey].merchant]
    then Some(r.issued[rawKey].merchant) else None
  }

  // ----- Refinement ----------------------------------------------------------------

  ghost predicate MerchantsMatch(merchants: map<Id, Merchant>, active: map<Id, bool>) {
    merchants.Keys == active.Keys && forall m :: m in merchants ==> merchants[m].isActive == active[m]
  }

  /** The row of an issued key. */
  ghost predicate RowFor(keys: map<Id, ApiKey>, hash: Hash, raw: string, issue: Issue, revoked: bool) {
    && issue.keyId in keys
    && keys[issue.keyId].keyHash == hash(raw) && keys[issue.keyId].merchantId == issue.merchant
    && keys[issue.keyId].isActive == !revoked
  }

  ghost predicate IssuedAs(issued: map<string, Issue>, k: Id) {
    exists raw :: raw in issued && issued[raw].keyId == k
  }

  /** Each issued key has its row, under its own id, with its hash; no other rows exist. */
  ghost predicate KeysMatch(keys: map<Id, ApiKey>, hash: Hash, issued: map<string, Issue>, revoked: set<string>) {
    && (forall raw :: raw in issued ==> RowFor(keys, hash, raw, issued[raw], raw in revoked))
    && (forall k :: k in keys ==> IssuedAs(issued, k))
    && (forall raw, other :: raw in issued && other in issued && raw != other ==> issued[raw].keyId != issued[other].keyId)
    && revoked <= issued.Keys
  }

  ghost predicate IssuersExist(issued: map<string, Issue>, merchants: map<Id, Merchant>) {
    forall raw :: raw in issued ==> issued[raw].merchant in merchants
  }

  ghost predicate Represents(t: Tables, hash: Hash, r: Registry) {
    MerchantsMatch(t.merchants, r.active) && KeysMatch(t.keys, hash, r.issued, r.revoked) && IssuersExist(r.issued, t.merchants)
  }

  /** The hash is injective on the keys in use. */
  ghost predicate InjectiveOn(hash: Hash, keys: set<string>) {
    forall a, b :: a in keys && b in keys && hash(a) == hash(b) ==> a == b
  }

  lemma IssuedHashTaken(t: Tables, hash: Hash, r: Registry, rawKey: string)
    requires Represents(t, hash, r)
    ensures rawKey in r.issued ==> HashTaken(t, hash(rawKey))
  {
  }

  lemma NewKeyMatches(keys: map<Id, ApiKey>, hash: Hash, issued: map<string, Issue>, revoked: set<string>, m: Id, keyId: Id, rawKey: string)
    requires KeysMatch(keys, hash, issued, revoked) && keyId !in keys && rawKey !in issued
    ensures KeysMatch(keys[keyId := ApiKey(m, hash(rawKey), true, None)], hash, issued[rawKey := Issue(m, keyId)], revoked)
  {
  }

  lemma RevokeMatches(keys: map<Id, ApiKey>, hash: Hash, issued: map<string, Issue>, revoked: set<string>, keyId: Id)
    requires KeysMatch(keys, hash, issued, revoked) && keyId in keys
    ensures KeysMatch(keys[keyId := keys[keyId].(isActive := false)], hash, issued,
                      revoked + set raw | raw in issued && issued[raw].keyId == keyId)
  {
    var keys', revoked' := keys[keyId := keys[keyId].(isActive := false)], revoked + set raw | raw in issued && issued[raw].keyId == keyId;
    forall raw | raw in issued ensures RowFor(keys', hash, raw, issued[raw], raw in revoked') {
      assert RowFor(keys, hash, raw, issued[raw], raw in revoked);
    }
  }

  lemma TouchMatches(keys: map<Id, ApiKey>, hash: Hash, issued: map<string, Issue>, revoked: set<string>, keyId: Id, at: int)
    requires KeysMatch(keys, hash, issued, revoked) && keyId in keys
    ensures KeysMatch(keys[keyId := keys[keyId].(lastUsedAt := Some(at))], hash, issued, revoked)
  {
  }

  lemma UpdateMatches(merchants: map<Id, Merchant>, active: map<Id, bool>, issued: map<string, Issue>, m: Id, patch: Patch)
    requires MerchantsMatch(merchants, active) && IssuersExist(issued, merchants) && m in merchants
    ensures MerchantsMatch(merchants[m := Patched(merchants[m], patch)], if patch.isActive.Some? then active[m := patch.isActive.value] else active)
    ensures IssuersExist(issued, merchants[m := Patched(merchants[m], patch)])
  {
  }

  lemma CreateMatches(merchants: map<Id, Merchant>, active: map<Id, bool>, issued: map<string, Issue>, m: Id, merchant: Merchant, rawKey: string, keyId: Id)
    requires MerchantsMatch(merchants, active) && IssuersExist(issued, merchants)
    ensures MerchantsMatch(merchants[m := merchant.(isActive := true)], active[m := true])
    ensures IssuersExist(issued[rawKey := Issue(m, keyId)], merchants[m := merchant.(isActive := true)])
  {
  }

  lemma ApplyRepresents(t: Tables, hash: Hash, r: Registry, a: Action)
    requires Represents(t, hash, r) && Succeeds(t, hash, a)
    ensures Represents(Apply(t, hash, a), hash, Record(r, a))
  {
    match a
    case CreateMerchant(m, merchant, keyId, rawKey) =>
      CreateMatches(t.merchants, r.active, r.issued, m, merchant, rawKey, keyId);
      IssuedHashTaken(t, hash, r, rawKey);
      NewKeyMatches(t.keys, hash, r.issued, r.revoked, m, keyId, rawKey);
    case RotateKey(m, keyId, rawKey) =>
      IssuedHashTaken(t, hash, r, rawKey);
      NewKeyMatches(t.keys, hash, r.issued, r.revoked, m, keyId, rawKey);
    case RevokeKey(keyId) => RevokeMatches(t.keys, hash, r.issued, r.revoked, keyId);
    case UpdateMerchant(m, patch) => UpdateMatches(t.merchants, r.active, r.issued, m, patch);
    case TouchLastUsed(keyId, at) => TouchMatches(t.keys, hash, r.issued, r.revoked, keyId, at);
  }

  /** A run of writes, successful or not, from empty tables. */
  ghost function Run(hash: Hash, actions: seq<Action>): (Tables, Registry) {
    if actions == [] then (Tables(map[], map[]), Registry(map[], {}, map[]))
    else
      var n := |actions| - 1;
      var (t, r) := Run(hash, actions[..n]);
      if Succeeds(t, hash, actions[n]) then (Apply(t, hash, actions[n]), Record(r, actions[n])) else (t, r)
  }

  lemma {:induction false} RunRepresents(hash: Hash, actions: seq<Action>)
    ensures var (t, r) := Run(hash, actions); Represents(t, hash, r)
  {
    if actions != [] {
      var n := |actions| - 1;
      RunRepresents(hash, actions[..n]);
      var (t, r) := Run(hash, actions[..n]);
      if Succeeds(t, hash, actions[n]) {
        ApplyRepresents(t, hash, r, actions[n]);
      }
    }
  }

  lemma LookupRefines(t: Tables, hash: Hash, r: Registry, rawKey: string)
    requires Represents(t, hash, r) && InjectiveOn(hash, r.issued.Keys + {rawKey})
    ensures Lookup(t, hash, rawKey) == Owner(r, rawKey)
  {
    forall k | k in t.keys && t.keys[k].keyHash == hash(rawKey)
      ensures rawKey in r.issued && r.issued[rawKey].keyId == k
    {
      var raw :| raw in r.issued && r.issued[raw].keyId == k;
      assert RowFor(t.keys, hash, raw, r.issued[raw], raw in r.revoked);
    }
    if rawKey in r.issued {
      assert RowFor(t.keys, hash, rawKey, r.issued[rawKey], rawKey in r.revoked);
    }
    IssuedHashTaken(t, hash, r, rawKey);
  }

  /** Over every run of creates, rotations, revocations, updates and last-used writes, in any
      interleaving: looking a raw key up yields m exactly when it was issued to m, never revoked,
      and m is active. */
  lemma LookupIsOwner(hash: Hash, actions: seq<Action>, rawKey: string)
    requires InjectiveOn(hash, Run(hash, actions).1.issued.Keys + {rawKey})
    ensures Lookup(Run(hash, actions).0, hash, rawKey) == Owner(Run(hash, actions).1, rawKey)
  {
    RunRepresents(hash, actions);
    LookupRefines(Run(hash, actions).0, hash, Run(hash, actions).1, rawKey);
  }

  /** A revoked key never comes back, whatever is done afterwards. */
  lemma {:induction false} RevocationIsFinal(hash: Hash, actions: seq<Action>, more: seq<Action>, rawKey: string)
    requires rawKey in Run(hash, actions).1.revoked
    requires InjectiveOn(hash, Run(hash, actions + more).1.issued.Keys + {rawKey})
    ensures Lookup(Run(hash, actions + more).0, hash, rawKey) == None
  {
    RevokedStays(hash, actions, more, rawKey);
    LookupIsOwner(hash, actions + more, rawKey);
  }

  lemma {:induction false} RevokedStays(hash: Hash, actions: seq<Action>, more: seq<Action>, rawKey: string)
    requires rawKey in Run(hash, actions).1.revoked
    ensures rawKey in Run(hash, actions + more).1.revoked
    decreases |more|
  {
    if more == [] {
      assert actions + more == actions;
    } else {
      RevokedStays(hash, actions, more[..|more| - 1], rawKey);
      assert (actions + more)[..|actions + more| - 1] == actions + more[..|more| - 1];
    }
  }
}
