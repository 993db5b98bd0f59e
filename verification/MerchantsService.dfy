/** The service itself, changing its two tables in place. */
module MerchantsService {
  import opened Prelude
  import opened KeyRegistry

  /** The unique constraints of the schema. */
  ghost predicate UniqueHashes(keys: map<Id, ApiKey>) {
    forall k, l :: k in keys && l in keys && keys[k].keyHash == keys[l].keyHash ==> k == l
  }

  ghost predicate UniqueEmails(merchants: map<Id, Merchant>) {
    forall m, n :: m in merchants && n in merchants && merchants[m].email == merchants[n].email ==> m == n
  }

  class Service {
    const hash: Hash
    var merchants: map<Id, Merchant>
    var apiKeys: map<Id, ApiKey>

    ghost function View(): Tables
      reads this
    {
      Tables(merchants, apiKeys)
    }

    ghost predicate Valid()
      reads this
    {
      UniqueHashes(apiKeys) && UniqueEmails(merchants)
    }

    constructor (hash: Hash)
      ensures Valid() && View() == Tables(map[], map[]) && this.hash == hash
    {
      this.hash := hash;
      merchants, apiKeys := map[], map[];
    }

    /** Merchant and first key in one nested create; false stands for the thrown conflict. */
    method CreateMerchant(m: Id, dto: Merchant, keyId: Id, rawKey: string) returns (ok: bool)
      requires Valid()
      modifies this
      ensures Valid()
      ensures ok <==> Succeeds(old(View()), hash, KeyRegistry.CreateMerchant(m, dto, keyId, rawKey))
      ensures View() == Apply(old(View()), hash, KeyRegistry.CreateMerchant(m, dto, keyId, rawKey))
      // It needs a fresh email and a fresh key; merchant and key then appear together, both active.
      ensures ok <==>
                && m !in old(merchants) && (forall n :: n in old(merchants) ==> old(merchants)[n].email != dto.email)
                && keyId !in old(apiKeys) && (forall k :: k in old(apiKeys) ==> old(apiKeys)[k].keyHash != hash(rawKey))
      ensures merchants == if ok then old(merchants)[m := Merchant(dto.name, dto.email, dto.webhookUrl, dto.webhookSecret, true)] else old(merchants)
      ensures apiKeys == if ok then old(apiKeys)[keyId := ApiKey(m, hash(rawKey), true, None)] else old(apiKeys)
    {
      if exists n :: n in merchants && merchants[n].email == dto.email {
        return false;
      }
      var keyHash := hash(rawKey);
      if m in merchants || keyId in apiKeys || exists k :: k in apiKeys && apiKeys[k].keyHash == keyHash {
        return false;
      }
      merchants := merchants[m := dto.(isActive := true)];
      apiKeys := apiKeys[keyId := ApiKey(m, keyHash, true, None)];
      return true;
    }

    method UpdateMerchant(m: Id, dto: Patch) returns (ok: bool)
      requires Valid()
      modifies this
      ensures Valid()
      ensures ok <==> Succeeds(old(View()), hash, KeyRegistry.UpdateMerchant(m, dto))
      ensures View() == Apply(old(View()), hash, KeyRegistry.UpdateMerchant(m, dto))
      // It needs an existing merchant and an email nobody else has; each field given is written, each other kept.
      ensures ok <==>
                && m in old(merchants)
                && (dto.email.Some? ==> forall n :: n in old(merchants) && n != m ==> old(merchants)[n].email != dto.email.value)
      ensures !ok ==> merchants == old(merchants)
      ensures ok ==>
                && merchants.Keys == old(merchants).Keys && merchants - {m} == old(merchants) - {m}
                && merchants[m].name == (if dto.name.Some? then dto.name.value else old(merchants)[m].name)
                && merchants[m].email == (if dto.email.Some? then dto.email.value else old(merchants)[m].email)
                && merchants[m].webhookUrl == (if dto.webhookUrl.Some? then dto.webhookUrl else old(merchants)[m].webhookUrl)
                && merchants[m].webhookSecret == (if dto.webhookSecret.Some? then dto.webhookSecret.value else old(merchants)[m].webhookSecret)
                && merchants[m].isActive == (if dto.isActive.Some? then dto.isActive.value else old(merchants)[m].isActive)
      ensures apiKeys == old(apiKeys)
    {
      if m !in merchants {
        return false;
      }
      if dto.email.Some? && exists n :: n in merchants && Some(n) != Some(m) && merchants[n].email == dto.email.value {
        return false;
      }
      merchants := merchants[m := Patched(merchants[m], dto)];
      return true;
    }

    method RotateApiKey(m: Id, keyId: Id, rawKey: string) returns (ok: bool)
      requires Valid()
      modifies this
      ensures Valid()
      ensures ok <==> Succeeds(old(View()), hash, RotateKey(m, keyId, rawKey))
      ensures View() == Apply(old(View()), hash, RotateKey(m, keyId, rawKey))
      // It adds one active key and leaves the others valid.
      ensures ok <==>
                && m in old(merchants) && keyId !in old(apiKeys)
                && (forall k :: k in old(apiKeys) ==> old(apiKeys)[k].keyHash != hash(rawKey))
      ensures apiKeys == if ok then old(apiKeys)[keyId := ApiKey(m, hash(rawKey), true, None)] else old(apiKeys)
      ensures merchants == old(merchants)
    {
      if m !in merchants {
        return false;
      }
      var keyHash := hash(rawKey);
      if keyId in apiKeys || exists k :: k in apiKeys && apiKeys[k].keyHash == keyHash {
        return false;
      }
      apiKeys := apiKeys[keyId := ApiKey(m, keyHash, true, None)];
      return true;
    }

    method RevokeApiKey(keyId: Id) returns (ok: bool)
      requires Valid()
      modifies this
      ensures Valid()
      ensures ok <==> keyId in old(apiKeys)
      ensures View() == Apply(old(View()), hash, RevokeKey(keyId))
      ensures apiKeys == if ok then old(apiKeys)[keyId := old(apiKeys)[keyId].(isActive := false)] else old(apiKeys)
      ensures merchants == old(merchants)
    {
      if keyId !in apiKeys {
        return false;
      }
      apiKeys := apiKeys[keyId := apiKeys[keyId].(isActive := false)];
      return true;
    }

    /** The lookup, and its background write of lastUsedAt, which may fail unnoticed. */
    method FindMerchantByApiKey(rawKey: string, now: int, touchOk: bool) returns (found: Option<Id>)
      requires Valid()
      modifies this
      ensures Valid()
      // The merchant of the active key with that hash, if active itself; nobody otherwise.
      ensures found.Some? <==> exists k :: k in old(apiKeys) && old(apiKeys)[k].keyHash == hash(rawKey) && old(apiKeys)[k].isActive
                                           && old(apiKeys)[k].merchantId in old(merchants) && old(merchants)[old(apiKeys)[k].merchantId].isActive
      ensures forall k :: found.Some? && k in old(apiKeys) && old(apiKeys)[k].keyHash == hash(rawKey) ==> found == Some(old(apiKeys)[k].merchantId)
      ensures found == Lookup(old(View()), hash, rawKey)
      ensures found == Lookup(View(), hash, rawKey)
      ensures merchants == old(merchants)
      ensures apiKeys == old(apiKeys) || exists k :: k in old(apiKeys) && old(apiKeys)[k].keyHash == hash(rawKey) &&
                                                   apiKeys == old(apiKeys)[k := old(apiKeys)[k].(lastUsedAt := Some(now))]
    {
      var keyHash := hash(rawKey);
      if !exists k :: k in apiKeys && apiKeys[k].keyHash == keyHash {
        return None;
      }
      var id :| id in apiKeys && apiKeys[id].keyHash == keyHash;
      assert ByHash(View(), keyHash) == Some(id);
      var apiKey := apiKeys[id];
      if !apiKey.isActive || apiKey.merchantId !in merchants || !merchants[apiKey.merchantId].isActive {
        return None;
      }
      if touchOk {
        apiKeys := apiKeys[id := apiKey.(lastUsedAt := Some(now))];
        assert apiKeys[id].keyHash == keyHash;
        assert ByHash(View(), keyHash) == Some(id);
      }
      return Some(apiKey.merchantId);
    }
  }
}
