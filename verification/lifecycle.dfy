/**
 Properties of SignerHelper's key lifecycle that relate several operations:
 the cache stays consistent with the keychain, deletion is idempotent, a
 cached key is served without a second generation, and a key generated after
 a deletion is new. Lemmas with an `asWritten` parameter hold for the source's
 getPublicKey (`true`) and for the corrected save (`false`) alike.
 */
module Lifecycle {
  import opened Wrappers
  import opened Configuration
  import opened KeyStore
  import opened Queries
  import opened Signer

  /** Every reference in the keychain or the cache was handed out before the store's counter. */
  predicate IdsIssued(h: SignerHelper) {
    && (forall k :: k in h.store.items ==> h.store.items[k] < h.store.nextId)
    && (h.cachedPublicKey.Some? ==> h.cachedPublicKey.value < h.store.nextId)
    && (h.cachedPrivateKey.Some? ==> h.cachedPrivateKey.value < h.store.nextId)
  }

  /**
   The cache agrees with the keychain: a cached private key is the one at
   the private slot (and only comes with a cached public key), and a cached
   public key is the one at the public slot whenever that slot is occupied.
   */
  predicate CacheConsistent(h: SignerHelper) {
    && (h.cachedPrivateKey.Some? ==> h.cachedPublicKey.Some?)
    && (h.cachedPrivateKey.Some? ==>
          PrivateSlot(h.config) in h.store.items && h.store.items[PrivateSlot(h.config)] == h.cachedPrivateKey.value)
    && (h.cachedPublicKey.Some? && PublicSlot(h.config) in h.store.items ==>
          h.store.items[PublicSlot(h.config)] == h.cachedPublicKey.value)
  }

  predicate Valid(h: SignerHelper) {
    IdsIssued(h) && CacheConsistent(h)
  }

  /** A freshly constructed helper is valid over any keychain whose counter is past its items. */
  lemma InitValid(config: Config, store: Store)
    requires forall k :: k in store.items ==> store.items[k] < store.nextId
    ensures Valid(Init(config, store))
  {
  }

  /**
   The generation branch of getPublicKey leaves a valid helper, whichever
   item the public key is saved at.
   */
  lemma GenerationBranchValid(h: SignerHelper, asWritten: bool)
    requires Valid(h) && h.cachedPublicKey.None? && PublicSlot(h.config) !in h.store.items
    ensures var g := GenerateWith(h, None, asWritten);
            Valid(g.helper.(cachedPublicKey := g.result.publicKey, cachedPrivateKey := g.result.privateKey))
  {
    var g := GenerateWith(h, None, asWritten);
    var h' := g.helper.(cachedPublicKey := g.result.publicKey, cachedPrivateKey := g.result.privateKey);
    var items, items' := h.store.items, h'.store.items;
    assert PublicSlot(h.config) != PrivateSlot(h.config);
    forall k | k in items'
      ensures items'[k] < h'.store.nextId
    {
      if k in items && items'[k] == items[k] {
        assert items[k] < h.store.nextId <= h'.store.nextId;
      }
    }
    if g.result.publicKey.Some? && PublicSlot(h.config) in items' {
      assert PublicSlot(h.config) == SaveSlot(h.config, asWritten);
      assert items'[PublicSlot(h.config)] == g.result.publicKey.value;
    }
  }

  /** getPublicKey keeps the cache consistent with the keychain. */
  lemma GetPublicKeyPreservesValid(h: SignerHelper, asWritten: bool)
    requires Valid(h)
    ensures Valid(GetPublicKey(h, asWritten).helper)
  {
    if h.cachedPublicKey.None? && PublicSlot(h.config) !in h.store.items {
      GenerationBranchValid(h, asWritten);
    }
  }

  /** isKeyexist, being getPublicKey, keeps it too. */
  lemma IsKeyExistPreservesValid(h: SignerHelper, asWritten: bool)
    requires Valid(h)
    ensures Valid(IsKeyExist(h, asWritten).helper)
  {
    GetPublicKeyPreservesValid(h, asWritten);
  }

  /** deleteKeyPair leaves a valid helper whatever the keychain answers. */
  lemma DeleteKeyPairPreservesValid(h: SignerHelper)
    requires Valid(h)
    ensures Valid(DeleteKeyPair(h).helper)
  {
  }

  /** Deleting twice leaves the same helper, reports the same and makes the same calls as deleting once. */
  lemma DeleteKeyPairIdempotent(h: SignerHelper)
    ensures DeleteKeyPair(DeleteKeyPair(h).helper) == DeleteKeyPair(h)
  {
    var once := DeleteKeyPair(h);
    var twice := DeleteKeyPair(once.helper);
    assert twice.helper.store.items == once.helper.store.items;
    assert twice.helper.store == once.helper.store;
  }

  /**
   Once getPublicKey has returned a key, the next call returns the same key
   from the cache without touching the keychain: no second generation
   happens while a key is cached.
   */
  lemma GetPublicKeyServedFromCache(h: SignerHelper, asWritten: bool)
    requires GetPublicKey(h, asWritten).result.Some?
    ensures var first := GetPublicKey(h, asWritten);
            GetPublicKey(first.helper, asWritten) == Step(first.result, first.helper, [])
  {
  }

  /**
   isKeyexist on a helper with nothing cached and no public item is not a
   read-only check: it sends a generation request, and when the keychain can
   generate it answers true and leaves a new private key in the keychain.
   */
  lemma IsKeyExistGeneratesOnMiss(h: SignerHelper, asWritten: bool)
    requires h.cachedPublicKey.None? && PublicSlot(h.config) !in h.store.items
    requires h.config.publicLabel != h.config.privateLabel
    ensures var r := IsKeyExist(h, asWritten);
            && |r.calls| >= 2 && r.calls[1] == GeneratePairCall(KeyPairQuery(h.config, Some(NewContext)))
            && (r.result <==> h.store.canGenerate && PrivateSlot(h.config) !in h.store.refused)
            && (r.result ==> r.helper.store.items[PrivateSlot(h.config)] >= h.store.nextId)
  {
  }

  /**
   With equal labels getPublicKey on an empty cache makes only its lookup
   and, on a miss, returns no key; the keychain is untouched and the private
   cache is set to the missing half, that is, cleared.
   */
  lemma GetPublicKeyEqualLabels(h: SignerHelper, asWritten: bool)
    requires h.config.publicLabel == h.config.privateLabel
    requires h.cachedPublicKey.None? && PublicSlot(h.config) !in h.store.items
    ensures GetPublicKey(h, asWritten) == Step(None, h.(cachedPrivateKey := None), [CopyMatchingCall(PublicKeyQuery(h.config))])
  {
  }

  /**
   After deleteKeyPair the public-key lookup misses, so the next isKeyexist
   generates again; the key it returns was never seen before: it is neither
   an item of the old keychain nor the old cached key.
   */
  lemma DeleteThenIsKeyExistGeneratesNewKey(h: SignerHelper, asWritten: bool)
    requires Valid(h)
    requires h.config.publicLabel != h.config.privateLabel && h.store.canGenerate
    requires PublicSlot(h.config) !in h.store.refused && PrivateSlot(h.config) !in h.store.refused
    ensures var d := DeleteKeyPair(h).helper;
            var e := IsKeyExist(d, asWritten);
            && GetKey(d.store, PublicKeyQuery(h.config)).None?
            && e.result
            && e.helper.cachedPublicKey.Some?
            && (forall k :: k in h.store.items ==> h.store.items[k] != e.helper.cachedPublicKey.value)
            && h.cachedPublicKey != e.helper.cachedPublicKey
  {
    var d := DeleteKeyPair(h).helper;
    assert PublicSlot(h.config) !in d.store.items;
    assert d.store.nextId == h.store.nextId;
  }

  /** A valid helper's cached private key is the one getPrivateKey looks up. */
  lemma GetPrivateKeyAgreesWithCache(h: SignerHelper, localReason: Option<string>)
    requires Valid(h) && h.cachedPrivateKey.Some?
    ensures GetPrivateKey(h, localReason).result == h.cachedPrivateKey
  {
  }

  /**
   After getPublicKey has generated a pair, getPrivateKey finds the private
   half it cached, with one lookup and no second generation.
   */
  lemma GetPrivateKeyAfterGeneration(h: SignerHelper, asWritten: bool, localReason: Option<string>)
    requires h.cachedPublicKey.None? && PublicSlot(h.config) !in h.store.items
    requires h.config.publicLabel != h.config.privateLabel && h.store.canGenerate
    requires PrivateSlot(h.config) !in h.store.refused
    ensures var after := GetPublicKey(h, asWritten).helper;
            && after.cachedPrivateKey.Some?
            && GetPrivateKey(after, localReason).result == after.cachedPrivateKey
            && GetPrivateKey(after, localReason).calls == [CopyMatchingCall(PrivateKeyQuery(h.config, localReason))]
  {
  }

  /**
   With the corrected save, a key pair generated by getPublicKey is found
   again by a helper constructed afresh over the same keychain (as after a
   restart), with one lookup and no second generation.
   */
  lemma GeneratedKeyFoundAfterRestart(h: SignerHelper)
    requires h.cachedPublicKey.None? && PublicSlot(h.config) !in h.store.items
    requires h.config.publicLabel != h.config.privateLabel && h.store.canGenerate
    requires PublicSlot(h.config) !in h.store.refused && PrivateSlot(h.config) !in h.store.refused
    ensures var first := GetPublicKey(h, false);
            var again := GetPublicKey(Init(h.config, first.helper.store), false);
            && first.result.Some?
            && again.result == first.result
            && again.calls == [CopyMatchingCall(PublicKeyQuery(h.config))]
            && again.helper.store == first.helper.store
  {
    assert SaveSlot(h.config, false) == PublicSlot(h.config);
  }

  /**
   As written, forceSavePublicKey's query has no access group, so with a
   public access group configured the key it saves is not where
   getPublicKeyQuery looks: a restarted helper misses it (and generates yet
   another pair), and deleteKeyPair leaves it behind.
   */
  lemma AsWrittenSaveMissesAccessGroup(h: SignerHelper)
    requires h.config.publicKeyAccessGroup.Some?
    requires h.config.publicLabel != h.config.privateLabel && h.store.canGenerate
    requires PublicSlot(h.config) !in h.store.items
    requires PrivateSlot(h.config) !in h.store.refused && AsWrittenSaveSlot(h.config) !in h.store.refused
    ensures var g := GenerateKeyPairAsWritten(h, None);
            && g.result.publicKey.Some?
            && AsWrittenSaveSlot(h.config) in g.helper.store.items
            && GetKey(g.helper.store, PublicKeyQuery(h.config)).None?
            && AsWrittenSaveSlot(h.config) in DeleteKeyPair(g.helper).helper.store.items
  {
    var g := GenerateKeyPairAsWritten(h, None);
    assert SaveSlot(h.config, true) == AsWrittenSaveSlot(h.config);
    assert AsWrittenSaveSlot(h.config) != PublicSlot(h.config);
    assert PublicSlot(h.config) !in g.helper.store.items;
  }

  /**
   The consequence at restart: a helper constructed afresh over that keychain
   misses the saved key and sends a second generation request.
   */
  lemma AsWrittenRestartGeneratesAgain(h: SignerHelper)
    requires h.config.publicKeyAccessGroup.Some?
    requires h.config.publicLabel != h.config.privateLabel && h.store.canGenerate
    requires PublicSlot(h.config) !in h.store.items
    requires PrivateSlot(h.config) !in h.store.refused && AsWrittenSaveSlot(h.config) !in h.store.refused
    ensures var g := GenerateKeyPairAsWritten(h, None);
            var again := GetPublicKey(Init(h.config, g.helper.store), true);
            && |again.calls| >= 2 && again.calls[1].GeneratePairCall?
  {
    AsWrittenSaveMissesAccessGroup(h);
    var g := GenerateKeyPairAsWritten(h, None);
    IsKeyExistGeneratesOnMiss(Init(h.config, g.helper.store), true);
  }

  /** The same discrepancy on the demo labels with a shared access group. */
  lemma AsWrittenSaveMissesAccessGroupExample()
    ensures var config := Config("ir.publicLabel1", "ir.privateLabel1", Some("The biometric need authenticate"),
                                 Some("BBDV3R8HVV.no.agens.demo"), None, None, Keychain);
            var h := Init(config, Store(map[], {}, true, 0));
            var g := GenerateKeyPairAsWritten(h, None);
            && g.result.publicKey == Some(0)
            && GetKey(g.helper.store, PublicKeyQuery(config)).None?
            && GetKey(GenerateKeyPair(h, None).helper.store, PublicKeyQuery(config)) == Some(0)
  {
    var config := Config("ir.publicLabel1", "ir.privateLabel1", Some("The biometric need authenticate"),
                         Some("BBDV3R8HVV.no.agens.demo"), None, None, Keychain);
    var h := Init(config, Store(map[], {}, true, 0));
    AsWrittenSaveMissesAccessGroup(h);
    assert SaveSlot(config, false) == PublicSlot(config);
  }

  /**
   Without a public access group the two saves coincide: the source's save
   then writes exactly the item the corrected one writes.
   */
  lemma AsWrittenAgreesWithoutAccessGroup(h: SignerHelper, request: Option<AuthContext>)
    requires h.config.publicKeyAccessGroup.None?
    ensures GenerateKeyPairAsWritten(h, request) == GenerateKeyPair(h, request)
    ensures AsWrittenSaveSlot(h.config) == PublicSlot(h.config)
  {
    assert SaveGroup(h.config, true) == SaveGroup(h.config, false);
  }

  /**
   The demo app's configuration passes no public access group: whatever its
   token and access control, the key the as-written generation saves on an
   empty keychain is the one the public-key query then finds.
   */
  lemma ShippedDemoSaveFound(acl: Option<AccessControl>, token: Token)
    ensures var config := Config("ir.publicLabel1", "ir.privateLabel1", Some("The biometric need authenticate"),
                                 None, None, acl, token);
            var g := GenerateKeyPairAsWritten(Init(config, Store(map[], {}, true, 0)), None);
            && g.result.publicKey == Some(0)
            && GetKey(g.helper.store, PublicKeyQuery(config)) == Some(0)
  {
    var config := Config("ir.publicLabel1", "ir.privateLabel1", Some("The biometric need authenticate"),
                         None, None, acl, token);
    var h := Init(config, Store(map[], {}, true, 0));
    AsWrittenAgreesWithoutAccessGroup(h, None);
  }
}
