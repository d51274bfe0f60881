/**
 SignerHelper: the lifecycle of one elliptic-curve key pair in the keychain.
 The helper is an immutable record (configuration, keychain, and the two
 cached key references), and every operation is a pure transition that
 returns its value, the helper afterwards and the keychain calls it made.
 */
module Signer {
  import opened Wrappers
  import opened Configuration
  import opened KeyStore
  import opened Queries
  import Base64

  type Bytes = seq<Base64.byte>

  datatype SignerHelper = SignerHelper(
    config: Config,
    store: Store,
    cachedPublicKey: Option<KeyId>,
    cachedPrivateKey: Option<KeyId>)

  /** What one operation returns, the helper after it, and the keychain calls it made, in order. */
  datatype Step<T> = Step(result: T, helper: SignerHelper, calls: seq<Call>)

  datatype KeyPair = KeyPair(publicKey: Option<KeyId>, privateKey: Option<KeyId>)

  /** What forceSavePublicKey leaves: the keychain, the final status it logs, and its calls. */
  datatype SaveOutcome = SaveOutcome(store: Store, status: OSStatus, calls: seq<Call>)

  /** Whether each half was deleted or already absent, the condition deleteKeyPair logs as success. */
  datatype DeletionReport = DeletionReport(publicDeleted: bool, privateDeleted: bool)

  /** A helper just constructed over a keychain: nothing cached. */
  function Init(config: Config, store: Store): SignerHelper {
    SignerHelper(config, store, None, None)
  }

  /** getKey: the referenced key when the lookup succeeds and hands one back. */
  function GetKey(store: Store, query: Query): (k: Option<KeyId>)
    ensures k.Some? <==> && SlotOf(query).Some? && SlotOf(query).value in store.items
                         && ReturnRef in query && query[ReturnRef] == Flag(true)
    ensures k.Some? ==> k.value == store.items[SlotOf(query).value]
  {
    var (status, raw) := CopyMatching(store, query);
    if status == Success && raw.Some? then raw else None
  }

  /** The calls of one force-save with query `q`: an add, or an add, a delete and a second add. */
  predicate ForceSaveCalls(calls: seq<Call>, q: Query) {
    calls == [AddCall(q)] || calls == [AddCall(q), DeleteCall(q), AddCall(q)]
  }

  /**
   Add the key; only when the add reports a duplicate, delete once and add
   once more. The status of that delete is overwritten and the final status
   is only logged. The key ends up saved exactly when its item is writable.
   */
  function ForceSave(store: Store, query: Query): (r: SaveOutcome)
    requires SlotOf(query).Some? && ValueRef in query && query[ValueRef].KeyRef?
    ensures ForceSaveCalls(r.calls, query)
    ensures |r.calls| == 3 <==> SlotOf(query).value in store.items
    ensures r.status == Success <==> SlotOf(query).value !in store.refused
    ensures r.status == Success ==> r.store.items == store.items[SlotOf(query).value := query[ValueRef].refId]
    ensures r.status != Success ==> r.store == store
    ensures r.store.refused == store.refused && r.store.canGenerate == store.canGenerate && r.store.nextId == store.nextId
  {
    var (added, status) := Add(store, query);
    if status == DuplicateItem then
      var (deleted, _) := Delete(added, query);
      var (readded, status') := Add(deleted, query);
      SaveOutcome(readded, status', [AddCall(query), DeleteCall(query), AddCall(query)])
    else
      SaveOutcome(added, status, [AddCall(query)])
  }

  /** The item forceSavePublicKey writes, as the source builds its query: under publicLabel, without any access group. */
  function AsWrittenSaveSlot(config: Config): ItemKey {
    ItemKey(PublicKey, config.publicLabel, None)
  }

  /** forceSavePublicKey as written: its query leaves out publicKeyAccessGroup. */
  function ForceSavePublicKeyAsWritten(config: Config, store: Store, publicKey: KeyId): (r: SaveOutcome)
    ensures r.status == Success <==> AsWrittenSaveSlot(config) !in store.refused
    ensures r.status == Success ==> r.store.items == store.items[AsWrittenSaveSlot(config) := publicKey]
    ensures r.status != Success ==> r.store == store
    ensures r.store.refused == store.refused && r.store.canGenerate == store.canGenerate && r.store.nextId == store.nextId
    ensures ForceSaveCalls(r.calls, SaveQuery(config.publicLabel, None, publicKey))
  {
    ForceSave(store, SaveQuery(config.publicLabel, None, publicKey))
  }

  /** forceSavePublicKey saving where getPublicKeyQuery looks: under publicLabel in the public access group. */
  function ForceSavePublicKey(config: Config, store: Store, publicKey: KeyId): (r: SaveOutcome)
    ensures r.status == Success <==> PublicSlot(config) !in store.refused
    ensures r.status == Success ==> r.store.items == store.items[PublicSlot(config) := publicKey]
    ensures r.status != Success ==> r.store == store
    ensures r.store.refused == store.refused && r.store.canGenerate == store.canGenerate && r.store.nextId == store.nextId
    ensures ForceSaveCalls(r.calls, SaveQuery(config.publicLabel, config.publicKeyAccessGroup, publicKey))
  {
    ForceSave(store, SaveQuery(config.publicLabel, config.publicKeyAccessGroup, publicKey))
  }

  /** The item a public key is saved at, by the source's query or by the corrected one. */
  function SaveSlot(config: Config, asWritten: bool): ItemKey {
    if asWritten then AsWrittenSaveSlot(config) else PublicSlot(config)
  }

  /** The access group of the save query: none as written, the public access group when corrected. */
  function SaveGroup(config: Config, asWritten: bool): Option<string> {
    if asWritten then None else config.publicKeyAccessGroup
  }

  /** forceSavePublicKey at SaveSlot(config, asWritten). */
  function SavePublic(config: Config, store: Store, publicKey: KeyId, asWritten: bool): (r: SaveOutcome)
    ensures r.status == Success <==> SaveSlot(config, asWritten) !in store.refused
    ensures r.status == Success ==> r.store.items == store.items[SaveSlot(config, asWritten) := publicKey]
    ensures r.status != Success ==> r.store == store
    ensures r.store.refused == store.refused && r.store.canGenerate == store.canGenerate && r.store.nextId == store.nextId
    ensures ForceSaveCalls(r.calls, SaveQuery(config.publicLabel, SaveGroup(config, asWritten), publicKey))
  {
    if asWritten then ForceSavePublicKeyAsWritten(config, store, publicKey)
    else ForceSavePublicKey(config, store, publicKey)
  }

  /** Storing at most two items keeps every other item and adds nothing else. */
  lemma PutFrame(before: map<ItemKey, KeyId>, after: map<ItemKey, KeyId>, a: ItemKey, va: KeyId, b: ItemKey, vb: KeyId)
    requires after == before[a := va] || after == before[a := va][b := vb]
    ensures forall k :: k in after ==>
      || (k in before && after[k] == before[k])
      || (k == a && after[k] == va)
      || (k == b && after[k] == vb)
    ensures forall k :: k in before ==> k in after
  {
  }

  /**
   One generation request and, on success, the force-save of the public
   half, for a request that persists the private half at the private slot
   and not the public half.
   */
  function GenerateFrom(h: SignerHelper, request: Query, asWritten: bool): (r: Step<KeyPair>)
    requires PrivatePersistSlot(request) == Some(PrivateSlot(h.config)) && PublicPersistSlot(request) == None
    ensures |r.calls| >= 1 && r.calls[0] == GeneratePairCall(request)
    ensures r.result.publicKey.None? ==> r.calls == [GeneratePairCall(request)]
    ensures r.result.publicKey.Some? ==>
      ForceSaveCalls(r.calls[1..], SaveQuery(h.config.publicLabel, SaveGroup(h.config, asWritten), r.result.publicKey.value))
    ensures r.result.privateKey.Some? <==> h.store.canGenerate && PrivateSlot(h.config) !in h.store.refused
    ensures r.result.publicKey.Some? <==> r.result.privateKey.Some?
    ensures r.result.publicKey.None? ==> r.helper == h
    ensures r.result.privateKey.Some? ==>
      && PrivateSlot(h.config) in r.helper.store.items
      && r.helper.store.items[PrivateSlot(h.config)] == r.result.privateKey.value
    ensures r.result.publicKey.Some? ==>
      && h.store.nextId <= r.result.publicKey.value < r.helper.store.nextId
      && h.store.nextId <= r.result.privateKey.value < r.helper.store.nextId
      && r.result.publicKey.value != r.result.privateKey.value
    ensures r.result.publicKey.Some? && SaveSlot(h.config, asWritten) !in h.store.refused ==>
      && SaveSlot(h.config, asWritten) in r.helper.store.items
      && r.helper.store.items[SaveSlot(h.config, asWritten)] == r.result.publicKey.value
    ensures forall k :: k in r.helper.store.items ==>
      || (k in h.store.items && r.helper.store.items[k] == h.store.items[k])
      || (k == PrivateSlot(h.config) && r.result.privateKey == Some(r.helper.store.items[k]))
      || (k == SaveSlot(h.config, asWritten) && r.result.publicKey == Some(r.helper.store.items[k]))
    ensures forall k :: k in h.store.items ==> k in r.helper.store.items
    ensures r.helper == h.(store := r.helper.store)
    ensures r.helper.store.refused == h.store.refused && r.helper.store.canGenerate == h.store.canGenerate
    ensures h.store.nextId <= r.helper.store.nextId
  {
    var (generated, outcome) := GeneratePair(h.store, request);
    assert SaveSlot(h.config, asWritten) != PrivateSlot(h.config);
    match outcome
    case NotGenerated(_) =>
      Step(KeyPair(None, None), h.(store := generated), [GeneratePairCall(request)])
    case Generated(pub, priv) =>
      assert generated.items == h.store.items[PrivateSlot(h.config) := priv];
      var save := SavePublic(h.config, generated, pub, asWritten);
      PutFrame(h.store.items, save.store.items, PrivateSlot(h.config), priv, SaveSlot(h.config, asWritten), pub);
      Step(KeyPair(Some(pub), Some(priv)), h.(store := save.store), [GeneratePairCall(request)] + save.calls)
  }

  /**
   generateKeyPair, with the public key saved as the source writes it
   (`asWritten`) or where the public-key query finds it. Equal labels are
   rejected before any keychain call. Otherwise one generation request is
   made; on success the private half is persisted at the private slot, the
   public half is force-saved, and both references are fresh. The cache is
   not touched.
   */
  function GenerateWith(h: SignerHelper, context: Option<AuthContext>, asWritten: bool): (r: Step<KeyPair>)
    ensures h.config.privateLabel == h.config.publicLabel ==> r == Step(KeyPair(None, None), h, [])
    ensures h.config.privateLabel != h.config.publicLabel ==>
      && |r.calls| >= 1
      && r.calls[0] == GeneratePairCall(KeyPairQuery(h.config, Some(context.GetOr(NewContext))))
      && (r.result.publicKey.None? ==> |r.calls| == 1)
      && (r.result.publicKey.Some? ==>
            ForceSaveCalls(r.calls[1..], SaveQuery(h.config.publicLabel, SaveGroup(h.config, asWritten), r.result.publicKey.value)))
    ensures r.result.privateKey.Some? <==>
      && h.config.privateLabel != h.config.publicLabel
      && h.store.canGenerate && PrivateSlot(h.config) !in h.store.refused
    ensures r.result.publicKey.Some? <==> r.result.privateKey.Some?
    ensures r.result.publicKey.None? ==> r.helper == h
    ensures r.result.privateKey.Some? ==>
      && PrivateSlot(h.config) in r.helper.store.items
      && r.helper.store.items[PrivateSlot(h.config)] == r.result.privateKey.value
    ensures r.result.publicKey.Some? ==>
      && h.store.nextId <= r.result.publicKey.value < r.helper.store.nextId
      && h.store.nextId <= r.result.privateKey.value < r.helper.store.nextId
      && r.result.publicKey.value != r.result.privateKey.value
    ensures r.result.publicKey.Some? && SaveSlot(h.config, asWritten) !in h.store.refused ==>
      && SaveSlot(h.config, asWritten) in r.helper.store.items
      && r.helper.store.items[SaveSlot(h.config, asWritten)] == r.result.publicKey.value
    ensures forall k :: k in r.helper.store.items ==>
      || (k in h.store.items && r.helper.store.items[k] == h.store.items[k])
      || (k == PrivateSlot(h.config) && r.result.privateKey == Some(r.helper.store.items[k]))
      || (k == SaveSlot(h.config, asWritten) && r.result.publicKey == Some(r.helper.store.items[k]))
    ensures forall k :: k in h.store.items ==> k in r.helper.store.items
    ensures r.helper == h.(store := r.helper.store)
    ensures r.helper.store.refused == h.store.refused && r.helper.store.canGenerate == h.store.canGenerate
    ensures h.store.nextId <= r.helper.store.nextId
  {
    if h.config.privateLabel == h.config.publicLabel then
      Step(KeyPair(None, None), h, [])
    else
      GenerateFrom(h, KeyPairQuery(h.config, Some(context.GetOr(NewContext))), asWritten)
  }

  /** generateKeyPair as the source writes it. */
  function GenerateKeyPairAsWritten(h: SignerHelper, context: Option<AuthContext>): Step<KeyPair> {
    GenerateWith(h, context, true)
  }

  /** generateKeyPair with the public key saved where the public-key query looks for it. */
  function GenerateKeyPair(h: SignerHelper, context: Option<AuthContext>): Step<KeyPair> {
    GenerateWith(h, context, false)
  }

  /**
   getPrivateKey: one lookup of the private slot. The cached private key is
   never consulted and nothing is generated.
   */
  function GetPrivateKey(h: SignerHelper, localReason: Option<string>): (r: Step<Option<KeyId>>)
    ensures r.helper == h
    ensures r.calls == [CopyMatchingCall(PrivateKeyQuery(h.config, localReason))]
    ensures r.result.Some? <==> PrivateSlot(h.config) in h.store.items
    ensures r.result.Some? ==> r.result.value == h.store.items[PrivateSlot(h.config)]
  {
    var query := PrivateKeyQuery(h.config, localReason);
    Step(GetKey(h.store, query), h, [CopyMatchingCall(query)])
  }

  /**
   getPublicKey: the cached key if there is one, with no keychain call;
   otherwise a lookup, whose hit is cached alone; otherwise a generation,
   both of whose halves are cached, absent halves included. With `asWritten`
   the generation saves the public key as the source does; without it, at
   the public slot.
   */
  function GetPublicKey(h: SignerHelper, asWritten: bool): (r: Step<Option<KeyId>>)
    ensures h.cachedPublicKey.Some? ==> r == Step(h.cachedPublicKey, h, [])
    ensures r.helper.cachedPublicKey == r.result
    ensures r.helper.config == h.config
    ensures h.cachedPublicKey.None? ==> |r.calls| >= 1 && r.calls[0] == CopyMatchingCall(PublicKeyQuery(h.config))
    ensures h.cachedPublicKey.None? && PublicSlot(h.config) in h.store.items ==>
      && r.result == Some(h.store.items[PublicSlot(h.config)])
      && r.helper == h.(cachedPublicKey := r.result)
      && r.calls == [CopyMatchingCall(PublicKeyQuery(h.config))]
    ensures h.cachedPublicKey.None? && PublicSlot(h.config) !in h.store.items ==>
      var g := GenerateWith(h, None, asWritten);
      && r.result == g.result.publicKey
      && r.helper == g.helper.(cachedPublicKey := g.result.publicKey, cachedPrivateKey := g.result.privateKey)
      && r.calls == [CopyMatchingCall(PublicKeyQuery(h.config))] + g.calls
  {
    if h.cachedPublicKey.Some? then
      Step(h.cachedPublicKey, h, [])
    else
      var query := PublicKeyQuery(h.config);
      var found := GetKey(h.store, query);
      if found.Some? then
        Step(found, h.(cachedPublicKey := found), [CopyMatchingCall(query)])
      else
        var keys := GenerateWith(h, None, asWritten);
        var h' := keys.helper.(cachedPrivateKey := keys.result.privateKey, cachedPublicKey := keys.result.publicKey);
        Step(keys.result.publicKey, h', [CopyMatchingCall(query)] + keys.calls)
  }

  /** isKeyexist: getPublicKey returned a key, with all of getPublicKey's effects. */
  function IsKeyExist(h: SignerHelper, asWritten: bool): (r: Step<bool>)
    ensures r.result == GetPublicKey(h, asWritten).result.Some?
    ensures r.helper == GetPublicKey(h, asWritten).helper && r.calls == GetPublicKey(h, asWritten).calls
  {
    var s := GetPublicKey(h, asWritten);
    Step(s.result.Some?, s.helper, s.calls)
  }

  /**
   sign: look the private key up and hand it with the message to the
   platform's X9.62 ECDSA-with-SHA-256 signing primitive. The source
   force-unwraps the key, so a private key must be present.
   */
  function Sign(h: SignerHelper, digest: Bytes, localReason: Option<string>,
                createSignature: (KeyId, Bytes) -> Option<Bytes>): (r: Step<Option<Bytes>>)
    requires PrivateSlot(h.config) in h.store.items
    ensures r.result == createSignature(h.store.items[PrivateSlot(h.config)], digest)
    ensures r.helper == h
    ensures r.calls == [CopyMatchingCall(PrivateKeyQuery(h.config, localReason))]
  {
    var key := GetPrivateKey(h, localReason);
    Step(createSignature(key.result.value, digest), key.helper, key.calls)
  }

  /** clearCache. */
  function ClearCache(h: SignerHelper): (h': SignerHelper)
    ensures h'.cachedPublicKey.None? && h'.cachedPrivateKey.None?
    ensures h'.config == h.config && h'.store == h.store
  {
    h.(cachedPublicKey := None, cachedPrivateKey := None)
  }

  /** Success and item-not-found both count as deleted. */
  predicate Tolerated(status: OSStatus) {
    status == Success || status == ItemNotFound
  }

  /** Two deletions remove exactly the two addressed items the keychain does not refuse. */
  lemma DropBoth(items: map<ItemKey, KeyId>, refused: set<ItemKey>, a: ItemKey, b: ItemKey)
    ensures var out := Drop(Drop(items, refused, a), refused, b);
      && (forall k :: k in out <==> k in items && (k in refused || (k != a && k != b)))
      && (forall k :: k in out ==> out[k] == items[k])
  {
  }

  /** deletePublicKey: one delete with the public-key query; true when the public item is gone. */
  function DeletePublicKey(h: SignerHelper): (r: Step<bool>)
    ensures r.result <==> PublicSlot(h.config) !in h.store.refused
    ensures r.helper.store.items == Drop(h.store.items, h.store.refused, PublicSlot(h.config))
    ensures !r.result ==> r.helper == h
    ensures r.helper == h.(store := r.helper.store)
    ensures r.helper.store.refused == h.store.refused && r.helper.store.canGenerate == h.store.canGenerate
    ensures r.helper.store.nextId == h.store.nextId
    ensures r.calls == [DeleteCall(PublicKeyQuery(h.config))]
  {
    var query := PublicKeyQuery(h.config);
    var (store', status) := Delete(h.store, query);
    Step(Tolerated(status), h.(store := store'), [DeleteCall(query)])
  }

  /** deletePrivateKey: one delete with the private-key query; true when the private item is gone. */
  function DeletePrivateKey(h: SignerHelper): (r: Step<bool>)
    ensures r.result <==> PrivateSlot(h.config) !in h.store.refused
    ensures r.helper.store.items == Drop(h.store.items, h.store.refused, PrivateSlot(h.config))
    ensures !r.result ==> r.helper == h
    ensures r.helper == h.(store := r.helper.store)
    ensures r.helper.store.refused == h.store.refused && r.helper.store.canGenerate == h.store.canGenerate
    ensures r.helper.store.nextId == h.store.nextId
    ensures r.calls == [DeleteCall(PrivateKeyQuery(h.config, None))]
  {
    var query := PrivateKeyQuery(h.config, None);
    var (store', status) := Delete(h.store, query);
    Step(Tolerated(status), h.(store := store'), [DeleteCall(query)])
  }

  /**
   deleteKeyPair: the cache ends empty whatever the keychain answers; then
   the public item and the private item are deleted, in that order, each
   removed unless the keychain refuses, and nothing else in the keychain
   changes.
   */
  function DeleteKeyPair(h: SignerHelper): (r: Step<DeletionReport>)
    ensures r.helper.cachedPublicKey.None? && r.helper.cachedPrivateKey.None?
    ensures r.helper.config == h.config
    ensures r.calls == [DeleteCall(PublicKeyQuery(h.config)), DeleteCall(PrivateKeyQuery(h.config, None))]
    ensures r.result.publicDeleted <==> PublicSlot(h.config) !in h.store.refused
    ensures r.result.privateDeleted <==> PrivateSlot(h.config) !in h.store.refused
    ensures forall k :: k in r.helper.store.items <==>
      k in h.store.items && (k in h.store.refused || (k != PublicSlot(h.config) && k != PrivateSlot(h.config)))
    ensures forall k :: k in r.helper.store.items ==> r.helper.store.items[k] == h.store.items[k]
    ensures r.helper.store.refused == h.store.refused && r.helper.store.canGenerate == h.store.canGenerate
    ensures r.helper.store.nextId == h.store.nextId
  {
    var cleared := ClearCache(h);
    var pub := DeletePublicKey(cleared);
    var priv := DeletePrivateKey(pub.helper);
    DropBoth(h.store.items, h.store.refused, PublicSlot(h.config), PrivateSlot(h.config));
    Step(DeletionReport(pub.result, priv.result), priv.helper, pub.calls + priv.calls)
  }
}
