/**
 The attribute dictionaries SignerHelper builds from its Config: the lookup
 queries for each half of the key pair, the key-pair generation request and
 the query that saves a public key.
 */
module Queries {
  import opened Wrappers
  import opened Configuration
  import opened KeyStore

  /** The item the public key is looked up and deleted at. */
  function PublicSlot(config: Config): ItemKey {
    ItemKey(PublicKey, config.publicLabel, config.publicKeyAccessGroup)
  }

  /** The item the private key is looked up, persisted and deleted at. */
  function PrivateSlot(config: Config): ItemKey {
    ItemKey(PrivateKey, config.privateLabel, config.privateKeyAccessGroup)
  }

  /** A context created on the spot, with no reason set. */
  const NewContext: AuthContext := AuthContext("")

  /** The prompt of the private-key lookup: the caller's reason, else the configured prompt, else empty. */
  function PromptFor(config: Config, localReason: Option<string>): (prompt: string)
    ensures localReason.Some? ==> prompt == localReason.value
    ensures localReason.None? && config.operationPrompt.Some? ==> prompt == config.operationPrompt.value
    ensures localReason.None? && config.operationPrompt.None? ==> prompt == ""
  {
    localReason.GetOr(config.operationPrompt.GetOr(""))
  }

  /** `q`, scoped to `group` when there is one. */
  function WithAccessGroup(q: Query, group: Option<string>): Query {
    if group.Some? then q[AttrAccessGroup := Text(group.value)] else q
  }

  /**
   getPrivateKeyQuery: a key query for the private class under privateLabel,
   asking for a reference, carrying a fresh authentication context, and
   scoped to the private access group exactly when one is configured.
   */
  function PrivateKeyQuery(config: Config, localReason: Option<string>): (q: Query)
    ensures forall a :: a in q <==>
      (a in {Class, AttrKeyClass, AttrLabel, UseAuthenticationContext, ReturnRef}
       || (a == AttrAccessGroup && config.privateKeyAccessGroup.Some?))
    ensures q[UseAuthenticationContext] == Context(AuthContext(PromptFor(config, localReason)))
    ensures q[ReturnRef] == Flag(true)
    ensures SlotOf(q) == Some(PrivateSlot(config))
  {
    var params := map[
      Class := ClassKey,
      AttrKeyClass := KeyClassValue(PrivateKey),
      AttrLabel := Text(config.privateLabel),
      UseAuthenticationContext := Context(AuthContext(PromptFor(config, localReason))),
      ReturnRef := Flag(true)];
    WithAccessGroup(params, config.privateKeyAccessGroup)
  }

  /**
   getPublicKeyQuery: a key query for the public class under publicLabel,
   asking for a reference, scoped to the public access group exactly when one
   is configured.
   */
  function PublicKeyQuery(config: Config): (q: Query)
    ensures forall a :: a in q <==>
      (a in {Class, AttrKeyClass, AttrLabel, ReturnRef}
       || (a == AttrAccessGroup && config.publicKeyAccessGroup.Some?))
    ensures q[ReturnRef] == Flag(true)
    ensures SlotOf(q) == Some(PublicSlot(config))
  {
    var params := map[
      Class := ClassKey,
      AttrKeyClass := KeyClassValue(PublicKey),
      AttrLabel := Text(config.publicLabel),
      ReturnRef := Flag(true)];
    WithAccessGroup(params, config.publicKeyAccessGroup)
  }

  /** The private half of the generation request, as getKeyPairQuery promises it. */
  predicate PrivateHalfAsConfigured(config: Config, context: Option<AuthContext>, attrs: Query) {
    && attrs.Keys == {AttrLabel, AttrIsPermanent, UseAuthenticationUI}
                     + (if config.privateKeyAccessGroup.Some? then {AttrAccessGroup} else {})
                     + (if context.Some? then {UseAuthenticationContext} else {})
                     + (if config.privateKeyAccessControl.Some? then {AttrAccessControl} else {})
    && attrs[AttrLabel] == Text(config.privateLabel)
    && attrs[AttrIsPermanent] == Flag(true)
    && attrs[UseAuthenticationUI] == AuthenticationUIAllow
    && (config.privateKeyAccessGroup.Some? ==> attrs[AttrAccessGroup] == Text(config.privateKeyAccessGroup.value))
    && (context.Some? ==> attrs[UseAuthenticationContext] == Context(context.value))
    && (config.privateKeyAccessControl.Some? ==> attrs[AttrAccessControl] == AccessControlObject(config.privateKeyAccessControl.value))
  }

  /** The public half of the generation request: never marked permanent. */
  predicate PublicHalfAsConfigured(config: Config, attrs: Query) {
    && attrs.Keys == {AttrLabel, AttrAccessible}
                     + (if config.publicKeyAccessGroup.Some? then {AttrAccessGroup} else {})
    && attrs[AttrLabel] == Text(config.publicLabel)
    && attrs[AttrAccessible] == AccessibleAfterFirstUnlockThisDeviceOnly
    && (config.publicKeyAccessGroup.Some? ==> attrs[AttrAccessGroup] == Text(config.publicKeyAccessGroup.value))
  }

  /** The private half of getKeyPairQuery; generation persists it at the private slot. */
  function PrivateHalf(config: Config, context: Option<AuthContext>): (attrs: Query)
    ensures PersistSlot(attrs, PrivateKey) == Some(PrivateSlot(config))
  {
    var base := map[
      AttrLabel := Text(config.privateLabel),
      AttrIsPermanent := Flag(true),
      UseAuthenticationUI := AuthenticationUIAllow];
    var grouped := WithAccessGroup(base, config.privateKeyAccessGroup);
    var withContext := if context.Some? then grouped[UseAuthenticationContext := Context(context.value)] else grouped;
    if config.privateKeyAccessControl.Some? then
      withContext[AttrAccessControl := AccessControlObject(config.privateKeyAccessControl.value)]
    else withContext
  }

  /** The public half of getKeyPairQuery; generation does not persist it. */
  function PublicHalf(config: Config): (attrs: Query)
    ensures PersistSlot(attrs, PublicKey) == None
  {
    var base := map[
      AttrLabel := Text(config.publicLabel),
      AttrAccessible := AccessibleAfterFirstUnlockThisDeviceOnly];
    WithAccessGroup(base, config.publicKeyAccessGroup)
  }

  lemma PrivateHalfShape(config: Config, context: Option<AuthContext>)
    ensures PrivateHalfAsConfigured(config, context, PrivateHalf(config, context))
  {
  }

  lemma PublicHalfShape(config: Config)
    ensures PublicHalfAsConfigured(config, PublicHalf(config))
  {
  }

  /**
   getKeyPairQuery: always an EC key of 256 bits whose private half is
   permanent under privateLabel; the secure-enclave token exactly when the
   configuration asks for it. Generation persists the private half at the
   private slot and leaves the public half unsaved.
   */
  function KeyPairQuery(config: Config, context: Option<AuthContext>): (q: Query)
    ensures AttrKeyType in q && PrivateKeyAttrs in q && PublicKeyAttrs in q && AttrKeySizeInBits in q
    ensures AttrTokenId in q <==> config.token == SecureEnclave
    ensures forall a :: a in q ==> a in {AttrKeyType, PrivateKeyAttrs, PublicKeyAttrs, AttrKeySizeInBits, AttrTokenId}
    ensures q[AttrKeyType] == KeyTypeECSECPrimeRandom
    ensures q[AttrKeySizeInBits] == Number(256)
    ensures config.token == SecureEnclave ==> q[AttrTokenId] == TokenIdSecureEnclave
    ensures PrivatePersistSlot(q) == Some(PrivateSlot(config))
    ensures PublicPersistSlot(q) == None
  {
    var privateAttrs, publicAttrs := PrivateHalf(config, context), PublicHalf(config);
    var params := map[
      AttrKeyType := KeyTypeECSECPrimeRandom,
      PrivateKeyAttrs := Attributes(privateAttrs),
      PublicKeyAttrs := Attributes(publicAttrs),
      AttrKeySizeInBits := Number(256)];
    var q := if config.token == SecureEnclave then params[AttrTokenId := TokenIdSecureEnclave] else params;
    assert HalfAttrs(q, PrivateKeyAttrs) == privateAttrs;
    assert HalfAttrs(q, PublicKeyAttrs) == publicAttrs;
    q
  }

  /**
   The two halves of the generation request carry the attributes described
   by PrivateHalfAsConfigured and PublicHalfAsConfigured.
   */
  lemma KeyPairQueryHalves(config: Config, context: Option<AuthContext>)
    ensures var q := KeyPairQuery(config, context);
      && q[PrivateKeyAttrs].Attributes? && PrivateHalfAsConfigured(config, context, q[PrivateKeyAttrs].attrs)
      && q[PublicKeyAttrs].Attributes? && PublicHalfAsConfigured(config, q[PublicKeyAttrs].attrs)
  {
    var q := KeyPairQuery(config, context);
    assert q[PrivateKeyAttrs] == Attributes(PrivateHalf(config, context));
    assert q[PublicKeyAttrs] == Attributes(PublicHalf(config));
    PrivateHalfShape(config, context);
    PublicHalfShape(config);
  }

  /** The query that adds (and on a duplicate deletes) a public key under `keyLabel` in `group`. */
  function SaveQuery(keyLabel: string, group: Option<string>, publicKey: KeyId): (q: Query)
    ensures SlotOf(q) == Some(ItemKey(PublicKey, keyLabel, group))
    ensures ValueRef in q && q[ValueRef] == KeyRef(PublicKey, publicKey)
  {
    WithAccessGroup(map[Class := ClassKey, AttrLabel := Text(keyLabel), ValueRef := KeyRef(PublicKey, publicKey)], group)
  }

  /**
   On a real device the request names the secure enclave exactly when
   biometrics are available and it is not a simulator.
   */
  lemma KeyPairQueryOnDevice(config: Config, context: Option<AuthContext>, hasTouchID: bool, isSimulator: bool)
    requires config.token == SecureEnclaveIfAvailable(hasTouchID, isSimulator)
    ensures AttrTokenId in KeyPairQuery(config, context) <==> hasTouchID && !isSimulator
  {
  }
}
