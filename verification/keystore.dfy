/**
 An abstract keychain. Items are addressed by key class, label and optional
 access group and hold an opaque key reference. Attribute dictionaries are
 maps from attribute names to values, and `SlotOf` reads the address out of
 one. The operations mirror SecItemCopyMatching, SecItemAdd, SecItemDelete
 and SecKeyGeneratePair, returning their status codes.
 */
module KeyStore {
  import opened Wrappers
  import opened Configuration

  /** An opaque key reference; fresh ones are handed out by the store's counter. */
  type KeyId = nat

  datatype KeyClass = PublicKey | PrivateKey

  /**
   The address of an item. A missing access group stands for the app's
   default group; a named group is taken to be some other group.
   */
  datatype ItemKey = ItemKey(keyClass: KeyClass, keyLabel: string, accessGroup: Option<string>)

  /** An authentication context (LAContext), known by the reason it shows the user. */
  datatype AuthContext = AuthContext(localizedReason: string)

  /** The attribute names the helper uses, after the kSec constants. */
  datatype Attr =
    | Class | AttrKeyClass | AttrLabel | AttrAccessGroup | ReturnRef
    | UseAuthenticationContext | UseAuthenticationUI | AttrIsPermanent
    | AttrAccessControl | AttrAccessible | AttrKeyType | AttrKeySizeInBits
    | AttrTokenId | PrivateKeyAttrs | PublicKeyAttrs | ValueRef

  datatype Value =
    | ClassKey
    | KeyClassValue(cls: KeyClass)
    | Text(text: string)
    | Flag(flag: bool)
    | Number(number: int)
    | Context(context: AuthContext)
    | AuthenticationUIAllow
    | AccessControlObject(acl: AccessControl)
    | AccessibleAfterFirstUnlockThisDeviceOnly
    | KeyTypeECSECPrimeRandom
    | TokenIdSecureEnclave
    | Attributes(attrs: map<Attr, Value>)
    | KeyRef(refClass: KeyClass, refId: KeyId)

  type Query = map<Attr, Value>

  /** The status codes the helper distinguishes. */
  datatype OSStatus = Success | DuplicateItem | ItemNotFound | InvalidRecord | InteractionNotAllowed | Param | GenerationFailed

  /**
   The keychain: its items; the addresses at which the platform rejects
   writes and deletions (an unsupported access control, a locked device),
   while reads of a present item always succeed;
   whether it can generate the requested key pair at all; and the next
   unused key reference.
   */
  datatype Store = Store(items: map<ItemKey, KeyId>, refused: set<ItemKey>, canGenerate: bool, nextId: KeyId)

  /** A call the helper makes into the keychain, with its argument. */
  datatype Call = CopyMatchingCall(query: Query) | AddCall(query: Query) | DeleteCall(query: Query) | GeneratePairCall(query: Query)

  function TextOf(q: Query, a: Attr): Option<string> {
    if a in q && q[a].Text? then Some(q[a].text) else None
  }

  /** The key class a query names, either directly or through the key it references. */
  function ClassOf(q: Query): Option<KeyClass> {
    if AttrKeyClass in q && q[AttrKeyClass].KeyClassValue? then Some(q[AttrKeyClass].cls)
    else if ValueRef in q && q[ValueRef].KeyRef? then Some(q[ValueRef].refClass)
    else None
  }

  /** The item address a key query designates; None for a query that is not a key query with a label. */
  function SlotOf(q: Query): (k: Option<ItemKey>)
    ensures k.Some? ==> Class in q && q[Class] == ClassKey && AttrLabel in q && q[AttrLabel] == Text(k.value.keyLabel)
    ensures k.Some? ==> (k.value.accessGroup.Some? <==> AttrAccessGroup in q && q[AttrAccessGroup].Text?)
  {
    if Class in q && q[Class] == ClassKey && ClassOf(q).Some? && TextOf(q, AttrLabel).Some? then
      Some(ItemKey(ClassOf(q).value, TextOf(q, AttrLabel).value, TextOf(q, AttrAccessGroup)))
    else None
  }

  /** SecItemCopyMatching: the status, and the reference when the query asks for one. */
  function CopyMatching(st: Store, q: Query): (r: (OSStatus, Option<KeyId>))
    ensures r.0 == Success <==> SlotOf(q).Some? && SlotOf(q).value in st.items
    ensures r.1.Some? ==> r.0 == Success && r.1.value == st.items[SlotOf(q).value]
    ensures r.1.Some? ==> ReturnRef in q && q[ReturnRef] == Flag(true)
    ensures r.0 == Success && ReturnRef in q && q[ReturnRef] == Flag(true) ==> r.1.Some?
  {
    match SlotOf(q)
    case None => (Param, None)
    case Some(k) =>
      if k !in st.items then (ItemNotFound, None)
      else if ReturnRef in q && q[ReturnRef] == Flag(true) then (Success, Some(st.items[k]))
      else (Success, None)
  }

  /** SecItemAdd of the key a query references. */
  function Add(st: Store, q: Query): (r: (Store, OSStatus))
    ensures r.1 == Success <==>
      && SlotOf(q).Some? && ValueRef in q && q[ValueRef].KeyRef?
      && SlotOf(q).value !in st.items && SlotOf(q).value !in st.refused
    ensures SlotOf(q).Some? && ValueRef in q && q[ValueRef].KeyRef? && SlotOf(q).value in st.items ==> r.1 == DuplicateItem
    ensures SlotOf(q).Some? && ValueRef in q && q[ValueRef].KeyRef? && SlotOf(q).value !in st.items && SlotOf(q).value in st.refused ==>
      r.1 == InvalidRecord
    ensures r.1 == Success ==> r.0.items == st.items[SlotOf(q).value := q[ValueRef].refId]
    ensures r.1 != Success ==> r.0 == st
    ensures r.0.refused == st.refused && r.0.canGenerate == st.canGenerate && r.0.nextId == st.nextId
  {
    match SlotOf(q)
    case None => (st, Param)
    case Some(k) =>
      if !(ValueRef in q && q[ValueRef].KeyRef?) then (st, Param)
      else if k in st.items then (st, DuplicateItem)
      else if k in st.refused then (st, InvalidRecord)
      else (st.(items := st.items[k := q[ValueRef].refId]), Success)
  }

  /** The items after deleting `k`, unless the keychain refuses to. */
  function Drop(items: map<ItemKey, KeyId>, refused: set<ItemKey>, k: ItemKey): map<ItemKey, KeyId> {
    if k in refused then items else items - {k}
  }

  /** SecItemDelete of the item a query designates. */
  function Delete(st: Store, q: Query): (r: (Store, OSStatus))
    ensures r.1 == Success <==> SlotOf(q).Some? && SlotOf(q).value in st.items && SlotOf(q).value !in st.refused
    ensures r.1 == ItemNotFound <==> SlotOf(q).Some? && SlotOf(q).value !in st.items && SlotOf(q).value !in st.refused
    ensures r.1 == Success ==> r.0.items == st.items - {SlotOf(q).value}
    ensures r.1 != Success ==> r.0 == st
    ensures SlotOf(q).Some? ==> r.0.items == Drop(st.items, st.refused, SlotOf(q).value)
    ensures r.0.refused == st.refused && r.0.canGenerate == st.canGenerate && r.0.nextId == st.nextId
  {
    match SlotOf(q)
    case None => (st, Param)
    case Some(k) =>
      if k in st.refused then (st, InteractionNotAllowed)
      else if k !in st.items then (st, ItemNotFound)
      else (st.(items := st.items - {k}), Success)
  }

  /** The attributes for one half of a key-pair request; empty when the request has none. */
  function HalfAttrs(request: Query, half: Attr): Query {
    if half in request && request[half].Attributes? then request[half].attrs else map[]
  }

  /** Where a generated key of class `cls` is persisted: only when its attributes mark it permanent. */
  function PersistSlot(attrs: Query, cls: KeyClass): Option<ItemKey> {
    if AttrIsPermanent in attrs && attrs[AttrIsPermanent] == Flag(true) && TextOf(attrs, AttrLabel).Some? then
      Some(ItemKey(cls, TextOf(attrs, AttrLabel).value, TextOf(attrs, AttrAccessGroup)))
    else None
  }

  function Persist(items: map<ItemKey, KeyId>, slot: Option<ItemKey>, id: KeyId): map<ItemKey, KeyId> {
    if slot.Some? then items[slot.value := id] else items
  }

  /** Where the public and the private half of a request are persisted, if at all. */
  function PublicPersistSlot(request: Query): Option<ItemKey> {
    PersistSlot(HalfAttrs(request, PublicKeyAttrs), PublicKey)
  }

  function PrivatePersistSlot(request: Query): Option<ItemKey> {
    PersistSlot(HalfAttrs(request, PrivateKeyAttrs), PrivateKey)
  }

  predicate Writable(st: Store, slot: Option<ItemKey>) {
    slot.None? || slot.value !in st.refused
  }

  datatype Generation = Generated(publicKey: KeyId, privateKey: KeyId) | NotGenerated(status: OSStatus)

  /**
   SecKeyGeneratePair. On success it hands out two fresh references and
   persists each half whose attributes mark it permanent; on failure the store
   is left as it was.
   */
  function GeneratePair(st: Store, request: Query): (r: (Store, Generation))
    ensures r.1.Generated? <==>
      st.canGenerate && Writable(st, PublicPersistSlot(request)) && Writable(st, PrivatePersistSlot(request))
    ensures r.1.NotGenerated? ==> r.0 == st
    ensures r.1.Generated? ==>
      && st.nextId <= r.1.publicKey < r.0.nextId
      && st.nextId <= r.1.privateKey < r.0.nextId
      && r.1.publicKey != r.1.privateKey
    ensures r.1.Generated? && PrivatePersistSlot(request).Some? ==>
      PrivatePersistSlot(request).value in r.0.items && r.0.items[PrivatePersistSlot(request).value] == r.1.privateKey
    ensures r.1.Generated? && PublicPersistSlot(request).Some? ==>
      PublicPersistSlot(request).value in r.0.items && r.0.items[PublicPersistSlot(request).value] == r.1.publicKey
    ensures r.1.Generated? ==> forall k :: k in r.0.items ==>
      if Some(k) == PublicPersistSlot(request) || Some(k) == PrivatePersistSlot(request) then r.0.items[k] >= st.nextId
      else k in st.items && r.0.items[k] == st.items[k]
    ensures r.1.Generated? ==> forall k :: k in st.items ==> k in r.0.items
    ensures r.1.Generated? ==>
      r.0.items == Persist(Persist(st.items, PublicPersistSlot(request), r.1.publicKey), PrivatePersistSlot(request), r.1.privateKey)
    ensures r.0.refused == st.refused && r.0.canGenerate == st.canGenerate && st.nextId <= r.0.nextId
  {
    var publicSlot := PublicPersistSlot(request);
    var privateSlot := PrivatePersistSlot(request);
    if !st.canGenerate then (st, NotGenerated(GenerationFailed))
    else if !Writable(st, publicSlot) || !Writable(st, privateSlot) then (st, NotGenerated(InvalidRecord))
    else
      var pub, priv := st.nextId, st.nextId + 1;
      var items := Persist(Persist(st.items, publicSlot, pub), privateSlot, priv);
      (st.(items := items, nextId := st.nextId + 2), Generated(pub, priv))
  }
}
