# SignerHelper key lifecycle and PEM armour, in Dafny

This project models `SignerHelper`, the class of the signChecker iOS app that
owns one elliptic-curve key pair in the keychain. The model covers:

- the query dictionaries it builds from its `Config`: the private-key lookup,
  the public-key lookup, the key-pair generation request, and the public-key
  save;
- the keychain calls it makes with them: `SecItemCopyMatching`, `SecItemAdd`,
  `SecItemDelete` and `SecKeyGeneratePair`;
- its two cached key references;
- `getPEM`, which wraps the external form of a public key in PEM armour.

The keychain is an abstract store (`KeyStore.Store`). It maps an item address
(key class, label and optional access group) to an opaque key reference. It
also records the addresses where the platform refuses writes and deletions,
whether key generation is possible at all, and the next fresh reference.
Every `SignerHelper` operation is a pure function. It returns a
`Signer.Step`: the operation's value, the helper afterwards, and the ordered
list of keychain calls it made.

Modules, in dependency order:

- `Wrappers`: `Option`.
- `Base64`: RFC 4648 section 4 encoding and a canonical decoder.
- `Pem`: line wrapping at 64 characters with a lone CR between lines, the
  header and footer, and a reader for the armour.
- `Configuration`: `Token`, `Device.hasSecureEnclave` and `Config`.
- `KeyStore`: attributes, values, queries, status codes, the store and the
  four keychain calls.
- `Queries`: the four query builders.
- `Signer`: the helper's operations.
- `Lifecycle`: properties that relate several operations.

The `Config` struct of signChecker/utilites/Config.swift (lines 11-48) does not
declare `privateKeyAccessControl`, although SignerHelper.swift reads it at
line 93. `Config` here carries it as an
optional opaque access-control handle.

## Model

| member | source | states |
|---|---|---|
| Configuration.SecureEnclaveIfAvailable | signChecker/utilites/Device.swift:15-36 | the secure-enclave token is chosen exactly when biometrics are available and the build is not a simulator; a simulator always gets the keychain |
| Base64.Encode | signChecker/business/SignerHelper.swift:237 | the encoding has 4 characters per started group of 3 bytes, all from the RFC 4648 alphabet except the pad, which occurs only in the last two positions |
| Base64.Rfc4648VectorsShort | signChecker/business/SignerHelper.swift:237 | the encoding agrees with the RFC 4648 section 10 test vectors "", "f", "fo" and "foo", which fixes its bit order and padding |
| Base64.Rfc4648VectorsLong | signChecker/business/SignerHelper.swift:237 | the encoding agrees with the RFC 4648 section 10 test vectors "foob", "fooba" and "foobar" |
| Base64.DecodeEncode | signChecker/business/SignerHelper.swift:237 | decoding the base64 text getPEM embeds gives back exactly the key bytes, for every input |
| Pem.Chunks | signChecker/business/SignerHelper.swift:237 | the 64-character line option cuts the text into ceil(n/64) lines, each exactly 64 long except a last one of 1 to 64; joined, they are the text again |
| Pem.SplitJoin | signChecker/business/SignerHelper.swift:237 | lines joined with a separator they do not contain are recovered by splitting at it |
| Pem.GetPEM | signChecker/business/SignerHelper.swift:234-240 | the PEM text starts with the BEGIN header (ending in LF) and ends with the END footer (starting with LF) |
| Pem.SplitWrap | signChecker/business/SignerHelper.swift:237 | text wrapped with CR separators splits back into its 64-character lines, none of which holds a CR or LF |
| Pem.PemBodyLayout | signChecker/business/SignerHelper.swift:234-240 | between header and footer the lines are 64 characters but for the last, hold no CR or LF, and join to the base64 of the key, of length 4*ceil(n/3); an empty key gives an empty body |
| Pem.ParseGetPEM | signChecker/business/SignerHelper.swift:234-240 | reading the armour back (check the frame, join the lines at CR, decode) yields exactly the key bytes |
| Pem.GetPEMInjective | signChecker/business/SignerHelper.swift:234-240 | two different keys never get the same PEM text |
| Queries.PromptFor | signChecker/business/SignerHelper.swift:51 | the context's reason is the caller's reason, else the configured operation prompt, else the empty string |
| Queries.PrivateKeyQuery | signChecker/business/SignerHelper.swift:49-63 | the lookup has exactly the class, private key class, private label, authentication context and return-reference entries, plus the access group exactly when one is configured; it addresses the private slot and asks for a reference |
| Queries.PublicKeyQuery | signChecker/business/SignerHelper.swift:65-76 | the lookup has exactly the class, public key class, public label and return-reference entries, plus the access group exactly when one is configured; it addresses the public slot |
| Queries.PrivateHalf | signChecker/business/SignerHelper.swift:80-95 | the private attributes mark the key permanent, so generation persists it at the private slot |
| Queries.PublicHalf | signChecker/business/SignerHelper.swift:97-103 | the public attributes do not mark the key permanent, so generation does not persist it |
| Queries.PrivateHalfShape | signChecker/business/SignerHelper.swift:80-95 | the private attributes are exactly label, permanent, authentication UI allowed, and the access group, context and access control each exactly when given |
| Queries.PublicHalfShape | signChecker/business/SignerHelper.swift:97-103 | the public attributes are exactly label and after-first-unlock accessibility, plus the access group exactly when configured |
| Queries.KeyPairQuery | signChecker/business/SignerHelper.swift:105-116 | the request always asks for a 256-bit EC key with both halves' attributes, and names the secure enclave token exactly when the configuration asks for it; no other entry |
| Queries.KeyPairQueryHalves | signChecker/business/SignerHelper.swift:78-117 | the request's two halves carry the private and public attributes as configured |
| Queries.KeyPairQueryOnDevice | signChecker/business/SignerHelper.swift:112-114 | on a device whose token is secureEnclaveIfAvailable, the token entry is present exactly when biometrics are available off the simulator |
| Queries.SaveQuery | signChecker/business/SignerHelper.swift:145-149 | the save query addresses a public-key item under the given label and group and references the key to save |
| KeyStore.CopyMatching | signChecker/business/SignerHelper.swift:39 | the lookup succeeds exactly when the query addresses an existing item, and hands back that item's reference exactly when asked to |
| KeyStore.Add | signChecker/business/SignerHelper.swift:151 | adding reports a duplicate for an occupied address, refuses a rejected one, and otherwise stores the referenced key |
| KeyStore.Delete | signChecker/business/SignerHelper.swift:216 | deleting removes the addressed item unless refused, and reports not-found for a free address |
| KeyStore.GeneratePair | signChecker/business/SignerHelper.swift:127 | generation succeeds exactly when possible and every permanent half is writable; it persists exactly the permanent halves under two distinct fresh references and changes nothing else |
| Signer.GetKey | signChecker/business/SignerHelper.swift:36-45 | a key comes back exactly when the query addresses an existing item and asks for a reference, and it is that item's key |
| Signer.ForceSave | signChecker/business/SignerHelper.swift:150-161 | one add, and only after a duplicate a delete and a second add; the key ends up stored exactly when its address is not refused, and nothing else changes |
| Signer.ForceSavePublicKeyAsWritten | signChecker/business/SignerHelper.swift:144-161 | the save as written stores the key under the public label in the default group, whatever group is configured |
| Signer.ForceSavePublicKey | signChecker/business/SignerHelper.swift:144-161 | the corrected save stores the key at the public slot, where the public-key lookup finds it |
| Signer.GenerateFrom | signChecker/business/SignerHelper.swift:124-130 | one generation request, then the save of the public half on success; both halves are present or absent together, fresh and distinct; the private one is at the private slot; no other item changes |
| Signer.GenerateWith | signChecker/business/SignerHelper.swift:119-131 | equal labels give no keys and no keychain call; otherwise the generation request with the given or a new context comes first, and on success is followed by the one or three calls of the public key's save, with the group the variant chooses; the cache is untouched |
| Signer.GetPrivateKey | signChecker/business/SignerHelper.swift:163-167 | one lookup of the private slot, ignoring the cache; the key is there exactly when the private item exists |
| Signer.GetPublicKey | signChecker/business/SignerHelper.swift:169-182 | a cached key is returned with no call; else a found key is cached alone; else a pair is generated and both halves are cached, absent ones included; the result is always what is now cached. `asWritten = true` is the source's method, whose generation saves the public key with the group-less query; `false` is the corrected variant |
| Signer.IsKeyExist | signChecker/business/SignerHelper.swift:184-187 | the answer is whether getPublicKey returned a key, with all of getPublicKey's effects; `asWritten = true` is the source's method |
| Signer.Sign | signChecker/business/SignerHelper.swift:133-142 | the signature is the primitive applied to the private slot's key and the digest, after one private-key lookup; the helper is unchanged |
| Signer.ClearCache | signChecker/business/SignerHelper.swift:204-207 | both cached references are cleared and nothing else changes |
| Signer.DeletePublicKey | signChecker/business/SignerHelper.swift:214-222 | one delete with the public-key query; it counts as done exactly when the public slot is not refused, and then the public item is gone |
| Signer.DeletePrivateKey | signChecker/business/SignerHelper.swift:224-232 | one delete with the private-key query; it counts as done exactly when the private slot is not refused, and then the private item is gone |
| Signer.DropBoth | signChecker/business/SignerHelper.swift:209-212 | two deletions in a row remove exactly the two addressed items that are not refused and keep every other item's key |
| Signer.DeleteKeyPair | signChecker/business/SignerHelper.swift:199-212 | the cache ends empty; the public then the private item are deleted, each unless refused; no other item changes |
| Lifecycle.InitValid | signChecker/business/SignerHelper.swift:19-21 | a new helper caches nothing, so it is valid over any keychain whose counter is past every stored reference |
| Lifecycle.GetPublicKeyPreservesValid | signChecker/business/SignerHelper.swift:169-182 | after getPublicKey, as written and corrected alike, the cached keys agree with the keychain, and every reference was issued by it |
| Lifecycle.GenerationBranchValid | signChecker/business/SignerHelper.swift:174-178 | the generate-and-cache branch of getPublicKey leaves the cache consistent with the keychain, whichever item the public key is saved at |
| Lifecycle.IsKeyExistPreservesValid | signChecker/business/SignerHelper.swift:184-187 | isKeyexist, as written and corrected alike, keeps the cache consistent with the keychain |
| Lifecycle.DeleteKeyPairPreservesValid | signChecker/business/SignerHelper.swift:199-212 | deleteKeyPair keeps the cache consistent whatever the keychain answers |
| Lifecycle.DeleteKeyPairIdempotent | signChecker/business/SignerHelper.swift:199-232 | a second deleteKeyPair changes nothing, reports the same and makes the same calls |
| Lifecycle.GetPublicKeyServedFromCache | signChecker/business/SignerHelper.swift:170-172 | once getPublicKey has returned a key, the next call returns the same key with no keychain call: no second generation while a key is cached |
| Lifecycle.IsKeyExistGeneratesOnMiss | signChecker/business/SignerHelper.swift:174-186 | isKeyexist with an empty cache and no public item sends a generation request, and answers true exactly when generation can succeed, leaving a new private key |
| Lifecycle.GetPublicKeyEqualLabels | signChecker/business/SignerHelper.swift:120-123 | with equal labels a miss makes only the lookup, returns nothing, leaves the keychain alone and clears the private cache |
| Lifecycle.DeleteThenIsKeyExistGeneratesNewKey | signChecker/business/SignerHelper.swift:169-232 | after deleteKeyPair the lookup misses, isKeyexist (as written or corrected) generates again, and the new key is neither an old item nor the old cached key |
| Lifecycle.GetPrivateKeyAgreesWithCache | signChecker/business/SignerHelper.swift:163-167 | on a valid helper, getPrivateKey returns exactly the cached private key whenever one is cached |
| Lifecycle.GetPrivateKeyAfterGeneration | signChecker/business/SignerHelper.swift:163-178 | after getPublicKey has generated a pair, getPrivateKey finds the private half it cached, with one lookup, also when an older private item sat at the private slot and was replaced |
| Lifecycle.GeneratedKeyFoundAfterRestart | signChecker/business/SignerHelper.swift:169-182 | with the corrected save, a key generated by getPublicKey is found by a fresh helper over the same keychain with one lookup and no second generation |
| Lifecycle.AsWrittenSaveMissesAccessGroup | signChecker/business/SignerHelper.swift:144-149 | as written, with a public access group configured other than the app's default group, the saved public key is not found by the public-key lookup and survives deleteKeyPair |
| Lifecycle.AsWrittenRestartGeneratesAgain | signChecker/business/SignerHelper.swift:144-149 | as written, with a public access group configured other than the app's default group, a helper constructed afresh over the keychain misses the saved key and sends a second generation request |
| Lifecycle.AsWrittenSaveMissesAccessGroupExample | signChecker/business/SignerHelper.swift:144-149 | with the demo app's labels and the example access group of the Config.swift comment, taken not to be the app's default group, the as-written save misses while the corrected one is found |
| Lifecycle.AsWrittenAgreesWithoutAccessGroup | signChecker/business/SignerHelper.swift:144-149 | with no public access group configured, the as-written generation is the corrected one and its save lands at the public slot |
| Lifecycle.ShippedDemoSaveFound | signChecker/controller/ViewController.swift:81 | with the demo app's configuration, which passes no public access group, the key the as-written generation saves on an empty keychain is the one the public-key query finds, for any token and access control |

## Left out

- AssymetricCryptoManager.swift and the view layer are not part of this model.
- `verifyUsingSha256` is left out. Its result polarity is inverted, and it works on raw PKCS#1 that the model has no counterpart for.
- `getPrivateParameter` is left out. It is never called, and it builds an access-control object from the platform.
- Authentication is not modelled. A private-key lookup that would prompt the user and be cancelled is not a case here.
- The crypto primitives are not modelled. `SecKeyCreateSignature` is the parameter `createSignature` of `Signer.Sign`, so no sign/verify round trip is stated.
- Logging is not modelled. The `print` calls only log; the statuses they log are kept where they decide something, in `DeletionReport` and `SaveOutcome`.
- The keychain is simplified:
  - A query without an access group addresses the default group only; there is no wildcard matching across groups, and no named group is the default group.
  - Reads never fail: only writes and deletions can be refused.
  - An address holds at most one item.
  - Generation over an existing private item replaces it.
  - A failed generation hands back no halves.
- Concurrency is not modelled. The helper is a value, and two callers racing on the cache or the keychain are out of scope.
- The device probes (biometrics available, simulator build) are inputs to `Configuration.SecureEnclaveIfAvailable`.
- The PEM bytes are taken as given. The key's external representation is a raw X9.63 point, and no SubjectPublicKeyInfo structure is claimed.
- The second `getKey(query:)` overload (SignerHelper.swift:189-197) is not modelled separately. It is never called, and it returns a key under the same condition as `Signer.GetKey`.
- Signer.GenerateWith: compares the labels as sequences of code points. Swift's `String ==` at SignerHelper.swift:120 compares under Unicode canonical equivalence, so two labels that differ only in normalisation (a precomposed "é" against "e" with a combining accent) are equal to the source, which generates nothing, but unequal here, where a generation request is sent. The same admission holds for the `publicLabel != privateLabel` precondition of Lifecycle.DeleteThenIsKeyExistGeneratesNewKey, Lifecycle.GetPrivateKeyAfterGeneration, Lifecycle.GeneratedKeyFoundAfterRestart, Lifecycle.AsWrittenSaveMissesAccessGroup and Lifecycle.AsWrittenRestartGeneratesAgain.
- Lifecycle.IsKeyExistGeneratesOnMiss: its label inequality is code-point inequality, as for `Signer.GenerateWith`, so it also admits labels that Swift would treat as equal.
- KeyStore.CopyMatching: a lookup of an item that is present never fails. The platform can refuse a read (a locked device, a denied access group), and `getKey` at SignerHelper.swift:39-42 then reports no key; the model has no refused reads, so `refused` covers writes and deletions only.
- Lifecycle.GeneratedKeyFoundAfterRestart: its "one lookup and no second generation" rests on the lookup of the stored key succeeding, as `KeyStore.CopyMatching` above. A refused read makes the source's `getPublicKey` (lines 174-178) generate again over the stored key.
- Lifecycle.AsWrittenSaveMissesAccessGroup: takes every configured group to differ from the app's default group, which is the address a query without a group reaches. The keychain model has no notion of which named group is the default; configured as that group, the source's group-less save is found and nothing is generated again.
- Lifecycle.AsWrittenRestartGeneratesAgain: takes the configured group to differ from the app's default group, as `Lifecycle.AsWrittenSaveMissesAccessGroup` does.
- Lifecycle.AsWrittenSaveMissesAccessGroupExample: takes "BBDV3R8HVV.no.agens.demo" not to be the app's default group, as `Lifecycle.AsWrittenSaveMissesAccessGroup` does.
- Signer.Sign: requires the private item to exist, because the source force-unwraps the looked-up key and would crash otherwise.

## Findings

| source | as written | input that shows it | evidently intended | confidence | as-written member | corrected member |
|---|---|---|---|---|---|---|
| signChecker/business/SignerHelper.swift:145-149 | the add query of `forceSavePublicKey` has no `kSecAttrAccessGroup`, so the public key goes to the default group | a Config with publicKeyAccessGroup "BBDV3R8HVV.no.agens.demo" (not the default group; the shipped demo passes none): after generation, `getPublicKeyQuery` misses the saved key, every new helper generates another pair, and `deleteKeyPair` leaves the saved key behind; in the model each regeneration replaces the private key at the private slot, so the pair generated before is lost (Lifecycle.GetPrivateKeyAfterGeneration admits such an old private item and states the new one is served) | save the key in `publicKeyAccessGroup`, where `getPublicKeyQuery` and `deletePublicKey` look | medium, not executed | Lifecycle.AsWrittenSaveMissesAccessGroup | Lifecycle.GeneratedKeyFoundAfterRestart |
