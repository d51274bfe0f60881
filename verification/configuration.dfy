/** The helper's immutable configuration and the storage token it names. */
module Configuration {
  import opened Wrappers

  /** Where the private key is to live. */
  datatype Token = SecureEnclave | Keychain

  /** A secure enclave is usable on a device with biometrics that is not a simulator. */
  predicate HasSecureEnclave(hasTouchID: bool, isSimulator: bool) {
    hasTouchID && !isSimulator
  }

  /**
   `Token.secureEnclaveIfAvailable`, with the two device probes as inputs:
   the enclave exactly when biometrics are available off the simulator.
   */
  function SecureEnclaveIfAvailable(hasTouchID: bool, isSimulator: bool): (t: Token)
    ensures t == SecureEnclave <==> hasTouchID && !isSimulator
    ensures isSimulator ==> t == Keychain
  {
    if HasSecureEnclave(hasTouchID, isSimulator) then SecureEnclave else Keychain
  }

  /** An access-control object created by the platform; opaque to the helper. */
  datatype AccessControl = AccessControl(handle: nat)

  datatype Config = Config(
    publicLabel: string,
    privateLabel: string,
    operationPrompt: Option<string>,
    publicKeyAccessGroup: Option<string>,
    privateKeyAccessGroup: Option<string>,
    privateKeyAccessControl: Option<AccessControl>,
    token: Token)
}
