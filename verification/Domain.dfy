/** Values shared by every component: keys, request ids, identity records and results.

    Public keys, secrets and request ids are opaque in this model. Only equality is ever used on
    secrets, and only equality and byte order on public keys and request ids, so each is a number
    (bytes read as a big-endian number have the order of the bytes).
*/
module Domain {

  datatype Option<+T> = None | Some(value: T)

  datatype Result<+T> = Ok(value: T) | Err(error: Problem)

  /** The error families that the modelled code distinguishes. */
  datatype Problem =
    | InvalidApplicationState
    | IdentityNotFound
    | IdentityAlreadyExists
    | CredentialMissingError
    | RecoveryRequired
    | InvalidProfileMetadata
    | ProfileRefreshFailed
    | Unavailable
    | OtherProblem(code: nat)

  type PublicKey = nat
  type RequestId = nat
  type Secret = nat

  const MAX_U64: nat := 0xFFFF_FFFF_FFFF_FFFF
  const MAX_I64: nat := 0x7FFF_FFFF_FFFF_FFFF

  datatype Availability = Available | CredentialMissing | StoreUnavailable

  /** One saved public identity record. */
  datatype Identity = Identity(
    key: PublicKey,
    availability: Availability,
    displayLabel: Option<string>,
    createdAt: nat,
    lastUsedAt: Option<nat>)
}
