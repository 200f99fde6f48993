/** Values shared by the firmware model: bytes, RNG words, buffer sizes and the
    status codes that the protocol functions of PROJECT.c return. */
module Types {

  /** An octet (`uint8_t`). */
  newtype byte = x: int | 0 <= x < 256

  /** A 32-bit word as produced by the hardware RNG (`uint32_t`). */
  newtype word = x: int | 0 <= x < 0x1_0000_0000

  // Buffer sizes (PROJECT.c:18-24) and the retry budget (PROJECT.c:25).
  const PubKeySize: nat := 64
  const AesKeySize: nat := 16
  const AesIvSize: nat := 12
  const AesTagSize: nat := 16
  const SignatureSize: nat := 64
  const RxBufferSize: nat := 128
  const ChallengeSize: nat := 32
  const DigestSize: nat := 32
  const SecretSize: nat := 32
  const MaxRetries: nat := 3
  /** Back-off between two handshake attempts, in milliseconds. */
  const RetryDelayMs: nat := 1000

  const CR: byte := 13
  const LF: byte := 10

  function Zeros(n: nat): (s: seq<byte>)
    ensures |s| == n && forall i :: 0 <= i < n ==> s[i] == 0
  {
    seq(n, _ => 0)
  }

  type Digest = s: seq<byte> | |s| == DigestSize witness Zeros(32)
  type Secret = s: seq<byte> | |s| == SecretSize witness Zeros(32)
  type Signature = s: seq<byte> | |s| == SignatureSize witness Zeros(64)
  type PubKey = s: seq<byte> | |s| == PubKeySize witness Zeros(64)
  type Tag = s: seq<byte> | |s| == AesTagSize witness Zeros(16)

  /** The cryptoauthlib status codes the protocol code produces or passes on.
      `DeviceError` stands for any other failure code the secure element reports. */
  datatype Status = Success | FuncFail | GenFail | RxFail | TxFail | DeviceError(code: int)

  /** A status a failing secure-element command reports. */
  type ErrorStatus = s: Status | s != Success witness GenFail

  /** Outcome of the three-call SHA-256 sequence (init, update, final). */
  datatype HashResult = Hashed(digest: Digest) | InitFailed | UpdateFailed | FinalFailed
}
