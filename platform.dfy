/** Everything the firmware talks to and whose code is not part of this model:
    the two UARTs and the RNG of the HAL, wolfSSL's SHA-256, ECC and AES-GCM,
    and the ATECC608B secure element through cryptoauthlib. Each is an oracle
    that is fixed for a run; every interaction is logged in a ghost trace. */
module Platform {
  import opened Types

  /** One interaction of the firmware with the outside world. */
  datatype Event =
    | LinkTx(data: seq<byte>, ok: bool)                  // HAL_UART_Transmit on the peer link
    | LinkRx(len: nat, data: seq<byte>, ok: bool)        // HAL_UART_Receive on the peer link
    | Hash(data: seq<byte>, result: HashResult)          // wc_InitSha256, wc_Sha256Update, wc_Sha256Final
    | KeyImport(key: seq<byte>, ok: bool)                // wc_ecc_import_x963
    | CurveSet(ok: bool)                                 // wc_ecc_set_curve
    | SigVerify(key: seq<byte>, digest: seq<byte>, signature: seq<byte>, ret: int, res: int)  // wc_ecc_verify_hash
    | SeInit(status: Status)                             // atcab_init
    | SeGenKey(status: Status)                           // atcab_genkey
    | SeEcdh(peer: seq<byte>, secret: Secret, status: Status)          // atcab_ecdh
    | SeSign(digest: seq<byte>, produced: Signature, status: Status)  // atcab_sign
    | AesInit(ok: bool)                                  // wc_AesInit
    | AesSetKey(key: seq<byte>, ok: bool)                // wc_AesGcmSetKey
    | AesEncrypt(key: seq<byte>, iv: seq<byte>, plaintext: seq<byte>, ok: bool)  // wc_AesGcmEncrypt
    | ConsoleTx(data: seq<byte>)                         // HAL_UART_Transmit on the console
    | ConsoleRx(ch: byte, ok: bool)                      // HAL_UART_Receive on the console
    | Delay(ms: nat)                                     // HAL_Delay
    | Halt                                               // Error_Handler: interrupts off, spin forever
  {
    /** Whether the interaction reported success to the firmware. */
    predicate Ok()
    {
      match this
      case LinkTx(_, ok) => ok
      case LinkRx(_, _, ok) => ok
      case Hash(_, r) => r.Hashed?
      case KeyImport(_, ok) => ok
      case CurveSet(ok) => ok
      case SigVerify(_, _, _, ret, res) => ret == 0 && res == 1
      case SeInit(st) => st == Success
      case SeGenKey(st) => st == Success
      case SeEcdh(_, _, st) => st == Success
      case SeSign(_, _, st) => st == Success
      case AesInit(ok) => ok
      case AesSetKey(_, ok) => ok
      case AesEncrypt(_, _, _, ok) => ok
      case ConsoleTx(_) => true
      case ConsoleRx(_, ok) => ok
      case Delay(_) => true
      case Halt => false
    }
  }

  /** The outputs an interaction logged are what the oracles `env` answer for
      its inputs: a received frame has the length asked for, a digest is the
      SHA-256 of the hashed data, `verify_res` is 1 exactly when the call ran
      and the signature checks for that key and digest, an ECDH secret is the
      one the device key shares with the given peer key, and a signature is
      one the secure element produces for the given digest. */
  ghost predicate Answered(e: Event, env: Oracles)
  {
    match e
    case LinkRx(len, data, ok) => ok ==> |data| == len
    case Hash(data, r) => r.Hashed? ==> r.digest == env.sha256(data)
    case SigVerify(key, digest, signature, ret, res) =>
      res == (if ret == 0 && env.ecdsaValid(key, digest, signature) then 1 else 0)
    case SeEcdh(peer, secret, _) => secret == env.ecdh(peer)
    case SeSign(digest, produced, _) => exists k :: produced == env.ecdsaSign(k, digest)
    case _ => true
  }

  /** Every interaction of `t` logged the oracles' answers. */
  ghost predicate Logged(t: seq<Event>, env: Oracles)
  {
    forall i {:trigger Answered(t[i], env)} :: 0 <= i < |t| ==> Answered(t[i], env)
  }

  lemma LoggedJoin(a: seq<Event>, b: seq<Event>, env: Oracles)
    requires Logged(a, env) && Logged(b, env)
    ensures Logged(a + b, env)
  {
    forall i | |a| <= i < |a + b|
      ensures Answered((a + b)[i], env)
    {
      assert (a + b)[i] == b[i - |a|];
    }
  }

  /** The oracles of one run. `fault(k)` says whether the k-th checked call
      (counted over all collaborators) reports failure; a failing secure-element
      command reports `seError(k)`. Bytes arriving on the link and the console
      and the RNG's words are streams. The cryptographic functions are
      uninterpreted apart from their output lengths. */
  datatype Oracles = Oracles(
    fault: nat -> bool,
    seError: nat -> ErrorStatus,
    rng: nat -> word,
    linkIn: nat -> byte,
    consoleIn: nat -> byte,
    sha256: seq<byte> -> Digest,             // SHA-256 (FIPS 180-4, section 6.2)
    ownPublicKey: PubKey,                    // public half of the key genkey creates in slot 0
    ecdh: seq<byte> -> Secret,               // ECDH of the slot-0 private key with a peer key
    ecdsaSign: (nat, seq<byte>) -> Signature,  // ECDSA signature of a digest by call index (randomised)
    ecdsaValid: (seq<byte>, seq<byte>, seq<byte>) -> bool,  // key, digest, signature: signature checks
    gcmByte: (seq<byte>, seq<byte>, nat, byte) -> byte,     // key, iv, position, plaintext byte
    gcmTag: (seq<byte>, seq<byte>, seq<byte>) -> Tag        // key, iv, ciphertext
  )

  /** AES-GCM ciphertext under the oracles `env`: byte `i` depends on the key,
      the IV, `i` and plaintext byte `i` (counter mode, NIST SP 800-38D
      section 7.1). */
  function GcmCipher(env: Oracles, key: seq<byte>, iv: seq<byte>, pt: seq<byte>): (ct: seq<byte>)
    ensures |ct| == |pt|
  {
    seq(|pt|, i requires 0 <= i < |pt| => env.gcmByte(key, iv, i, pt[i]))
  }

  /** The AES-GCM tag over the ciphertext of `pt`. */
  function GcmTag(env: Oracles, key: seq<byte>, iv: seq<byte>, pt: seq<byte>): Tag
  {
    env.gcmTag(key, iv, GcmCipher(env, key, iv, pt))
  }

  class Board {
    const env: Oracles
    /** Number of checked calls made so far; indexes `env.fault`. */
    var calls: nat
    /** Number of RNG words drawn so far. */
    var rngDrawn: nat
    /** Read positions in the link and console input streams. */
    var linkPos: nat
    var consolePos: nat
    ghost var trace: seq<Event>

    constructor (env: Oracles)
      ensures this.env == env
      ensures calls == 0 && rngDrawn == 0 && linkPos == 0 && consolePos == 0 && trace == []
    {
      this.env := env;
      calls, rngDrawn, linkPos, consolePos := 0, 0, 0, 0;
      trace := [];
    }

    /** The `len` link bytes starting at stream position `pos`. */
    function Incoming(pos: nat, len: nat): (r: seq<byte>)
      ensures |r| == len && forall i :: 0 <= i < len ==> r[i] == env.linkIn(pos + i)
    {
      seq(len, i requires 0 <= i < len => env.linkIn(pos + i))
    }

    /** Status of a secure-element command issued as checked call `k`. */
    function SeStatus(k: nat): (st: Status)
      ensures st == Success <==> !env.fault(k)
    {
      if env.fault(k) then env.seError(k) else Success
    }

    /** Result of the SHA-256 init/update/final sequence starting at call `k`:
        the first of the three calls that fails decides the result. */
    function HashAt(k: nat, data: seq<byte>): (r: HashResult)
      ensures r.Hashed? <==> !env.fault(k) && !env.fault(k + 1) && !env.fault(k + 2)
      ensures r.Hashed? ==> r.digest == env.sha256(data)
    {
      if env.fault(k) then InitFailed
      else if env.fault(k + 1) then UpdateFailed
      else if env.fault(k + 2) then FinalFailed
      else Hashed(env.sha256(data))
    }

    /** How many of the three hash calls ran before the sequence stopped. */
    function HashCalls(r: HashResult): (n: nat)
      ensures 1 <= n <= 3
    {
      match r
      case InitFailed => 1
      case UpdateFailed => 2
      case _ => 3
    }

    method LinkSend(data: seq<byte>) returns (ok: bool)
      modifies this`calls, this`trace
      ensures ok == !env.fault(old(calls)) && calls == old(calls) + 1
      ensures trace == old(trace) + [LinkTx(data, ok)]
    {
      ok := !env.fault(calls);
      calls := calls + 1;
      trace := trace + [LinkTx(data, ok)];
    }

    /** Blocking receive of exactly `len` bytes into `buf[0..len)`. A timeout
        writes nothing and consumes nothing. */
    method LinkReceive(buf: array<byte>, len: nat) returns (ok: bool)
      requires len <= buf.Length
      modifies buf, this`calls, this`linkPos, this`trace
      ensures ok == !env.fault(old(calls)) && calls == old(calls) + 1
      ensures ok ==> buf[..len] == Incoming(old(linkPos), len) && linkPos == old(linkPos) + len
      ensures ok ==> buf[len..] == old(buf[len..])
      ensures !ok ==> buf[..] == old(buf[..]) && linkPos == old(linkPos)
      ensures trace == old(trace) + [LinkRx(len, if ok then buf[..len] else [], ok)]
    {
      ok := !env.fault(calls);
      calls := calls + 1;
      if ok {
        var i := 0;
        while i < len
          modifies buf
          invariant 0 <= i <= len
          invariant forall j :: 0 <= j < i ==> buf[j] == env.linkIn(linkPos + j)
          invariant forall j :: i <= j < buf.Length ==> buf[j] == old(buf[j])
        {
          buf[i] := env.linkIn(linkPos + i);
          i := i + 1;
        }
        assert buf[..len] == Incoming(linkPos, len);
        linkPos := linkPos + len;
      }
      trace := trace + [LinkRx(len, if ok then buf[..len] else [], ok)];
    }

    /** HAL_RNG_GenerateRandomNumber; its status is never checked by the firmware. */
    method RandomWord() returns (w: word)
      modifies this`rngDrawn
      ensures w == env.rng(old(rngDrawn)) && rngDrawn == old(rngDrawn) + 1
    {
      w := env.rng(rngDrawn);
      rngDrawn := rngDrawn + 1;
    }

    method Sha256(data: seq<byte>) returns (r: HashResult)
      modifies this`calls, this`trace
      ensures r == HashAt(old(calls), data) && calls == old(calls) + HashCalls(r)
      ensures trace == old(trace) + [Hash(data, r)]
    {
      r := HashAt(calls, data);
      calls := calls + HashCalls(r);
      trace := trace + [Hash(data, r)];
    }

    method EccImportX963(key: seq<byte>) returns (ok: bool)
      modifies this`calls, this`trace
      ensures ok == !env.fault(old(calls)) && calls == old(calls) + 1
      ensures trace == old(trace) + [KeyImport(key, ok)]
    {
      ok := !env.fault(calls);
      calls := calls + 1;
      trace := trace + [KeyImport(key, ok)];
    }

    method EccSetCurve() returns (ok: bool)
      modifies this`calls, this`trace
      ensures ok == !env.fault(old(calls)) && calls == old(calls) + 1
      ensures trace == old(trace) + [CurveSet(ok)]
    {
      ok := !env.fault(calls);
      calls := calls + 1;
      trace := trace + [CurveSet(ok)];
    }

    /** wc_ecc_verify_hash: `ret` is 0 unless the call fails (a negative wolfSSL
        code, written -1), and `res` is 1 exactly when the call ran and the
        signature checks. */
    method EccVerifyHash(key: seq<byte>, digest: seq<byte>, signature: seq<byte>) returns (ret: int, res: int)
      modifies this`calls, this`trace
      ensures ret == (if env.fault(old(calls)) then -1 else 0) && calls == old(calls) + 1
      ensures res == (if ret == 0 && env.ecdsaValid(key, digest, signature) then 1 else 0)
      ensures trace == old(trace) + [SigVerify(key, digest, signature, ret, res)]
    {
      ret := if env.fault(calls) then -1 else 0;
      res := if ret == 0 && env.ecdsaValid(key, digest, signature) then 1 else 0;
      calls := calls + 1;
      trace := trace + [SigVerify(key, digest, signature, ret, res)];
    }

    method SeInitialize() returns (st: Status)
      modifies this`calls, this`trace
      ensures st == SeStatus(old(calls)) && calls == old(calls) + 1
      ensures trace == old(trace) + [SeInit(st)]
    {
      st := SeStatus(calls);
      calls := calls + 1;
      trace := trace + [SeInit(st)];
    }

    /** atcab_genkey: on success the slot's public key is written to `buf`. */
    method SeGenerateKey(buf: array<byte>) returns (st: Status)
      requires buf.Length == PubKeySize
      modifies buf, this`calls, this`trace
      ensures st == SeStatus(old(calls)) && calls == old(calls) + 1
      ensures buf[..] == if st == Success then env.ownPublicKey else old(buf[..])
      ensures trace == old(trace) + [SeGenKey(st)]
    {
      st := SeStatus(calls);
      calls := calls + 1;
      if st == Success {
        forall i | 0 <= i < PubKeySize {
          buf[i] := env.ownPublicKey[i];
        }
      }
      trace := trace + [SeGenKey(st)];
    }

    method Ecdh(peer: seq<byte>) returns (st: Status, secret: Secret)
      modifies this`calls, this`trace
      ensures st == SeStatus(old(calls)) && calls == old(calls) + 1
      ensures secret == env.ecdh(peer)
      ensures trace == old(trace) + [SeEcdh(peer, secret, st)]
    {
      st := SeStatus(calls);
      calls := calls + 1;
      secret := env.ecdh(peer);
      trace := trace + [SeEcdh(peer, secret, st)];
    }

    method Sign(digest: seq<byte>) returns (st: Status, signature: Signature)
      modifies this`calls, this`trace
      ensures st == SeStatus(old(calls)) && calls == old(calls) + 1
      ensures signature == env.ecdsaSign(old(calls), digest)
      ensures trace == old(trace) + [SeSign(digest, signature, st)]
    {
      st := SeStatus(calls);
      signature := env.ecdsaSign(calls, digest);
      calls := calls + 1;
      trace := trace + [SeSign(digest, signature, st)];
    }

    method AesInitialize() returns (ok: bool)
      modifies this`calls, this`trace
      ensures ok == !env.fault(old(calls)) && calls == old(calls) + 1
      ensures trace == old(trace) + [AesInit(ok)]
    {
      ok := !env.fault(calls);
      calls := calls + 1;
      trace := trace + [AesInit(ok)];
    }

    method AesGcmSetKey(key: seq<byte>) returns (ok: bool)
      modifies this`calls, this`trace
      ensures ok == !env.fault(old(calls)) && calls == old(calls) + 1
      ensures trace == old(trace) + [AesSetKey(key, ok)]
    {
      ok := !env.fault(calls);
      calls := calls + 1;
      trace := trace + [AesSetKey(key, ok)];
    }

    /** wc_AesGcmEncrypt with no associated data; `ret` is 0 on success and a
        negative wolfSSL code (written -1) on failure. */
    method AesGcmEncrypt(key: seq<byte>, iv: seq<byte>, pt: seq<byte>) returns (ret: int, ct: seq<byte>, tag: Tag)
      modifies this`calls, this`trace
      ensures ret == (if env.fault(old(calls)) then -1 else 0) && calls == old(calls) + 1
      ensures ct == GcmCipher(env, key, iv, pt) && tag == env.gcmTag(key, iv, ct)
      ensures trace == old(trace) + [AesEncrypt(key, iv, pt, ret == 0)]
    {
      ret := if env.fault(calls) then -1 else 0;
      calls := calls + 1;
      ct := GcmCipher(env, key, iv, pt);
      tag := env.gcmTag(key, iv, ct);
      trace := trace + [AesEncrypt(key, iv, pt, ret == 0)];
    }

    /** HAL_UART_Transmit on the console; its status is never checked. */
    method ConsoleSend(data: seq<byte>)
      modifies this`trace
      ensures trace == old(trace) + [ConsoleTx(data)]
    {
      trace := trace + [ConsoleTx(data)];
    }

    /** HAL_UART_Receive of one console byte without a timeout. */
    method ConsoleReceive() returns (ok: bool, ch: byte)
      modifies this`calls, this`consolePos, this`trace
      ensures ok == !env.fault(old(calls)) && calls == old(calls) + 1
      ensures ok ==> ch == env.consoleIn(old(consolePos)) && consolePos == old(consolePos) + 1
      ensures !ok ==> ch == 0 && consolePos == old(consolePos)
      ensures trace == old(trace) + [ConsoleRx(ch, ok)]
    {
      ok := !env.fault(calls);
      calls := calls + 1;
      if ok {
        ch := env.consoleIn(consolePos);
        consolePos := consolePos + 1;
      } else {
        ch := 0;
      }
      trace := trace + [ConsoleRx(ch, ok)];
    }

    method DelayMs(ms: nat)
      modifies this`trace
      ensures trace == old(trace) + [Delay(ms)]
    {
      trace := trace + [Delay(ms)];
    }

    /** Error_Handler: the firmware stops here for good. */
    method ErrorHandler()
      modifies this`trace
      ensures trace == old(trace) + [Halt]
    {
      trace := trace + [Halt];
    }
  }
}
