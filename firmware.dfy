/** The protocol logic of PROJECT.c. The global buffers (PROJECT.c:33-39)
    are the arrays of a `Session`; the peripherals and libraries are its
    `board`. */
module Firmware {
  import opened Types
  import opened Platform
  import opened Random
  import opened Console
  import opened Protocol
  import opened Messaging
  import opened Retry
  import opened Rounds

  class Session {
    const board: Board
    const devicePubkey: array<byte>
    const peerPubkey: array<byte>
    const aesKey: array<byte>
    const rxBuffer: array<byte>
    const iv: array<byte>
    const challenge: array<byte>
    const peerChallenge: array<byte>

    /** The buffers have their declared sizes and are seven distinct arrays. */
    ghost predicate Valid()
    {
      devicePubkey.Length == PubKeySize && peerPubkey.Length == PubKeySize &&
      aesKey.Length == AesKeySize && rxBuffer.Length == RxBufferSize &&
      iv.Length == AesIvSize && challenge.Length == ChallengeSize &&
      peerChallenge.Length == ChallengeSize &&
      devicePubkey != peerPubkey && devicePubkey != aesKey && devicePubkey != rxBuffer &&
      devicePubkey != iv && devicePubkey != challenge && devicePubkey != peerChallenge &&
      peerPubkey != aesKey && peerPubkey != rxBuffer && peerPubkey != iv &&
      peerPubkey != challenge && peerPubkey != peerChallenge &&
      aesKey != rxBuffer && aesKey != iv && aesKey != challenge && aesKey != peerChallenge &&
      rxBuffer != iv && rxBuffer != challenge && rxBuffer != peerChallenge &&
      iv != challenge && iv != peerChallenge &&
      challenge != peerChallenge
    }

    /** The buffers are zero, as C zero-initialises globals. */
    constructor (board: Board)
      ensures Valid() && this.board == board
      ensures fresh(devicePubkey) && fresh(peerPubkey) && fresh(aesKey) && fresh(rxBuffer)
      ensures fresh(iv) && fresh(challenge) && fresh(peerChallenge)
      ensures devicePubkey[..] == Zeros(PubKeySize) && peerPubkey[..] == Zeros(PubKeySize)
      ensures aesKey[..] == Zeros(AesKeySize) && rxBuffer[..] == Zeros(RxBufferSize)
      ensures iv[..] == Zeros(AesIvSize) && challenge[..] == Zeros(ChallengeSize)
      ensures peerChallenge[..] == Zeros(ChallengeSize)
    {
      this.board := board;
      devicePubkey := new byte[PubKeySize](_ => 0);
      peerPubkey := new byte[PubKeySize](_ => 0);
      aesKey := new byte[AesKeySize](_ => 0);
      rxBuffer := new byte[RxBufferSize](_ => 0);
      iv := new byte[AesIvSize](_ => 0);
      challenge := new byte[ChallengeSize](_ => 0);
      peerChallenge := new byte[ChallengeSize](_ => 0);
    }

    /** generate_and_store_keypair (PROJECT.c:61-63): the element creates the
        device key pair in slot 0 and writes its public half to `device_pubkey`. */
    method GenerateAndStoreKeypair() returns (st: Status)
      requires Valid()
      modifies devicePubkey, board`calls, board`trace
      ensures st == board.SeStatus(old(board.calls)) && board.calls == old(board.calls) + 1
      ensures board.trace == old(board.trace) + [SeGenKey(st)]
      ensures devicePubkey[..] == if st == Success then board.env.ownPublicKey else old(devicePubkey[..])
    {
      st := board.SeGenerateKey(devicePubkey);
    }

    /** The start of `main` after the peripherals (PROJECT.c:226-231): open the
        secure element, then create the device key; `Error_Handler` stops the
        firmware when either fails. */
    method Boot() returns (halted: bool, ghost t: seq<Event>)
      requires Valid()
      modifies devicePubkey, board`calls, board`trace
      ensures board.trace == old(board.trace) + t
      ensures BootRun(t, halted) && t[0] == SeInit(board.SeStatus(old(board.calls)))
      ensures |t| > 1 && t[1].SeGenKey? ==> t[1] == SeGenKey(board.SeStatus(old(board.calls) + 1))
      ensures !halted <==> board.SeStatus(old(board.calls)) == Success && board.SeStatus(old(board.calls) + 1) == Success
      ensures devicePubkey[..] == if halted then old(devicePubkey[..]) else board.env.ownPublicKey
    {
      var st := board.SeInitialize();
      if st != Success {
        board.ErrorHandler();
        return true, [SeInit(st), Halt];
      }
      st := GenerateAndStoreKeypair();
      halted := st != Success;
      if halted {
        board.ErrorHandler();
      }
      t := [SeInit(Success), SeGenKey(st)] + (if halted then [Halt] else []);
    }

    /** generate_random (PROJECT.c:96-102): draws one RNG word per started
        chunk of four bytes and copies it, or its first `len - i` bytes for
        the last chunk, to `buf[i..]`. */
    method GenerateRandom(buf: array<byte>, len: nat)
      requires len <= buf.Length
      modifies buf, board`rngDrawn
      ensures board.rngDrawn == old(board.rngDrawn) + WordsFor(len)
      ensures buf[..len] == RandomBytes(board.env.rng, old(board.rngDrawn), len)
      ensures buf[len..] == old(buf[len..])
    {
      ghost var first := board.rngDrawn;
      var i := 0;
      ghost var m := 0;
      while i < len
        invariant i == 4 * m && i < len + 4
        invariant board.rngDrawn == first + m
        invariant forall j :: 0 <= j < i && j < len ==> buf[j] == ByteOf(board.env.rng(first + j / 4), j % 4)
        invariant forall j :: len <= j < buf.Length ==> buf[j] == old(buf[j])
      {
        var rnd := board.RandomWord();
        CopyWord(buf, i, rnd, if len - i >= 4 then 4 else len - i);
        forall j | i <= j < len && j < i + 4
          ensures buf[j] == ByteOf(board.env.rng(first + j / 4), j % 4)
        {
          InChunk(m, j - i);
        }
        i, m := i + 4, m + 1;
      }
      assert m == WordsFor(len);
      assert buf[..len] == RandomBytes(board.env.rng, first, len);
    }

    /** The `memcpy` of PROJECT.c:100: the first `n` bytes of `w` in memory
        order go to `buf[at..at + n)`. */
    method CopyWord(buf: array<byte>, at: nat, w: word, n: nat)
      requires n <= 4 && at + n <= buf.Length
      modifies buf
      ensures forall j :: at <= j < at + n ==> buf[j] == ByteOf(w, j - at)
      ensures forall j :: 0 <= j < buf.Length && !(at <= j < at + n) ==> buf[j] == old(buf[j])
    {
      forall k | 0 <= k < n {
        buf[at + k] := ByteOf(w, k);
      }
    }

    /** send_data (PROJECT.c:69-71). */
    method SendData(data: seq<byte>) returns (st: Status)
      modifies board`calls, board`trace
      ensures st == Success || st == TxFail
      ensures st == Success <==> !board.env.fault(old(board.calls))
      ensures board.calls == old(board.calls) + 1
      ensures board.trace == old(board.trace) + [LinkTx(data, st == Success)]
    {
      var ok := board.LinkSend(data);
      st := if ok then Success else TxFail;
    }

    /** receive_data (PROJECT.c:65-67). */
    method ReceiveData(buf: array<byte>, len: nat) returns (st: Status)
      requires len <= buf.Length
      modifies buf, board`calls, board`linkPos, board`trace
      ensures st == Success || st == RxFail
      ensures st == Success <==> !board.env.fault(old(board.calls))
      ensures board.calls == old(board.calls) + 1
      ensures board.linkPos == old(board.linkPos) + (if st == Success then len else 0)
      ensures st == Success ==> buf[..len] == board.Incoming(old(board.linkPos), len) && buf[len..] == old(buf[len..])
      ensures st != Success ==> buf[..] == old(buf[..])
      ensures board.trace == old(board.trace) + [LinkRx(len, if st == Success then buf[..len] else [], st == Success)]
    {
      var ok := board.LinkReceive(buf, len);
      st := if ok then Success else RxFail;
    }

    /** derive_shared_secret (PROJECT.c:73-94): ECDH with the peer key, then
        SHA-256 of the 32-byte secret; only when every call succeeded are the
        first 16 digest bytes copied to `aes_key`. A failed ECDH returns the
        element's status, a failed hash GEN_FAIL. */
    method DeriveSharedSecret() returns (st: Status, ghost t: seq<Event>)
      requires Valid()
      modifies aesKey, board`calls, board`trace
      ensures board.trace == old(board.trace) + t
      ensures Outcome(t, st, 12, 2) && DerivationData(t, peerPubkey[..]) && Logged(t, board.env)
      ensures t[0].SeEcdh? && t[0].secret == board.env.ecdh(peerPubkey[..])
      ensures st == Success ==> aesKey[..] == board.env.sha256(board.env.ecdh(peerPubkey[..]))[..AesKeySize]
      ensures st != Success ==> aesKey[..] == old(aesKey[..])
    {
      var peerKey := peerPubkey[..];
      var status, secret := board.Ecdh(peerKey);
      t := [SeEcdh(peerKey, secret, status)];
      if status != Success {
        return status, t;
      }
      var h := board.Sha256(secret);
      t := t + [Hash(secret, h)];
      if !h.Hashed? {
        return GenFail, t;
      }
      forall i | 0 <= i < AesKeySize {
        aesKey[i] := h.digest[i];
      }
      st := Success;
    }

    /** sign_message (PROJECT.c:118-133): SHA-256 of the message, then the
        secure element signs the digest; a hash failure gives GEN_FAIL, a
        signing failure the element's status. */
    method SignMessage(msg: seq<byte>) returns (st: Status, signature: Signature, ghost t: seq<Event>)
      modifies board`calls, board`trace
      ensures board.trace == old(board.trace) + t
      ensures 1 <= |t| <= 2 && t[0].Hash? && t[0].data == msg
      ensures t[0].result == board.HashAt(old(board.calls), msg)
      ensures |t| == 2 <==> t[0].Ok()
      ensures |t| == 2 ==> t[1].SeSign? && t[1].digest == t[0].result.digest && t[1].produced == signature
      ensures st == Success <==> |t| == 2 && t[1].Ok()
      ensures !t[0].Ok() ==> st == GenFail
      ensures |t| == 2 ==> st == t[1].status
      ensures st == Success ==> signature == board.env.ecdsaSign(old(board.calls) + 3, board.env.sha256(msg))
      ensures Logged(t, board.env)
    {
      var h := board.Sha256(msg);
      t := [Hash(msg, h)];
      if !h.Hashed? {
        return GenFail, Zeros(SignatureSize), t;
      }
      st, signature := board.Sign(h.digest);
      t := t + [SeSign(h.digest, signature, st)];
    }

    /** verify_peer_public_key (PROJECT.c:135-167): receive the peer's
        64-byte signature, hash OUR challenge, import the peer key and set its
        curve, and verify. Success needs `ret == 0 && verify_res == 1`. */
    method VerifyPeerPublicKey() returns (st: Status, ghost t: seq<Event>)
      requires Valid()
      modifies board`calls, board`linkPos, board`trace
      ensures board.trace == old(board.trace) + t
      ensures Segment(t, 3, 5) && VerifyData(t, challenge[..], peerPubkey[..]) && Logged(t, board.env)
      ensures st == Success <==> Completed(t, 5)
      ensures st != Success ==> !t[|t| - 1].Ok()
      ensures |t| == 1 && st != Success ==> st == RxFail
      ensures |t| == 2 && st != Success ==> st == GenFail
      ensures |t| > 2 && st != Success ==> st == FuncFail
    {
      var peerSignature := new byte[SignatureSize];
      var rx := ReceiveData(peerSignature, SignatureSize);
      var received := peerSignature[..];
      assert peerSignature[..SignatureSize] == received;
      ghost var e0 := LinkRx(SignatureSize, if rx == Success then received else [], rx == Success);
      ghost var rest := [];
      if rx != Success {
        st := RxFail;
      } else {
        st, rest := CheckPeerSignature(received);
      }
      VerifySteps(e0, rest, st, challenge[..], peerPubkey[..]);
      t := [e0] + rest;
    }

    /** The checks of `verify_peer_public_key` once the peer's signature has
        arrived (PROJECT.c:139-164): hash our challenge, import the peer key,
        set the curve and verify the signature over the hash. */
    method CheckPeerSignature(signature: seq<byte>) returns (st: Status, ghost t: seq<Event>)
      requires Valid()
      modifies board`calls, board`trace
      ensures board.trace == old(board.trace) + t
      ensures SignatureCheck(t, st, challenge[..], peerPubkey[..], signature) && Logged(t, board.env)
    {
      var h := board.Sha256(challenge[..]);
      ghost var e0 := Hash(challenge[..], h);
      t := [e0];
      if !h.Hashed? {
        return GenFail, t;
      }
      var imported := board.EccImportX963(peerPubkey[..]);
      ghost var e1 := KeyImport(peerPubkey[..], imported);
      t := [e0, e1];
      if !imported {
        return FuncFail, t;
      }
      var curveSet := board.EccSetCurve();
      t := [e0, e1, CurveSet(curveSet)];
      if !curveSet {
        return FuncFail, t;
      }
      var ret, res := board.EccVerifyHash(peerPubkey[..], h.digest, signature);
      t := [e0, e1, CurveSet(curveSet), SigVerify(peerPubkey[..], h.digest, signature, ret, res)];
      st := if ret == 0 && res == 1 then Success else FuncFail;
    }

    /** PROJECT.c:170-180, the opening of `perform_key_exchange`: send our
        key, receive the peer's into `peer_pubkey`, fill `challenge` from the
        RNG and send it. */
    method OpenExchange() returns (st: Status, ghost t: seq<Event>)
      requires Valid()
      modifies peerPubkey, challenge, board`calls, board`linkPos, board`rngDrawn, board`trace
      ensures board.trace == old(board.trace) + t
      ensures Outcome(t, st, 0, 3) && OpeningData(t, devicePubkey[..], challenge[..], peerPubkey[..])
      ensures Logged(t, board.env)
      ensures |t| > 2 ==> challenge[..] == RandomBytes(board.env.rng, old(board.rngDrawn), ChallengeSize)
      ensures |t| <= 2 ==> challenge[..] == old(challenge[..])
      ensures board.rngDrawn == old(board.rngDrawn) + (if |t| > 2 then WordsFor(ChallengeSize) else 0)
      ensures !(|t| > 1 && t[1].Ok()) ==> peerPubkey[..] == old(peerPubkey[..])
      ensures peerChallenge[..] == old(peerChallenge[..]) && aesKey[..] == old(aesKey[..])
    {
      var sent := SendData(devicePubkey[..]);
      ghost var e0 := LinkTx(devicePubkey[..], sent == Success);
      t := [e0];
      if sent != Success {
        return TxFail, t;
      }
      var got := ReceiveData(peerPubkey, PubKeySize);
      assert peerPubkey[..PubKeySize] == peerPubkey[..];
      ghost var e1 := LinkRx(PubKeySize, if got == Success then peerPubkey[..] else [], got == Success);
      t := [e0, e1];
      if got != Success {
        return RxFail, t;
      }
      GenerateRandom(challenge, ChallengeSize);
      assert challenge[..ChallengeSize] == challenge[..];
      sent := SendData(challenge[..]);
      t := [e0, e1, LinkTx(challenge[..], sent == Success)];
      st := if sent == Success then Success else TxFail;
    }

    /** PROJECT.c:185-194, the answer to the peer's challenge: receive it into
        `peer_challenge`, sign it and send the signature. */
    method AnswerChallenge() returns (st: Status, ghost t: seq<Event>)
      requires Valid()
      modifies peerChallenge, board`calls, board`linkPos, board`trace
      ensures board.trace == old(board.trace) + t
      ensures Outcome(t, st, 8, 4) && ResponseData(t, peerChallenge[..]) && Logged(t, board.env)
      ensures !t[0].Ok() ==> peerChallenge[..] == old(peerChallenge[..])
    {
      ghost var e0;
      var got;
      got, e0 := ReceiveChallenge();
      var received := peerChallenge[..];
      ghost var rest := [];
      if got != Success {
        st := RxFail;
      } else {
        st, rest := SignAndReply(received);
      }
      assert peerChallenge[..] == received;
      ResponseSteps(e0, rest, st, received);
      t := [e0] + rest;
      assert t[0] == e0;
    }

    /** PROJECT.c:185-186: receive the peer's challenge into `peer_challenge`. */
    method ReceiveChallenge() returns (got: Status, ghost e: Event)
      requires Valid()
      modifies peerChallenge, board`calls, board`linkPos, board`trace
      ensures board.trace == old(board.trace) + [e]
      ensures e.LinkRx? && e.len == ChallengeSize && e.ok == (got == Success)
      ensures e.ok ==> e.data == peerChallenge[..]
      ensures !e.ok ==> peerChallenge[..] == old(peerChallenge[..])
    {
      got := ReceiveData(peerChallenge, ChallengeSize);
      assert peerChallenge[..ChallengeSize] == peerChallenge[..];
      e := LinkRx(ChallengeSize, if got == Success then peerChallenge[..] else [], got == Success);
    }

    /** PROJECT.c:188-193: sign the peer's challenge `msg` and send the signature. */
    method SignAndReply(msg: seq<byte>) returns (st: Status, ghost t: seq<Event>)
      modifies board`calls, board`trace
      ensures board.trace == old(board.trace) + t
      ensures SignedReply(t, st, msg) && Logged(t, board.env)
    {
      ghost var ts;
      var signed, signature;
      signed, signature, ts := SignMessage(msg);
      if signed != Success {
        return GenFail, ts;
      }
      var sent := SendData(signature);
      t := ts + [LinkTx(signature, sent == Success)];
      st := if sent == Success then Success else TxFail;
    }

    /** PROJECT.c:185-196: answer the peer's challenge, then derive the session key. */
    method AnswerAndDerive() returns (st: Status, ghost t: seq<Event>)
      requires Valid()
      modifies peerChallenge, aesKey, board`calls, board`linkPos, board`trace
      ensures board.trace == old(board.trace) + t
      ensures Outcome(t, st, 8, 6) && ClosingData(t, peerPubkey[..], peerChallenge[..]) && Logged(t, board.env)
      ensures !t[0].Ok() ==> peerChallenge[..] == old(peerChallenge[..])
      ensures st == Success ==> aesKey[..] == board.env.sha256(board.env.ecdh(peerPubkey[..]))[..AesKeySize]
      ensures st != Success ==> aesKey[..] == old(aesKey[..])
    {
      ghost var c, d;
      ghost var pk := peerPubkey[..];
      st, c := AnswerChallenge();
      t := c;
      ghost var pc := peerChallenge[..];
      if st != Success {
        StopInResponse(c, st, pk, pc);
        return st, t;
      }
      st, d := DeriveSharedSecret();
      ResponseThenDerive(c, d, st, pk, pc);
      LoggedJoin(c, d, board.env);
      t := c + d;
    }

    /** PROJECT.c:181-196: verify the peer, then answer its challenge and
        derive the session key. Any failure of the verification gives FUNC_FAIL. */
    method FinishExchange() returns (st: Status, ghost t: seq<Event>)
      requires Valid()
      modifies peerChallenge, aesKey, board`calls, board`linkPos, board`trace
      ensures board.trace == old(board.trace) + t
      ensures Outcome(t, st, 3, 11) && AuthData(t, challenge[..], peerPubkey[..], peerChallenge[..])
      ensures Logged(t, board.env)
      ensures !(|t| > 5 && t[5].Ok()) ==> peerChallenge[..] == old(peerChallenge[..])
      ensures st == Success ==> aesKey[..] == board.env.sha256(board.env.ecdh(peerPubkey[..]))[..AesKeySize]
      ensures st != Success ==> aesKey[..] == old(aesKey[..])
    {
      ghost var b, r;
      ghost var ch, pk := challenge[..], peerPubkey[..];
      var verified;
      verified, b := VerifyPeerPublicKey();
      t := b;
      if verified != Success {
        StopInVerify(b, ch, pk, peerChallenge[..]);
        return FuncFail, t;
      }
      st, r := AnswerAndDerive();
      VerifyThenClose(b, r, st, ch, pk, peerChallenge[..]);
      LoggedJoin(b, r, board.env);
      t := b + r;
    }

    /** perform_key_exchange (PROJECT.c:169-197): send our key, receive the
        peer's, send a fresh challenge, verify the peer's signature over it,
        receive the peer's challenge, sign it and send the signature, derive
        the session key. The first failing step ends the attempt. */
    method PerformKeyExchange() returns (st: Status, ghost t: seq<Event>)
      requires Valid()
      modifies peerPubkey, challenge, peerChallenge, aesKey
      modifies board`calls, board`linkPos, board`rngDrawn, board`trace
      ensures board.trace == old(board.trace) + t
      ensures AttemptShape(t, st)
      ensures AttemptData(t, st, old(devicePubkey[..]), challenge[..], peerPubkey[..], peerChallenge[..])
      ensures Logged(t, board.env)
      ensures |t| > 2 ==> challenge[..] == RandomBytes(board.env.rng, old(board.rngDrawn), ChallengeSize)
      ensures |t| <= 2 ==> challenge[..] == old(challenge[..])
      ensures board.rngDrawn == old(board.rngDrawn) + (if |t| > 2 then WordsFor(ChallengeSize) else 0)
      ensures !(|t| > 1 && t[1].Ok()) ==> peerPubkey[..] == old(peerPubkey[..])
      ensures !(|t| > 8 && t[8].Ok()) ==> peerChallenge[..] == old(peerChallenge[..])
      ensures st == Success ==> aesKey[..] == board.env.sha256(board.env.ecdh(peerPubkey[..]))[..AesKeySize]
      ensures st != Success ==> aesKey[..] == old(aesKey[..])
    {
      ghost var a, r;
      ghost var ownKey := devicePubkey[..];
      st, a := OpenExchange();
      t := a;
      ghost var ch, pk := challenge[..], peerPubkey[..];
      if st != Success {
        StopInOpening(a, st, ownKey, ch, pk, peerChallenge[..]);
        return st, t;
      }
      st, r := FinishExchange();
      OpeningThenAuth(a, r, st, ownKey, ch, pk, peerChallenge[..]);
      LoggedJoin(a, r, board.env);
      t := a + r;
    }

    /** The retry loop of `main` (PROJECT.c:233-239): run the key exchange
        until it succeeds, waiting `RetryDelayMs` after a failure, and halt in
        `Error_Handler` when the `MAX_RETRIES`-th attempt fails. */
    method EstablishSession() returns (established: bool, ghost fails: seq<Attempt>, ghost last: Attempt,
                                       ghost challengeAt: nat)
      requires Valid()
      modifies peerPubkey, challenge, peerChallenge, aesKey
      modifies board`calls, board`linkPos, board`rngDrawn, board`trace
      ensures board.trace == old(board.trace) + Retried(fails, last)
      ensures Retrying(fails, last)
      ensures Exchanged(last, devicePubkey[..], challenge[..], peerPubkey[..], peerChallenge[..])
      ensures Logged(last.events, board.env) && forall a <- fails :: Logged(a.events, board.env)
      ensures old(board.rngDrawn) <= challengeAt
      ensures |last.events| > 2 ==> challenge[..] == RandomBytes(board.env.rng, challengeAt, ChallengeSize)
      ensures board.rngDrawn == challengeAt + (if |last.events| > 2 then WordsFor(ChallengeSize) else 0)
      ensures established <==> last.status == Success
      ensures established ==> KeyDerived()
    {
      var retries := 0;
      fails := [];
      ghost var done := old(board.trace);
      while true
        invariant retries == |fails| < MaxRetries
        invariant AllFailed(fails) && done == old(board.trace) + Backoffs(fails)
        invariant forall a <- fails :: Logged(a.events, board.env)
        invariant board.trace == done && old(board.rngDrawn) <= board.rngDrawn
        decreases MaxRetries - retries
      {
        challengeAt := board.rngDrawn;
        var st, t := Handshake();
        if st == Success {
          RetriedLast(old(board.trace), fails, Attempt(st, t));
          assert t + [] == t;
          return true, fails, Attempt(st, t), challengeAt;
        }
        retries := retries + 1;
        var halted := BackOff(retries);
        if halted {
          RetriedLast(old(board.trace), fails, Attempt(st, t));
          return false, fails, Attempt(st, t), challengeAt;
        }
        BackoffsNext(old(board.trace), fails, Attempt(st, t));
        fails, done := fails + [Attempt(st, t)], done + t + [Delay(RetryDelayMs)];
      }
    }

    /** PROJECT.c:235-238 after a failed attempt: `Error_Handler` once
        `retries` has reached `MAX_RETRIES`, otherwise the one-second wait. */
    method BackOff(retries: nat) returns (halted: bool)
      modifies board`trace
      ensures halted <==> retries >= MaxRetries
      ensures board.trace == old(board.trace) + [if halted then Halt else Delay(RetryDelayMs)]
      ensures devicePubkey[..] == old(devicePubkey[..]) && challenge[..] == old(challenge[..])
      ensures peerPubkey[..] == old(peerPubkey[..]) && peerChallenge[..] == old(peerChallenge[..])
    {
      halted := retries >= MaxRetries;
      if halted {
        board.ErrorHandler();
      } else {
        board.DelayMs(RetryDelayMs);
      }
    }

    /** `aes_key` holds the first 16 bytes of the SHA-256 of the ECDH secret
        shared with the peer key in `peer_pubkey` (PROJECT.c:73-94). */
    ghost predicate KeyDerived()
      reads aesKey, peerPubkey
    {
      aesKey[..] == board.env.sha256(board.env.ecdh(peerPubkey[..]))[..AesKeySize]
    }

    /** One call of `perform_key_exchange` as the retry loop sees it. */
    method Handshake() returns (st: Status, ghost t: seq<Event>)
      requires Valid()
      modifies peerPubkey, challenge, peerChallenge, aesKey
      modifies board`calls, board`linkPos, board`rngDrawn, board`trace
      ensures board.trace == old(board.trace) + t
      ensures Exchanged(Attempt(st, t), devicePubkey[..], challenge[..], peerPubkey[..], peerChallenge[..])
      ensures Logged(t, board.env)
      ensures |t| > 2 ==> challenge[..] == RandomBytes(board.env.rng, old(board.rngDrawn), ChallengeSize)
      ensures board.rngDrawn == old(board.rngDrawn) + (if |t| > 2 then WordsFor(ChallengeSize) else 0)
      ensures st == Success ==> KeyDerived()
    {
      st, t := PerformKeyExchange();
    }

    /** receive_user_input (PROJECT.c:199-215): print the prompt, zero
        `rx_buffer`, then read the line into it. */
    method ReceiveUserInput() returns (n: int)
      requires Valid()
      modifies rxBuffer, board`calls, board`consolePos, board`trace
      ensures n == -1 <==> old(InputLine()).broken
      ensures n != -1 ==> n == |old(InputLine()).chars|
      ensures rxBuffer[..] == old(InputLine()).chars + Zeros(RxBufferSize - |old(InputLine()).chars|)
      ensures board.consolePos == old(board.consolePos) + Consumed(old(InputLine()), RxBufferSize - 1)
      ensures board.trace == old(board.trace) + [ConsoleTx(Prompt())] + Echoes(old(InputLine()).chars) +
                             Ending(old(InputLine()), board.env.consoleIn, old(board.consolePos), RxBufferSize - 1)
    {
      board.ConsoleSend(Prompt());
      forall k | 0 <= k < RxBufferSize {
        rxBuffer[k] := 0;
      }
      assert rxBuffer[..] == Zeros(RxBufferSize);
      n := ReadInput();
    }

    /** The loop of receive_user_input (PROJECT.c:207-214): store and echo
        console bytes until a CR or LF (consumed, not stored), a failing
        receive (-1) or 127 stored bytes. What is stored and how the read ends
        is `ReadLine` of the console oracles. */
    method ReadInput() returns (n: int)
      requires Valid() && rxBuffer[..] == Zeros(RxBufferSize)
      modifies rxBuffer, board`calls, board`consolePos, board`trace
      ensures LineStored(board.env.fault, board.env.consoleIn, old(board.calls), old(board.consolePos), old(board.trace),
                         n, rxBuffer[..], board.trace, board.consolePos)
    {
      ghost var fault, input := board.env.fault, board.env.consoleIn;
      ghost var call0, pos0, t0 := board.calls, board.consolePos, board.trace;
      var idx := 0;
      ghost var stored: seq<byte> := [];
      assert rxBuffer[..] == stored + Zeros(RxBufferSize - |stored|);
      while idx < RxBufferSize - 1
        invariant idx == |stored|
        invariant Reading(fault, input, call0, pos0, t0, stored, board.calls, board.consolePos, board.trace, rxBuffer[..])
      {
        ghost var before, call, pos, tb := rxBuffer[..], board.calls, board.consolePos, board.trace;
        var ok, ch := board.ConsoleReceive();
        if !ok {
          ReadingBreaks(fault, input, call0, pos0, t0, stored, call, pos, tb, before);
          return -1;
        }
        if ch == CR || ch == LF {
          ReadingEnds(fault, input, call0, pos0, t0, stored, call, pos, tb, before, ch);
          return idx;
        }
        ReadingNext(fault, input, call0, pos0, t0, stored, call, pos, tb, before, ch);
        EchoAndStore(idx, ch);
        stored := stored + [ch];
        idx := idx + 1;
      }
      ReadingFills(fault, input, call0, pos0, t0, stored, board.calls, board.consolePos, board.trace, rxBuffer[..]);
      n := idx;
    }

    /** One stored byte (PROJECT.c:211-212): echo `ch` on the console and put
        it at `rx_buffer[idx]`. */
    method EchoAndStore(idx: int, ch: byte)
      requires Valid() && 0 <= idx < RxBufferSize
      modifies rxBuffer, board`trace
      ensures rxBuffer[..] == old(rxBuffer[..])[idx := ch]
      ensures board.trace == old(board.trace) + [ConsoleTx([ch])]
    {
      board.ConsoleSend([ch]);
      rxBuffer[idx] := ch;
    }

    /** encrypt_message (PROJECT.c:104-116): AES init, then the GCM key from
        `aes_key`, then AES-GCM of `plaintext` under `iv` with no associated
        data; a failed init or key setup returns -1, the encryption its own
        result. The ciphertext and tag buffers of `main` are returned. */
    method EncryptMessage(plaintext: seq<byte>) returns (ret: int, ciphertext: seq<byte>, tag: Tag, ghost t: seq<Event>)
      requires Valid()
      modifies board`calls, board`trace
      ensures board.trace == old(board.trace) + t
      ensures EncryptRun(t, ret, aesKey[..], iv[..], plaintext)
      ensures ret == 0 ==> ciphertext == GcmCipher(board.env, aesKey[..], iv[..], plaintext) &&
                           tag == board.env.gcmTag(aesKey[..], iv[..], ciphertext)
    {
      ciphertext, tag := [], Zeros(AesTagSize);
      var started := board.AesInitialize();
      t := [AesInit(started)];
      if !started {
        return -1, ciphertext, tag, t;
      }
      var keyed := board.AesGcmSetKey(aesKey[..]);
      t := t + [AesSetKey(aesKey[..], keyed)];
      if !keyed {
        return -1, ciphertext, tag, t;
      }
      ret, ciphertext, tag := board.AesGcmEncrypt(aesKey[..], iv[..], plaintext);
      t := t + [AesEncrypt(aesKey[..], iv[..], plaintext, ret == 0)];
    }

    /** The frames of one message (PROJECT.c:256-258): `iv`, then the tag, then
        the ciphertext, the `||` chain stopping at the first failed send. */
    method SendFrames(ciphertext: seq<byte>, tag: seq<byte>) returns (ok: bool, ghost t: seq<Event>)
      requires Valid()
      modifies board`calls, board`trace
      ensures board.trace == old(board.trace) + t
      ensures FramesRun(t, ok, iv[..], tag, ciphertext)
    {
      var sent := SendData(iv[..]);
      t := [LinkTx(iv[..], sent == Success)];
      if sent != Success {
        return false, t;
      }
      sent := SendData(tag);
      t := t + [LinkTx(tag, sent == Success)];
      if sent != Success {
        return false, t;
      }
      sent := SendData(ciphertext);
      t := t + [LinkTx(ciphertext, sent == Success)];
      ok := sent == Success;
    }

    /** `main` after the peripherals (PROJECT.c:226-269), with the message
        loop run for at most `rounds` passes: start-up, then the retried key
        exchange, then the message loop, each entered only when the one
        before it did not halt. The loop leaves `aes_key` alone, so it still
        holds the key the last exchange derived, and no two messages share
        IV words. */
    method Run(rounds: nat) returns (halted: bool, ghost booted: bool, ghost boot: seq<Event>,
                                     ghost fails: seq<Attempt>, ghost last: Attempt, ghost challengeAt: nat,
                                     ghost log: seq<Round>)
      requires Valid()
      modifies devicePubkey, peerPubkey, challenge, peerChallenge, aesKey, rxBuffer, iv
      modifies board`calls, board`linkPos, board`consolePos, board`rngDrawn, board`trace
      ensures BootRun(boot, !booted)
      ensures !booted ==> halted && board.trace == old(board.trace) + boot
      ensures booted ==> devicePubkey[..] == board.env.ownPublicKey
      ensures booted ==> board.trace == old(board.trace) + boot + Retried(fails, last) + Flatten(log)
      ensures booted ==> Retrying(fails, last) && (last.status != Success ==> halted && log == [])
      ensures booted ==> Exchanged(last, devicePubkey[..], challenge[..], peerPubkey[..], peerChallenge[..])
      ensures booted ==> Logged(last.events, board.env) && forall a <- fails :: Logged(a.events, board.env)
      ensures booted ==> old(board.rngDrawn) <= challengeAt
      ensures booted && |last.events| > 2 ==> challenge[..] == RandomBytes(board.env.rng, challengeAt, ChallengeSize)
      ensures booted ==> Chained(log, old(board.consolePos), board.consolePos)
      ensures booted && last.status == Success ==>
        KeyDerived() && LoopRan(rounds, halted, log) && IvsBelow(log, board.rngDrawn)
      ensures booted && last.status == Success ==>
        Passes(log, challengeAt + WordsFor(ChallengeSize), board.env, aesKey[..])
    {
      var stopped;
      stopped, boot := Boot();
      booted := !stopped;
      if stopped {
        return true, booted, boot, [], Attempt(Success, []), 0, [];
      }
      halted, fails, last, log, challengeAt := Online(rounds);
    }

    /** PROJECT.c:233-269: the retried key exchange and, once it succeeded,
        the message loop under the derived key. */
    method Online(rounds: nat) returns (halted: bool, ghost fails: seq<Attempt>, ghost last: Attempt, ghost log: seq<Round>,
                                        ghost challengeAt: nat)
      requires Valid()
      modifies peerPubkey, challenge, peerChallenge, aesKey, rxBuffer, iv
      modifies board`calls, board`linkPos, board`consolePos, board`rngDrawn, board`trace
      ensures board.trace == old(board.trace) + Retried(fails, last) + Flatten(log)
      ensures Retrying(fails, last) && (last.status != Success ==> halted && log == [])
      ensures Exchanged(last, devicePubkey[..], challenge[..], peerPubkey[..], peerChallenge[..])
      ensures Logged(last.events, board.env) && forall a <- fails :: Logged(a.events, board.env)
      ensures old(board.rngDrawn) <= challengeAt
      ensures |last.events| > 2 ==> challenge[..] == RandomBytes(board.env.rng, challengeAt, ChallengeSize)
      ensures Chained(log, old(board.consolePos), board.consolePos)
      ensures last.status == Success ==>
        KeyDerived() && LoopRan(rounds, halted, log) && IvsBelow(log, board.rngDrawn) &&
        Passes(log, challengeAt + WordsFor(ChallengeSize), board.env, aesKey[..])
    {
      var established;
      established, fails, last, challengeAt := EstablishSession();
      if !established {
        return true, fails, last, [], challengeAt;
      }
      ghost var drawn := board.rngDrawn;
      halted, log := MessageLoop(rounds);
      assert Passes(log, drawn, board.env, aesKey[..]);
    }

    /** The message loop of `main` (PROJECT.c:244-269), run for at most
        `rounds` passes: it stops early only in `Error_Handler`, which is
        then the last interaction; every message drew its IV from RNG words
        after those of the previous message. */
    method MessageLoop(rounds: nat) returns (halted: bool, ghost log: seq<Round>)
      requires Valid()
      modifies rxBuffer, iv, board`calls, board`consolePos, board`rngDrawn, board`trace
      ensures board.trace == old(board.trace) + Flatten(log)
      ensures LoopRan(rounds, halted, log)
      ensures Passes(log, old(board.rngDrawn), board.env, aesKey[..]) && IvsBelow(log, board.rngDrawn)
      ensures Chained(log, old(board.consolePos), board.consolePos)
    {
      halted, log := false, [];
      var k := 0;
      ghost var done, key, drawn, pos := old(board.trace), aesKey[..], board.rngDrawn, board.consolePos;
      while k < rounds && !halted
        invariant k == |log| <= rounds && done == old(board.trace) + Flatten(log) && board.trace == done
        invariant WentOn(log) && (halted <==> log != [] && log[|log| - 1].halted)
        invariant Passes(log, drawn, board.env, key) && IvsBelow(log, board.rngDrawn)
        invariant drawn <= board.rngDrawn && Chained(log, pos, board.consolePos) && aesKey[..] == key
        decreases rounds - k
      {
        ghost var r;
        halted, r := Pass();
        FlattenNext(old(board.trace), log, r);
        IvsNext(log, r, board.rngDrawn);
        PassesNext(log, r, drawn, board.env, key);
        ChainedNext(log, r, pos, board.consolePos);
        log, done := log + [r], done + r.input + r.message;
        k := k + 1;
      }
    }

    /** One pass of the message loop (PROJECT.c:245-268): read a line, and
        seal and send it when it is not empty. */
    method Pass() returns (halted: bool, ghost r: Round)
      requires Valid()
      modifies rxBuffer, iv, board`calls, board`consolePos, board`rngDrawn, board`trace
      ensures board.trace == old(board.trace) + r.input + r.message
      ensures r.halted == halted && r.ivAt == old(board.rngDrawn)
      ensures board.rngDrawn == r.ivAt + (if r.len > 0 then WordsFor(AesIvSize) else 0)
      ensures r.callAt == old(board.calls) && r.readAt == old(board.consolePos)
      ensures board.consolePos == r.readAt + Consumed(r.line, RxBufferSize - 1)
      ensures PassShape(r, board.env, aesKey[..])
    {
      ghost var start, drawn, call, pos := board.trace, board.rngDrawn, board.calls, board.consolePos;
      ghost var line := InputLine();
      ghost var echoes, ending := Echoes(line.chars), Ending(line, board.env.consoleIn, pos, RxBufferSize - 1);
      var len := ReceiveUserInput();
      ReadGrouped(start, [ConsoleTx(Prompt())], echoes, ending);
      if len > 0 {
        assert rxBuffer[..len] == line.chars;
      }
      ghost var message;
      halted, message := HandleMessage(len);
      r := Round(line, len, call, pos, drawn, [ConsoleTx(Prompt())] + echoes + ending, message, halted);
    }

    /** One pass of the message loop after the read (PROJECT.c:246-268): a
        line of length `len <= 0` sends nothing; otherwise `iv` is filled from
        the RNG and the first `len` bytes of `rx_buffer` are sealed and sent. */
    method HandleMessage(len: int) returns (halted: bool, ghost t: seq<Event>)
      requires Valid() && len <= RxBufferSize
      modifies iv, board`calls, board`rngDrawn, board`trace
      ensures board.trace == old(board.trace) + t
      ensures len <= 0 ==> t == [] && !halted && iv[..] == old(iv[..]) && board.rngDrawn == old(board.rngDrawn)
      ensures len > 0 ==> board.rngDrawn == old(board.rngDrawn) + WordsFor(AesIvSize) &&
                          iv[..] == RandomBytes(board.env.rng, old(board.rngDrawn), AesIvSize)
      ensures len > 0 ==> MessageRun(t, halted, aesKey[..], iv[..], rxBuffer[..len],
                                     GcmCipher(board.env, aesKey[..], iv[..], rxBuffer[..len]),
                                     GcmTag(board.env, aesKey[..], iv[..], rxBuffer[..len]))
      ensures halted <==> t != [] && t[|t| - 1] == Halt
      ensures Logged(t, board.env)
    {
      if len <= 0 {
        return false, [];
      }
      GenerateRandom(iv, AesIvSize);
      assert iv[..AesIvSize] == iv[..];
      halted, t := SealAndSend(rxBuffer[..len]);
      MessageHalts(t, halted, aesKey[..], iv[..], rxBuffer[..len], GcmCipher(board.env, aesKey[..], iv[..], rxBuffer[..len]),
                   GcmTag(board.env, aesKey[..], iv[..], rxBuffer[..len]));
    }

    /** PROJECT.c:252-268 once `iv` is fresh: encrypt `plaintext`, send IV,
        tag and ciphertext, then sign the plaintext and send the signature;
        any failure ends in `Error_Handler`. */
    method SealAndSend(plaintext: seq<byte>) returns (halted: bool, ghost t: seq<Event>)
      requires Valid()
      modifies board`calls, board`trace
      ensures board.trace == old(board.trace) + t
      ensures MessageRun(t, halted, aesKey[..], iv[..], plaintext, GcmCipher(board.env, aesKey[..], iv[..], plaintext),
                         GcmTag(board.env, aesKey[..], iv[..], plaintext))
      ensures Logged(t, board.env)
    {
      ghost var key, nonce := aesKey[..], iv[..];
      var ciphertext, tag;
      ghost var te, rest;
      halted, ciphertext, tag, te := EncryptOrHalt(plaintext);
      if halted {
        HaltInEncrypt(te, -1, key, nonce, plaintext, GcmCipher(board.env, key, nonce, plaintext), GcmTag(board.env, key, nonce, plaintext));
        return true, te + [Halt];
      }
      halted, rest := SendOrHalt(plaintext, ciphertext, tag);
      EncryptThenSend(te, rest, halted, key, nonce, plaintext, ciphertext, tag);
      t := te + rest;
    }

    /** PROJECT.c:252-254: `encrypt_message`, and `Error_Handler` when it fails. */
    method EncryptOrHalt(plaintext: seq<byte>) returns (halted: bool, ciphertext: seq<byte>, tag: Tag, ghost t: seq<Event>)
      requires Valid()
      modifies board`calls, board`trace
      ensures board.trace == old(board.trace) + t + (if halted then [Halt] else [])
      ensures EncryptRun(t, if halted then -1 else 0, aesKey[..], iv[..], plaintext) && Logged(t, board.env)
      ensures !halted ==> ciphertext == GcmCipher(board.env, aesKey[..], iv[..], plaintext) &&
                          tag == GcmTag(board.env, aesKey[..], iv[..], plaintext)
    {
      var ret;
      ret, ciphertext, tag, t := EncryptMessage(plaintext);
      halted := ret != 0;
      if halted {
        board.ErrorHandler();
      }
    }

    /** PROJECT.c:256-268: send IV, tag and ciphertext, then sign and send the signature. */
    method SendOrHalt(plaintext: seq<byte>, ciphertext: seq<byte>, tag: seq<byte>) returns (halted: bool, ghost t: seq<Event>)
      requires Valid()
      modifies board`calls, board`trace
      ensures board.trace == old(board.trace) + t
      ensures SendingRun(t, halted, iv[..], plaintext, ciphertext, tag) && Logged(t, board.env)
    {
      ghost var nonce := iv[..];
      ghost var tf, rest;
      halted, tf := FramesOrHalt(ciphertext, tag);
      if halted {
        HaltInFrames(tf, nonce, plaintext, ciphertext, tag);
        return true, tf + [Halt];
      }
      halted, rest := SignOrHalt(plaintext);
      FramesThenSigning(tf, rest, halted, nonce, plaintext, ciphertext, tag);
      t := tf + rest;
    }

    /** PROJECT.c:256-260: the three frames, and `Error_Handler` when one fails. */
    method FramesOrHalt(ciphertext: seq<byte>, tag: seq<byte>) returns (halted: bool, ghost t: seq<Event>)
      requires Valid()
      modifies board`calls, board`trace
      ensures board.trace == old(board.trace) + t + (if halted then [Halt] else [])
      ensures FramesRun(t, !halted, iv[..], tag, ciphertext) && Logged(t, board.env)
    {
      var sent;
      sent, t := SendFrames(ciphertext, tag);
      halted := !sent;
      if halted {
        board.ErrorHandler();
      }
    }

    /** PROJECT.c:262-268: sign the plaintext and send the signature, halting
        when either fails. */
    method SignOrHalt(plaintext: seq<byte>) returns (halted: bool, ghost t: seq<Event>)
      modifies board`calls, board`trace
      ensures board.trace == old(board.trace) + t
      ensures SigningRun(t, halted, plaintext) && Logged(t, board.env)
    {
      var st;
      ghost var ts;
      st, ts := SignAndReply(plaintext);
      halted := st != Success;
      if halted {
        board.ErrorHandler();
      }
      SigningSteps(ts, st, halted, plaintext);
      t := ts + (if halted then [Halt] else []);
    }

    /** The line the next console reads will produce. */
    ghost function InputLine(): LineRead
      reads board`calls, board`consolePos
    {
      ReadLine(board.env.fault, board.env.consoleIn, board.calls, board.consolePos, RxBufferSize - 1)
    }
  }
}
