/** The shape of sending one message from the main loop (PROJECT.c:250-268,
    with `encrypt_message`, PROJECT.c:104-116, and `sign_message`,
    PROJECT.c:118-133, inlined): nine checked interactions in a fixed order,
    the firmware halting in `Error_Handler` right after the first that fails. */
module Messaging {
  import opened Types
  import opened Platform
  import opened Protocol

  /** What `encrypt_message` did: AES init, then the GCM key, then the
      encryption of `plaintext` under `key` and `iv`, stopping at the first
      failure; it returns 0 exactly when all three succeeded and -1 otherwise. */
  ghost predicate EncryptRun(t: seq<Event>, ret: int, key: seq<byte>, iv: seq<byte>, plaintext: seq<byte>)
  {
    1 <= |t| <= 3 && t[0].AesInit? &&
    (|t| > 1 ==> t[0].ok && t[1].AesSetKey? && t[1] == AesSetKey(key, t[1].ok)) &&
    (|t| > 2 ==> t[1].ok && t[2].AesEncrypt? && t[2] == AesEncrypt(key, iv, plaintext, t[2].ok)) &&
    (|t| < 3 ==> !t[|t| - 1].Ok()) &&
    (ret == 0 <==> |t| == 3 && t[2].ok) &&
    (ret != 0 ==> ret == -1)
  }

  /** What the three `send_data` calls of PROJECT.c:256-258 did: the IV, the
      tag and the ciphertext go out in this order, the `||` chain stopping at
      the first failed send; `ok` says all three went out. */
  ghost predicate FramesRun(t: seq<Event>, ok: bool, iv: seq<byte>, tag: seq<byte>, ciphertext: seq<byte>)
  {
    1 <= |t| <= 3 && t[0].LinkTx? && t[0] == LinkTx(iv, t[0].ok) &&
    (|t| > 1 ==> t[0].ok && t[1].LinkTx? && t[1] == LinkTx(tag, t[1].ok)) &&
    (|t| > 2 ==> t[1].ok && t[2].LinkTx? && t[2] == LinkTx(ciphertext, t[2].ok)) &&
    (|t| < 3 ==> !t[|t| - 1].ok) &&
    (ok <==> |t| == 3 && t[2].ok)
  }

  /** What PROJECT.c:262-268 did: the hash of the plaintext, the signature of
      that digest, the signature sent; the firmware goes on exactly when all
      three succeeded and otherwise halts right after the failing step. */
  ghost predicate SigningRun(t: seq<Event>, halted: bool, plaintext: seq<byte>)
  {
    var n := if halted then |t| - 1 else |t|;
    1 <= n <= 3 && (halted ==> t[n] == Halt && !t[n - 1].Ok()) &&
    t[0].Hash? && t[0].data == plaintext &&
    (n > 1 ==> t[0].result.Hashed? && t[1].SeSign? && t[1].digest == t[0].result.digest) &&
    (n > 2 ==> t[1].status == Success && t[2].LinkTx? && t[2] == LinkTx(t[1].produced, t[2].ok)) &&
    (!halted <==> n == 3 && t[2].ok)
  }

  /** What PROJECT.c:256-268 did: the IV, tag and ciphertext frames, then the
      signing steps, each but the last successful, the firmware halting right
      after a failing one. */
  ghost predicate SendingRun(t: seq<Event>, halted: bool, iv: seq<byte>, plaintext: seq<byte>,
                             ciphertext: seq<byte>, tag: seq<byte>)
  {
    var n := if halted then |t| - 1 else |t|;
    1 <= n <= 6 && (halted ==> t[n] == Halt && !t[n - 1].Ok()) &&
    t[0].LinkTx? && t[0] == LinkTx(iv, t[0].ok) &&
    (n > 1 ==> t[0].ok && t[1].LinkTx? && t[1] == LinkTx(tag, t[1].ok)) &&
    (n > 2 ==> t[1].ok && t[2].LinkTx? && t[2] == LinkTx(ciphertext, t[2].ok)) &&
    (n > 3 ==> t[2].ok && t[3].Hash? && t[3].data == plaintext) &&
    (n > 4 ==> t[3].result.Hashed? && t[4].SeSign? && t[4].digest == t[3].result.digest) &&
    (n > 5 ==> t[4].status == Success && t[5].LinkTx? && t[5] == LinkTx(t[4].produced, t[5].ok)) &&
    (!halted <==> n == 6 && t[5].ok)
  }

  /** `t` is the trace of one message send (PROJECT.c:252-268): `n` of the
      nine steps ran, every one but the last successfully, on these data: the
      GCM key is `key`, the encryption is of `plaintext` under `iv`, the
      frames are the IV, the tag and the ciphertext in this order, the hash is
      over the plaintext (not the ciphertext), the element signs that digest
      and the signature goes out last. The firmware carries on exactly when
      all nine succeeded, and otherwise the failing step is followed by the
      halt and nothing else. */
  ghost predicate MessageRun(t: seq<Event>, halted: bool, key: seq<byte>, iv: seq<byte>, plaintext: seq<byte>,
                             ciphertext: seq<byte>, tag: seq<byte>)
  {
    var n := if halted then |t| - 1 else |t|;
    1 <= n <= 9 && (halted ==> t[n] == Halt && !t[n - 1].Ok()) &&
    t[0].AesInit? &&
    (n > 1 ==> t[0].ok && t[1].AesSetKey? && t[1] == AesSetKey(key, t[1].ok)) &&
    (n > 2 ==> t[1].ok && t[2].AesEncrypt? && t[2] == AesEncrypt(key, iv, plaintext, t[2].ok)) &&
    (n > 3 ==> t[2].ok && t[3].LinkTx? && t[3] == LinkTx(iv, t[3].ok)) &&
    (n > 4 ==> t[3].ok && t[4].LinkTx? && t[4] == LinkTx(tag, t[4].ok)) &&
    (n > 5 ==> t[4].ok && t[5].LinkTx? && t[5] == LinkTx(ciphertext, t[5].ok)) &&
    (n > 6 ==> t[5].ok && t[6].Hash? && t[6].data == plaintext) &&
    (n > 7 ==> t[6].result.Hashed? && t[7].SeSign? && t[7].digest == t[6].result.digest) &&
    (n > 8 ==> t[7].status == Success && t[8].LinkTx? && t[8] == LinkTx(t[7].produced, t[8].ok)) &&
    (!halted <==> n == 9 && t[8].ok)
  }

  /** Signing ends the message: it goes on after a sent signature and halts
      after any failure of `sign_message` or of the signature send. */
  lemma SigningSteps(ts: seq<Event>, st: Status, halted: bool, plaintext: seq<byte>)
    requires SignedReply(ts, st, plaintext) && halted == (st != Success)
    ensures SigningRun(ts + (if halted then [Halt] else []), halted, plaintext)
  {
    var t := ts + (if halted then [Halt] else []);
    forall i | 0 <= i < |ts|
      ensures t[i] == ts[i]
    {
    }
  }

  /** A failed frame send halts before the signature is computed. */
  lemma HaltInFrames(tf: seq<Event>, iv: seq<byte>, plaintext: seq<byte>, ciphertext: seq<byte>, tag: seq<byte>)
    requires FramesRun(tf, false, iv, tag, ciphertext)
    ensures SendingRun(tf + [Halt], true, iv, plaintext, ciphertext, tag)
  {
    var t := tf + [Halt];
    forall i | 0 <= i < |tf|
      ensures t[i] == tf[i]
    {
    }
  }

  /** Three frames sent, then the signing steps. */
  lemma FramesThenSigning(tf: seq<Event>, rest: seq<Event>, halted: bool, iv: seq<byte>, plaintext: seq<byte>,
                          ciphertext: seq<byte>, tag: seq<byte>)
    requires FramesRun(tf, true, iv, tag, ciphertext) && SigningRun(rest, halted, plaintext)
    ensures SendingRun(tf + rest, halted, iv, plaintext, ciphertext, tag)
  {
    var t := tf + rest;
    assert t[0] == tf[0] && t[1] == tf[1] && t[2] == tf[2];
    forall i | 0 <= i < |rest|
      ensures t[3 + i] == rest[i]
    {
    }
  }

  /** A failed `encrypt_message` halts before anything is sent. */
  lemma HaltInEncrypt(te: seq<Event>, ret: int, key: seq<byte>, iv: seq<byte>, plaintext: seq<byte>,
                      ciphertext: seq<byte>, tag: seq<byte>)
    requires EncryptRun(te, ret, key, iv, plaintext) && ret != 0
    ensures MessageRun(te + [Halt], true, key, iv, plaintext, ciphertext, tag)
  {
    var t := te + [Halt];
    forall i | 0 <= i < |te|
      ensures t[i] == te[i]
    {
    }
  }

  /** A successful encryption, then the sending steps. */
  lemma EncryptThenSend(te: seq<Event>, rest: seq<Event>, halted: bool, key: seq<byte>, iv: seq<byte>,
                        plaintext: seq<byte>, ciphertext: seq<byte>, tag: seq<byte>)
    requires EncryptRun(te, 0, key, iv, plaintext) && SendingRun(rest, halted, iv, plaintext, ciphertext, tag)
    ensures MessageRun(te + rest, halted, key, iv, plaintext, ciphertext, tag)
  {
    var t := te + rest;
    assert t[0] == te[0] && t[1] == te[1] && t[2] == te[2];
    forall i | 0 <= i < |rest|
      ensures t[3 + i] == rest[i]
    {
    }
  }

  /** `Error_Handler` is reached at most once per message, and only as its
      last interaction: a send halts exactly when its trace ends in the halt. */
  lemma MessageHalts(t: seq<Event>, halted: bool, key: seq<byte>, iv: seq<byte>, plaintext: seq<byte>,
                     ciphertext: seq<byte>, tag: seq<byte>)
    requires MessageRun(t, halted, key, iv, plaintext, ciphertext, tag)
    ensures t != [] && (t[|t| - 1] == Halt <==> halted)
    ensures forall i :: 0 <= i < |t| - 1 ==> t[i] != Halt
  {
  }
}
