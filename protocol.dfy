/** The shape of one key-exchange attempt (`perform_key_exchange`,
    PROJECT.c:169-197, with `verify_peer_public_key`, `sign_message` and
    `derive_shared_secret` inlined): fourteen checked interactions in a fixed
    order, aborted at the first that fails with a status fixed per step. */
module Protocol {
  import opened Types
  import opened Platform

  datatype Kind = LinkSend | LinkReceive | Sha | Import | Curve | Verify | Sign | Ecdh | Other

  function KindOf(e: Event): Kind
  {
    match e
    case LinkTx(_, _) => LinkSend
    case LinkRx(_, _, _) => LinkReceive
    case Hash(_, _) => Sha
    case KeyImport(_, _) => Import
    case CurveSet(_) => Curve
    case SigVerify(_, _, _, _, _) => Verify
    case SeSign(_, _, _) => Sign
    case SeEcdh(_, _, _) => Ecdh
    case _ => Other
  }

  /** The checked interactions of one attempt, in program order:
      0 send own key, 1 receive peer key, 2 send challenge,
      3 receive peer signature, 4 hash own challenge, 5 import peer key,
      6 set curve, 7 verify, 8 receive peer challenge, 9 hash it, 10 sign,
      11 send signature, 12 ECDH, 13 hash the shared secret. */
  const Steps: seq<Kind> := [LinkSend, LinkReceive, LinkSend, LinkReceive, Sha, Import, Curve, Verify,
                             LinkReceive, Sha, Sign, LinkSend, Ecdh, Sha]

  /** The status `perform_key_exchange` returns when step `i` is the first to
      fail: a failed send gives TX_FAIL, a failed receive RX_FAIL, any failure
      inside `verify_peer_public_key` (its own receive included) FUNC_FAIL, a
      failure inside `sign_message` GEN_FAIL, a failed ECDH the element's own
      status, and a failed hash of the shared secret GEN_FAIL. */
  function AbortStatus(i: nat, e: Event): (st: Status)
    requires i < |Steps| && KindOf(e) == Steps[i] && !e.Ok()
    ensures st != Success
    ensures Steps[i] == LinkSend ==> st == TxFail
    ensures i in {1, 8} ==> st == RxFail
    ensures 3 <= i <= 7 ==> st == FuncFail
    ensures i in {9, 10, 13} ==> st == GenFail
  {
    if i == 0 || i == 2 || i == 11 then TxFail
    else if i == 1 || i == 8 then RxFail
    else if 3 <= i <= 7 then FuncFail
    else if i == 12 then e.status
    else GenFail
  }

  function Min(a: nat, b: nat): nat
  {
    if a <= b then a else b
  }

  /** `t` runs steps `from`, `from + 1`, ... of an attempt, at most `len` of
      them, every one but the last successfully. */
  ghost predicate Segment(t: seq<Event>, from: nat, len: nat)
  {
    1 <= |t| <= len && from + len <= |Steps| &&
    (forall i {:trigger KindOf(t[i])} :: 0 <= i < |t| ==> KindOf(t[i]) == Steps[from + i]) &&
    (forall i {:trigger t[i].Ok()} :: 0 <= i < |t| - 1 ==> t[i].Ok())
  }

  /** All `len` steps of the segment ran and the last one succeeded too. */
  ghost predicate Completed(t: seq<Event>, len: nat)
  {
    |t| == len && len > 0 && t[len - 1].Ok()
  }

  /** `t` is what steps `from`, `from + 1`, ... did before returning `status`
      when they are at most `len` steps: success exactly when all of them
      succeeded; otherwise the last one that ran failed and fixed the status. */
  ghost predicate Outcome(t: seq<Event>, status: Status, from: nat, len: nat)
  {
    Segment(t, from, len) &&
    (status == Success <==> Completed(t, len)) &&
    (status != Success ==> !t[|t| - 1].Ok() && status == AbortStatus(from + |t| - 1, t[|t| - 1]))
  }

  /** Steps that all succeeded followed by the next steps form one run whose
      status is that of the later steps. */
  lemma {:induction false} OutcomeJoin(a: seq<Event>, b: seq<Event>, status: Status, from: nat, la: nat, lb: nat)
    requires Outcome(a, Success, from, la) && Outcome(b, status, from + la, lb)
    ensures Outcome(a + b, status, from, la + lb)
  {
    var t := a + b;
    assert t[|t| - 1] == b[|b| - 1];
    forall i | 0 <= i < |t|
      ensures KindOf(t[i]) == Steps[from + i]
    {
      if i >= |a| {
        assert t[i] == b[i - |a|];
      }
    }
    forall i | 0 <= i < |t| - 1
      ensures t[i].Ok()
    {
      if i >= |a| {
        assert t[i] == b[i - |a|];
      }
    }
  }

  /** A run that stopped early is also a run of any longer list of steps. */
  lemma OutcomeWiden(t: seq<Event>, status: Status, from: nat, len: nat, len': nat)
    requires Outcome(t, status, from, len) && status != Success
    requires len <= len' && from + len' <= |Steps|
    ensures Outcome(t, status, from, len')
  {
  }

  /** `t` is the trace of one attempt that returned `status`: a prefix of
      `Steps` in which every interaction but the last succeeded; the attempt
      succeeded exactly when all fourteen did, and otherwise the last one
      failed and fixed the status. */
  ghost predicate AttemptShape(t: seq<Event>, status: Status)
  {
    Outcome(t, status, 0, |Steps|)
  }

  /** Steps 0-2: our key goes out first, the peer key comes in, our challenge goes out. */
  ghost predicate OpeningData(t: seq<Event>, ownKey: seq<byte>, challenge: seq<byte>, peerKey: seq<byte>)
    requires Segment(t, 0, 3)
  {
    t[0].LinkTx? && t[0].data == ownKey &&
    (|t| > 1 ==> t[1].LinkRx? && t[1].len == PubKeySize && (t[1].ok ==> t[1].data == peerKey)) &&
    (|t| > 2 ==> t[2].LinkTx? && t[2].data == challenge)
  }

  /** Steps 3-7: the peer's signature is checked against the peer key just
      received and the hash of OUR challenge. */
  ghost predicate VerifyData(t: seq<Event>, challenge: seq<byte>, peerKey: seq<byte>)
    requires Segment(t, 3, 5)
  {
    t[0].LinkRx? && t[0].len == SignatureSize &&
    (|t| > 1 ==> t[1].Hash? && t[1].data == challenge) &&
    (|t| > 2 ==> t[2].KeyImport? && t[2].key == peerKey) &&
    (|t| > 4 ==> t[4].SigVerify? && t[4].key == peerKey && t[4].signature == t[0].data &&
                 t[1].result.Hashed? && t[4].digest == t[1].result.digest)
  }

  /** Steps 8-11: the peer's challenge comes in, is hashed and signed, and the signature goes out. */
  ghost predicate ResponseData(t: seq<Event>, peerChallenge: seq<byte>)
    requires Segment(t, 8, 4)
  {
    t[0].LinkRx? && t[0].len == ChallengeSize && (t[0].ok ==> t[0].data == peerChallenge) &&
    (|t| > 1 ==> t[1].Hash? && t[1].data == peerChallenge) &&
    (|t| > 2 ==> t[2].SeSign? && t[1].result.Hashed? && t[2].digest == t[1].result.digest) &&
    (|t| > 3 ==> t[3].LinkTx? && t[3].data == t[2].produced)
  }

  /** Steps 12-13: ECDH on the peer key, then the hash of the shared secret. */
  ghost predicate DerivationData(t: seq<Event>, peerKey: seq<byte>)
    requires Segment(t, 12, 2)
  {
    t[0].SeEcdh? && t[0].peer == peerKey && (|t| > 1 ==> t[1].Hash? && t[1].data == t[0].secret)
  }

  /** Steps 8-13. */
  ghost predicate ClosingData(t: seq<Event>, peerKey: seq<byte>, peerChallenge: seq<byte>)
    requires Segment(t, 8, 6)
  {
    ResponseData(t[..Min(|t|, 4)], peerChallenge) &&
    (|t| > 4 ==> DerivationData(t[4..], peerKey))
  }

  /** Steps 3-13. */
  ghost predicate AuthData(t: seq<Event>, challenge: seq<byte>, peerKey: seq<byte>, peerChallenge: seq<byte>)
    requires Segment(t, 3, 11)
  {
    VerifyData(t[..Min(|t|, 5)], challenge, peerKey) &&
    (|t| > 5 ==> ClosingData(t[5..], peerKey, peerChallenge))
  }

  /** What the interactions of an attempt operate on, phase by phase. */
  ghost predicate AttemptData(t: seq<Event>, status: Status, ownKey: seq<byte>, challenge: seq<byte>,
                              peerKey: seq<byte>, peerChallenge: seq<byte>)
    requires AttemptShape(t, status)
  {
    OpeningData(t[..Min(|t|, 3)], ownKey, challenge, peerKey) &&
    (|t| > 3 ==> AuthData(t[3..], challenge, peerKey, peerChallenge))
  }

  /** An attempt that stopped during its opening steps. */
  lemma StopInOpening(a: seq<Event>, status: Status, ownKey: seq<byte>, challenge: seq<byte>,
                      peerKey: seq<byte>, peerChallenge: seq<byte>)
    requires Outcome(a, status, 0, 3) && status != Success && OpeningData(a, ownKey, challenge, peerKey)
    ensures AttemptShape(a, status) && AttemptData(a, status, ownKey, challenge, peerKey, peerChallenge)
  {
    assert a[..Min(|a|, 3)] == a;
  }

  /** A completed opening followed by the rest of an attempt is an attempt. */
  lemma OpeningThenAuth(a: seq<Event>, r: seq<Event>, status: Status, ownKey: seq<byte>, challenge: seq<byte>,
                        peerKey: seq<byte>, peerChallenge: seq<byte>)
    requires Outcome(a, Success, 0, 3) && OpeningData(a, ownKey, challenge, peerKey)
    requires Outcome(r, status, 3, 11) && AuthData(r, challenge, peerKey, peerChallenge)
    ensures AttemptShape(a + r, status) && AttemptData(a + r, status, ownKey, challenge, peerKey, peerChallenge)
  {
    OutcomeJoin(a, r, status, 0, 3, 11);
    var t := a + r;
    assert t[..Min(|t|, 3)] == a && t[3..] == r;
  }

  /** An attempt that stopped while verifying the peer returns FUNC_FAIL. */
  lemma StopInVerify(b: seq<Event>, challenge: seq<byte>, peerKey: seq<byte>, peerChallenge: seq<byte>)
    requires Segment(b, 3, 5) && VerifyData(b, challenge, peerKey)
    requires !b[|b| - 1].Ok()
    ensures Outcome(b, FuncFail, 3, 11) && AuthData(b, challenge, peerKey, peerChallenge)
  {
    assert b[..Min(|b|, 5)] == b;
  }

  /** A verified peer followed by the closing steps. */
  lemma VerifyThenClose(b: seq<Event>, r: seq<Event>, status: Status, challenge: seq<byte>,
                        peerKey: seq<byte>, peerChallenge: seq<byte>)
    requires Segment(b, 3, 5) && Completed(b, 5) && VerifyData(b, challenge, peerKey)
    requires Outcome(r, status, 8, 6) && ClosingData(r, peerKey, peerChallenge)
    ensures Outcome(b + r, status, 3, 11) && AuthData(b + r, challenge, peerKey, peerChallenge)
  {
    OutcomeJoin(b, r, status, 3, 5, 6);
    var t := b + r;
    assert t[..Min(|t|, 5)] == b && t[5..] == r;
  }

  /** An attempt that stopped while answering the peer's challenge. */
  lemma StopInResponse(c: seq<Event>, status: Status, peerKey: seq<byte>, peerChallenge: seq<byte>)
    requires Outcome(c, status, 8, 4) && status != Success && ResponseData(c, peerChallenge)
    ensures Outcome(c, status, 8, 6) && ClosingData(c, peerKey, peerChallenge)
  {
    assert c[..Min(|c|, 4)] == c;
  }

  /** An answered challenge followed by the key derivation. */
  lemma ResponseThenDerive(c: seq<Event>, d: seq<Event>, status: Status, peerKey: seq<byte>, peerChallenge: seq<byte>)
    requires Outcome(c, Success, 8, 4) && ResponseData(c, peerChallenge)
    requires Outcome(d, status, 12, 2) && DerivationData(d, peerKey)
    ensures Outcome(c + d, status, 8, 6) && ClosingData(c + d, peerKey, peerChallenge)
  {
    OutcomeJoin(c, d, status, 8, 4, 2);
    var t := c + d;
    assert t[..Min(|t|, 4)] == c && t[4..] == d;
  }

  /** Steps 4-7 of an attempt, the checks after the peer's signature came in:
      at most four steps, each but the last successful, on the hash of our
      `challenge`, the peer key and the received `signature`, GEN_FAIL for a
      failed hash, FUNC_FAIL for any later failure. */
  ghost predicate SignatureCheck(t: seq<Event>, st: Status, challenge: seq<byte>, peerKey: seq<byte>, signature: seq<byte>)
  {
    1 <= |t| <= 4 &&
    t[0].Hash? && t[0].data == challenge &&
    (|t| > 1 ==> t[0].result.Hashed? && t[1].KeyImport? && t[1].key == peerKey) &&
    (|t| > 2 ==> t[1].ok && t[2].CurveSet?) &&
    (|t| > 3 ==> t[2].ok && t[3].SigVerify? && t[3].key == peerKey && t[3].signature == signature &&
                 t[3].digest == t[0].result.digest) &&
    (|t| < 4 ==> !t[|t| - 1].Ok()) &&
    st == (if |t| == 4 && t[3].Ok() then Success else if |t| == 1 then GenFail else FuncFail)
  }

  /** The receive of the peer's signature followed by the checks on it form a
      segment of steps 3-7 with the data `VerifyData` asks for; the status is
      RX_FAIL when the receive failed and otherwise that of the checks. */
  lemma VerifySteps(e0: Event, rest: seq<Event>, st: Status, challenge: seq<byte>, peerKey: seq<byte>)
    requires e0.LinkRx? && e0.len == SignatureSize
    requires !e0.ok ==> rest == [] && st == RxFail
    requires e0.ok ==> SignatureCheck(rest, st, challenge, peerKey, e0.data)
    ensures var t := [e0] + rest;
      Segment(t, 3, 5) && VerifyData(t, challenge, peerKey) &&
      (st == Success <==> Completed(t, 5)) && (st != Success ==> !t[|t| - 1].Ok()) &&
      (|t| == 1 && st != Success ==> st == RxFail) &&
      (|t| == 2 && st != Success ==> st == GenFail) &&
      (|t| > 2 && st != Success ==> st == FuncFail)
  {
    var t := [e0] + rest;
    forall i | 0 < i < |t|
      ensures t[i] == rest[i - 1]
    {
    }
  }

  /** Steps 9-11 of an attempt, the answer to the peer's challenge once it has
      arrived: the hash of `msg`, its signature by the secure element, and the
      send of that signature; GEN_FAIL for a failed hash or signature, TX_FAIL
      for a failed send. */
  ghost predicate SignedReply(t: seq<Event>, st: Status, msg: seq<byte>)
  {
    1 <= |t| <= 3 &&
    t[0].Hash? && t[0].data == msg &&
    (|t| > 1 ==> t[0].result.Hashed? && t[1].SeSign? && t[1].digest == t[0].result.digest) &&
    (|t| > 2 ==> t[1].Ok() && t[2].LinkTx? && t[2].data == t[1].produced) &&
    (|t| < 3 ==> !t[|t| - 1].Ok()) &&
    st == (if |t| < 3 then GenFail else if t[2].Ok() then Success else TxFail)
  }

  /** The receive of the peer's challenge followed by the signed reply form
      steps 8-11 with the data `ResponseData` asks for; the status is RX_FAIL
      when the receive failed and otherwise that of the reply. */
  lemma ResponseSteps(e0: Event, rest: seq<Event>, st: Status, peerChallenge: seq<byte>)
    requires e0.LinkRx? && e0.len == ChallengeSize && (e0.ok ==> e0.data == peerChallenge)
    requires !e0.ok ==> rest == [] && st == RxFail
    requires e0.ok ==> SignedReply(rest, st, peerChallenge)
    ensures Outcome([e0] + rest, st, 8, 4) && ResponseData([e0] + rest, peerChallenge)
  {
    var t := [e0] + rest;
    forall i | 0 < i < |t|
      ensures t[i] == rest[i - 1]
    {
    }
  }

  /** The start-up of PROJECT.c:226-231: `atcab_init`, then (only after it
      succeeded) the key generation; the firmware goes on exactly when both
      succeeded and otherwise halts right after the failing one. */
  ghost predicate BootRun(t: seq<Event>, halted: bool)
  {
    var n := if halted then |t| - 1 else |t|;
    1 <= n <= 2 && (halted ==> t[n] == Halt && !t[n - 1].Ok()) &&
    t[0].SeInit? && (n > 1 ==> t[0].status == Success && t[1].SeGenKey?) &&
    (!halted <==> n == 2 && t[1].status == Success)
  }
}
