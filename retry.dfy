/** The retry driver of `main` (PROJECT.c:233-239): the key exchange is run
    until it succeeds, with a back-off of one second after each failure, and
    the firmware halts once `MAX_RETRIES` attempts have failed. */
module Retry {
  import opened Types
  import opened Platform
  import opened Protocol

  /** One finished call of `perform_key_exchange`: its status and its interactions. */
  datatype Attempt = Attempt(status: Status, events: seq<Event>)

  /** The interactions of the attempts that failed before the last one, each
      followed by its back-off `HAL_Delay`. */
  function Backoffs(fails: seq<Attempt>): (t: seq<Event>)
  {
    if fails == [] then []
    else Backoffs(fails[..|fails| - 1]) + fails[|fails| - 1].events + [Delay(RetryDelayMs)]
  }

  /** The trace of the whole retry loop: the failed attempts with their
      back-offs, the last attempt, and `Error_Handler` if that one failed too. */
  function Retried(fails: seq<Attempt>, last: Attempt): (t: seq<Event>)
  {
    Backoffs(fails) + last.events + (if last.status == Success then [] else [Halt])
  }

  /** The attempts the loop can have made: fewer than `MAX_RETRIES` failures
      before the last attempt, each a complete attempt with a failing status;
      the last attempt a complete attempt too; and when it also failed, the
      budget is used up. */
  ghost predicate Retrying(fails: seq<Attempt>, last: Attempt)
  {
    |fails| < MaxRetries && AllFailed(fails) && AttemptShape(last.events, last.status) &&
    (last.status != Success ==> |fails| == MaxRetries - 1)
  }

  /** `a` is a complete key-exchange attempt on the given buffer contents
      (`device_pubkey`, `challenge`, `peer_pubkey`, `peer_challenge`): our key
      and challenge went out, the peer key came into `peer_pubkey`, the peer's
      signature was checked with that key over the hash of `challenge`,
      `peer_challenge` was signed, and the ECDH ran on `peer_pubkey`
      (PROJECT.c:169-197). */
  ghost predicate Exchanged(a: Attempt, ownKey: seq<byte>, challenge: seq<byte>,
                            peerKey: seq<byte>, peerChallenge: seq<byte>)
  {
    AttemptShape(a.events, a.status) && AttemptData(a.events, a.status, ownKey, challenge, peerKey, peerChallenge)
  }

  /** What a successful attempt has established once its interactions logged
      the oracles' answers (`Logged`): our key and our challenge went out;
      the peer's signature that came in checks, under the peer key that came
      in, against the SHA-256 of OUR challenge; the signature we sent is one
      the secure element made over the SHA-256 of the peer's challenge; and
      the last hash is over the ECDH secret shared with that same peer key. */
  lemma {:induction false} SuccessAuthenticates(a: Attempt, ownKey: seq<byte>, challenge: seq<byte>,
                                                peerKey: seq<byte>, peerChallenge: seq<byte>, env: Oracles)
    requires a.status == Success && Exchanged(a, ownKey, challenge, peerKey, peerChallenge) && Logged(a.events, env)
    ensures |a.events| == |Steps|
    ensures a.events[0] == LinkTx(ownKey, true) && a.events[1] == LinkRx(PubKeySize, peerKey, true)
    ensures a.events[2] == LinkTx(challenge, true)
    ensures a.events[3].LinkRx? && a.events[3].ok && env.ecdsaValid(peerKey, env.sha256(challenge), a.events[3].data)
    ensures a.events[8] == LinkRx(ChallengeSize, peerChallenge, true)
    ensures a.events[11].LinkTx? && a.events[11].ok
    ensures exists k :: a.events[11].data == env.ecdsaSign(k, env.sha256(peerChallenge))
    ensures a.events[13] == Hash(env.ecdh(peerKey), Hashed(env.sha256(env.ecdh(peerKey))))
  {
    var t := a.events;
    assert Completed(t, |Steps|);
    assert forall i | 0 <= i < |t| :: t[i].Ok() by {
      forall i | 0 <= i < |t|
        ensures t[i].Ok()
      {
        if i < |t| - 1 {
          assert t[i].Ok();
        }
      }
    }
    var u := t[3..];
    var v, w := u[..5], u[5..];
    var x, y := w[..4], w[4..];
    assert OpeningData(t[..3], ownKey, challenge, peerKey) && VerifyData(v, challenge, peerKey);
    assert ResponseData(x, peerChallenge) && DerivationData(y, peerKey);
    assert t[3] == v[0] && t[4] == v[1] && t[7] == v[4];
    assert t[8] == x[0] && t[9] == x[1] && t[10] == x[2] && t[11] == x[3];
    assert t[12] == y[0] && t[13] == y[1];
    assert Answered(t[4], env) && Answered(t[7], env);
    assert Answered(t[9], env) && Answered(t[10], env);
    assert Answered(t[12], env) && Answered(t[13], env);
  }

  /** A peer signature that does not check, under the peer key received, over
      the SHA-256 of OUR challenge (one made over a stale challenge, say)
      ends the attempt at the verification with FUNC_FAIL: nothing is signed,
      sent or derived after it. */
  lemma {:induction false} ForgedSignatureFails(a: Attempt, ownKey: seq<byte>, challenge: seq<byte>,
                                                peerKey: seq<byte>, peerChallenge: seq<byte>, env: Oracles)
    requires Exchanged(a, ownKey, challenge, peerKey, peerChallenge) && Logged(a.events, env)
    requires |a.events| > 7 && a.events[3].LinkRx?
    requires !env.ecdsaValid(peerKey, env.sha256(challenge), a.events[3].data)
    ensures |a.events| == 8 && a.status == FuncFail
  {
    var t := a.events;
    var v := t[3..][..5];
    assert VerifyData(v, challenge, peerKey);
    assert t[3] == v[0] && t[4] == v[1] && t[7] == v[4];
    assert Answered(t[4], env) && Answered(t[7], env);
    assert !t[7].Ok();
  }

  /** Every one of `fails` is a complete attempt that returned a failing status. */
  ghost predicate AllFailed(fails: seq<Attempt>)
  {
    fails == [] ||
    (AllFailed(fails[..|fails| - 1]) &&
     AttemptShape(fails[|fails| - 1].events, fails[|fails| - 1].status) && fails[|fails| - 1].status != Success)
  }

  /** The number of `HAL_Delay` calls in a trace. */
  function Delays(t: seq<Event>): (n: nat)
    ensures n <= |t|
  {
    if t == [] then 0 else Delays(t[..|t| - 1]) + (if t[|t| - 1].Delay? then 1 else 0)
  }

  lemma {:induction false} DelaysAppend(a: seq<Event>, b: seq<Event>)
    ensures Delays(a + b) == Delays(a) + Delays(b)
  {
    if b == [] {
      assert a + b == a;
    } else {
      assert (a + b)[..|a + b| - 1] == a + b[..|b| - 1];
      DelaysAppend(a, b[..|b| - 1]);
    }
  }

  /** A key-exchange attempt never waits: none of its steps is a delay. */
  lemma {:induction false} AttemptNoDelays(t: seq<Event>, status: Status)
    requires AttemptShape(t, status)
    ensures Delays(t) == 0
  {
    var k := |t|;
    assert t[..k] == t;
    while k > 0
      invariant 0 <= k <= |t|
      invariant Delays(t[..k]) == Delays(t)
      decreases k
    {
      assert t[..k][..k - 1] == t[..k - 1];
      assert KindOf(t[k - 1]) == Steps[k - 1];
      k := k - 1;
    }
  }

  /** The loop waits once after every failed attempt but the last, so it
      waits at most `MAX_RETRIES - 1` times. */
  lemma {:induction false} RetriedDelays(fails: seq<Attempt>, last: Attempt)
    requires Retrying(fails, last)
    ensures Delays(Retried(fails, last)) == |fails| <= MaxRetries - 1
  {
    BackoffsDelays(fails);
    AttemptNoDelays(last.events, last.status);
    DelaysAppend(Backoffs(fails), last.events);
    DelaysAppend(Backoffs(fails) + last.events, if last.status == Success then [] else [Halt]);
  }

  lemma {:induction false} BackoffsDelays(fails: seq<Attempt>)
    requires AllFailed(fails)
    ensures Delays(Backoffs(fails)) == |fails|
  {
    if fails != [] {
      var init, a := fails[..|fails| - 1], fails[|fails| - 1];
      BackoffsDelays(init);
      AttemptNoDelays(a.events, a.status);
      DelaysAppend(Backoffs(init), a.events);
      DelaysAppend(Backoffs(init) + a.events, [Delay(RetryDelayMs)]);
    }
  }

  /** The loop ends in `Error_Handler` exactly when its last attempt failed;
      after a success the trace ends with the hash of the shared secret. */
  lemma RetriedEnds(fails: seq<Attempt>, last: Attempt)
    requires Retrying(fails, last)
    ensures var t := Retried(fails, last); |t| > 0 && (t[|t| - 1] == Halt <==> last.status != Success)
    ensures last.status == Success ==> var t := Retried(fails, last); t[|t| - 1].Hash? && t[|t| - 1].Ok()
  {
    var e := last.events[|last.events| - 1];
    assert KindOf(e) == Steps[|last.events| - 1];
  }

  /** One more failed attempt and its back-off extend the trace of the loop. */
  lemma BackoffsNext(start: seq<Event>, fails: seq<Attempt>, a: Attempt)
    requires AllFailed(fails) && AttemptShape(a.events, a.status) && a.status != Success
    ensures AllFailed(fails + [a])
    ensures start + Backoffs(fails + [a]) == start + Backoffs(fails) + a.events + [Delay(RetryDelayMs)]
  {
    assert (fails + [a])[..|fails|] == fails;
  }

  /** The trace of the loop when its last attempt is `last`, re-associated as
      `EstablishSession` builds it: a proof step for the solver, not a
      property of the firmware. */
  lemma RetriedLast(start: seq<Event>, fails: seq<Attempt>, last: Attempt)
    ensures start + Retried(fails, last) ==
            start + Backoffs(fails) + last.events + (if last.status == Success then [] else [Halt])
  {
  }
}
