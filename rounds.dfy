/** The message loop of `main` (PROJECT.c:244-269) pass by pass: each pass
    reads a line from the console and, when it is not empty, seals it under
    a fresh IV and sends it. */
module Rounds {
  import opened Types
  import opened Platform
  import opened Random
  import opened Console
  import opened Messaging

  /** One pass of the loop: the line read, the length `receive_user_input`
      returned, the checked-call index and console position the read started
      from, the position of the first RNG word available for the IV, the
      console interactions of the read, the interactions of the send, and
      whether the pass ended in `Error_Handler`. */
  datatype Round = Round(line: LineRead, len: int, callAt: nat, readAt: nat, ivAt: nat,
                         input: seq<Event>, message: seq<Event>, halted: bool)

  /** The interactions of a sequence of passes, in order. */
  function Flatten(log: seq<Round>): (t: seq<Event>)
  {
    if log == [] then [] else Flatten(log[..|log| - 1]) + log[|log| - 1].input + log[|log| - 1].message
  }

  lemma FlattenNext(start: seq<Event>, log: seq<Round>, r: Round)
    ensures start + Flatten(log + [r]) == start + Flatten(log) + r.input + r.message
  {
    assert (log + [r])[..|log|] == log;
  }

  /** The read of a pass as one block of interactions: a re-association of
      the trace that `Pass` needs, not a property of the firmware. */
  lemma ReadGrouped(start: seq<Event>, prompt: seq<Event>, echoes: seq<Event>, ending: seq<Event>)
    ensures start + prompt + echoes + ending == start + (prompt + echoes + ending)
  {
  }

  /** Every pass has the shape `PassShape` under the oracles `env` and the
      session key `key`, with its IV drawn at `from` or later. */
  ghost predicate Passes(log: seq<Round>, from: nat, env: Oracles, key: seq<byte>)
  {
    forall i {:trigger PassShape(log[i], env, key)} :: 0 <= i < |log| ==> from <= log[i].ivAt && PassShape(log[i], env, key)
  }

  /** One pass of PROJECT.c:245-268: the line is what the console delivers
      from the pass's call index and position, and `receive_user_input`
      returned -1 for a broken line and its length otherwise; the read printed
      the prompt, then received and echoed each character, then the event
      that ended the line. An empty or broken line sends nothing and the loop
      goes on. A non-empty line is sealed under `key` and the IV taken from
      the RNG words at `ivAt` and sent as the
      message run: IV, tag and ciphertext of exactly the line's characters,
      then the signature over their hash. Its interactions logged the
      oracles' answers, and it halted exactly when they end in
      `Error_Handler`. */
  ghost predicate PassShape(r: Round, env: Oracles, key: seq<byte>)
  {
    r.line == ReadLine(env.fault, env.consoleIn, r.callAt, r.readAt, RxBufferSize - 1) &&
    r.len == (if r.line.broken then -1 else |r.line.chars|) &&
    r.input == [ConsoleTx(Prompt())] + Echoes(r.line.chars) + Ending(r.line, env.consoleIn, r.readAt, RxBufferSize - 1) &&
    (r.len <= 0 ==> r.message == [] && !r.halted) &&
    (r.len > 0 ==> Sealed(r.message, r.halted, env, key, RandomBytes(env.rng, r.ivAt, AesIvSize), r.line.chars)) &&
    Logged(r.message, env) && HaltedLast(r)
  }

  /** The pass halted exactly when its interactions end in `Error_Handler`. */
  ghost predicate HaltedLast(r: Round)
  {
    r.halted <==> r.message != [] && r.message[|r.message| - 1] == Halt
  }

  /** `t` is the message run of `plaintext` under `key` and `iv`, with the
      GCM ciphertext and tag of that plaintext. */
  ghost predicate Sealed(t: seq<Event>, halted: bool, env: Oracles, key: seq<byte>, iv: seq<byte>, plaintext: seq<byte>)
  {
    MessageRun(t, halted, key, iv, plaintext, GcmCipher(env, key, iv, plaintext), GcmTag(env, key, iv, plaintext))
  }

  lemma PassesNext(log: seq<Round>, r: Round, from: nat, env: Oracles, key: seq<byte>)
    requires Passes(log, from, env, key) && from <= r.ivAt && PassShape(r, env, key)
    ensures Passes(log + [r], from, env, key)
  {
  }

  /** A loop whose last pass halted has `Error_Handler` as its last interaction. */
  lemma FlattenHalts(log: seq<Round>, from: nat, env: Oracles, key: seq<byte>)
    requires Passes(log, from, env, key) && log != [] && log[|log| - 1].halted
    ensures var t := Flatten(log); t != [] && t[|t| - 1] == Halt
  {
    var r := log[|log| - 1];
    assert PassShape(r, env, key);
    assert HaltedLast(r);
    var t := Flatten(log);
    assert t == Flatten(log[..|log| - 1]) + r.input + r.message;
    assert t[|t| - 1] == r.message[|r.message| - 1];
  }

  /** No pass before the last one halted. */
  ghost predicate WentOn(log: seq<Round>)
  {
    forall i :: 0 <= i < |log| - 1 ==> !log[i].halted
  }

  /** The passes that sent a message took their IVs from windows of
      `WordsFor(AesIvSize)` RNG words, each window starting where the previous
      one ended or later, the last one ending at `bound` or before. */
  ghost predicate IvsBelow(log: seq<Round>, bound: nat)
  {
    log == [] ||
    (var r := log[|log| - 1];
     (r.len > 0 ==> r.ivAt + WordsFor(AesIvSize) <= bound) &&
     IvsBelow(log[..|log| - 1], if r.len > 0 then r.ivAt else bound))
  }

  /** A pass draws its IV from the words after those of the earlier passes. */
  lemma IvsNext(log: seq<Round>, r: Round, bound: nat)
    requires IvsBelow(log, r.ivAt) && bound == r.ivAt + (if r.len > 0 then WordsFor(AesIvSize) else 0)
    ensures IvsBelow(log + [r], bound)
  {
    assert (log + [r])[..|log|] == log;
  }

  /** Every window lies below `bound`. */
  lemma {:induction false} IvsBound(log: seq<Round>, bound: nat, i: nat)
    requires IvsBelow(log, bound) && i < |log| && log[i].len > 0
    ensures log[i].ivAt + WordsFor(AesIvSize) <= bound
  {
    var r := log[|log| - 1];
    if i < |log| - 1 {
      var init := log[..|log| - 1];
      assert init[i] == log[i];
      IvsBound(init, if r.len > 0 then r.ivAt else bound, i);
    }
  }

  /** Two messages never share an IV window: the IV of an earlier message ends
      before that of a later one starts, so no RNG word goes into two IVs. */
  lemma {:induction false} IvsDisjoint(log: seq<Round>, bound: nat, i: nat, j: nat)
    requires IvsBelow(log, bound) && i < j < |log| && log[i].len > 0 && log[j].len > 0
    ensures log[i].ivAt + WordsFor(AesIvSize) <= log[j].ivAt
  {
    var r, init := log[|log| - 1], log[..|log| - 1];
    assert init[i] == log[i];
    if j == |log| - 1 {
      IvsBound(init, r.ivAt, i);
    } else {
      assert init[j] == log[j];
      IvsDisjoint(init, if r.len > 0 then r.ivAt else bound, i, j);
    }
  }

  /** The passes read the console one after another: the first read starts
      at position `from`, each later one where the previous read stopped, and
      the last one stopped at `to`, so no console byte is read twice or
      skipped between passes. */
  ghost predicate Chained(log: seq<Round>, from: nat, to: nat)
  {
    if log == [] then to == from
    else
      var r := log[|log| - 1];
      to == r.readAt + Consumed(r.line, RxBufferSize - 1) && Chained(log[..|log| - 1], from, r.readAt)
  }

  /** A pass that reads from where the earlier passes stopped extends the chain. */
  lemma ChainedNext(log: seq<Round>, r: Round, from: nat, to: nat)
    requires Chained(log, from, r.readAt) && to == r.readAt + Consumed(r.line, RxBufferSize - 1)
    ensures Chained(log + [r], from, to)
  {
    assert (log + [r])[..|log|] == log;
  }

  /** In a chain, the first pass reads from `from` and every later pass reads
      from the position right after the bytes the pass before it took. */
  lemma {:induction false} ChainedAt(log: seq<Round>, from: nat, to: nat, i: nat)
    requires Chained(log, from, to) && i < |log|
    ensures i == 0 ==> log[0].readAt == from
    ensures i > 0 ==> log[i].readAt == log[i - 1].readAt + Consumed(log[i - 1].line, RxBufferSize - 1)
  {
    var init, r := log[..|log| - 1], log[|log| - 1];
    if i < |log| - 1 {
      ChainedAt(init, from, r.readAt, i);
      assert init[i] == log[i];
      if i > 0 {
        assert init[i - 1] == log[i - 1];
      }
    } else if i > 0 {
      ChainedEnds(init, from, r.readAt);
      assert init[|init| - 1] == log[i - 1];
    } else {
      assert init == [];
    }
  }

  /** The last pass of a chain stopped at `to`. */
  lemma ChainedEnds(log: seq<Round>, from: nat, to: nat)
    requires Chained(log, from, to) && log != []
    ensures to == log[|log| - 1].readAt + Consumed(log[|log| - 1].line, RxBufferSize - 1)
  {
  }

  /** How the message loop ends after at most `rounds` passes: it ran all
      of them unless it halted, and only the last pass halted. */
  ghost predicate LoopRan(rounds: nat, halted: bool, log: seq<Round>)
  {
    |log| <= rounds && (!halted ==> |log| == rounds) &&
    WentOn(log) && (halted <==> log != [] && log[|log| - 1].halted)
  }
}
