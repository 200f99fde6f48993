# STM32 secure-link firmware, modelled in Dafny

The firmware (`PROJECT.c`) runs on an STM32 board with an ATECC608B secure
element. It pairs with a peer over a UART link and then relays console
messages to it, encrypted and signed.

- **Start-up.** It opens the secure element and has it create the device key
  pair in slot 0.
- **Key exchange** (`perform_key_exchange`):
  1. send the device's public key;
  2. receive the peer's public key;
  3. send a fresh 32-byte random challenge;
  4. check the peer's ECDSA signature over that challenge (`verify_peer_public_key`);
  5. receive the peer's own challenge, sign it in the secure element and send the signature;
  6. derive the AES-128 session key as the first 16 bytes of SHA-256 of the ECDH
     secret (`derive_shared_secret`).

  A failed exchange is retried after one second. After the third failure the
  firmware stops in `Error_Handler`.
- **Message loop.** Each pass reads a line from the console
  (`receive_user_input`, echoing each byte).
  - An empty or broken line is skipped.
  - Otherwise the firmware draws a 12-byte IV from the hardware RNG
    (`generate_random`) and encrypts the line with AES-GCM (`encrypt_message`).
  - It sends the IV, the tag and the ciphertext.
  - It then signs the SHA-256 of the plaintext in the secure element
    (`sign_message`) and sends the signature.
  - Any failure on the way ends in `Error_Handler`.

The model is imperative, like the source:

- The seven global buffers are the arrays of a `Firmware.Session`.
- The C functions are its methods, with the same branches, the same order of
  calls and the same status codes.
- Every peripheral and library call goes through `Platform.Board`. Its
  behaviour is fixed per run by oracles:
  - a fault oracle for every checked call;
  - input streams for the link, the console and the RNG;
  - uninterpreted functions for SHA-256, ECDH, ECDSA and GCM.
- `Board` records each interaction in a ghost trace. `Platform.Logged` says
  that every hash, signature check, ECDH and signing event in a trace holds
  the oracles' answer, so a trace read back says what the library computed.

The methods are specified by what they add to that trace and by the buffers
they leave behind. Pure predicates pin down the legal traces:

- `Protocol.AttemptShape`/`AttemptData`: one key-exchange attempt, and `Retry.Exchanged` for an attempt together with the buffers it ran on;
- `Retry.Retried`/`Retrying`: the retry loop;
- `Messaging.MessageRun`: one message send;
- `Console.ReadLine`: one console line;
- `Rounds.Passes`/`IvsBelow`/`Chained`: the message loop, each pass reading
  from where the one before it stopped.

Lemmas are proved about these predicates:

- how many times the firmware waits;
- where `Error_Handler` can occur;
- a successful exchange checked the peer's signature over the SHA-256 of
  the fresh RNG challenge it sent, and a signature that does not check ends
  the attempt with FUNC_FAIL;
- IV windows of distinct messages never overlap;
- what a line read stores and why it stops.

Files:

- `types.dfy`: bytes, words, sizes, status codes;
- `platform.dfy`: the collaborators;
- `random.dfy`: the RNG fill;
- `console.dfy`: the console line;
- `protocol.dfy`: the key-exchange attempt and start-up;
- `messaging.dfy`: one send;
- `retry.dfy`: the retry loop;
- `rounds.dfy`: the passes of the message loop;
- `firmware.dfy`: the `Session` class.

## Model

| member | source | states |
|---|---|---|
| Platform.Board.SeStatus | PROJECT.c:62 | a secure-element command reports ATCA_SUCCESS exactly when its call does not fault, and otherwise a failing status |
| Platform.Board.HashAt | PROJECT.c:80-90 | the init/update/final SHA-256 sequence yields a digest exactly when none of its three calls fails, and that digest is SHA-256 of the data |
| Platform.Board.HashCalls | PROJECT.c:122-130 | the hash sequence stops at its first failing call, so it makes one to three checked calls |
| Platform.GcmCipher | PROJECT.c:113 | AES-GCM encryption with no associated data keeps the length of the plaintext |
| Platform.Board.LinkSend | PROJECT.c:69-70 | a link transmit succeeds exactly when its call does not fault; it is logged with its data |
| Platform.Board.LinkReceive | PROJECT.c:65-66 | a successful link receive fills `buf[0..len)` with the next `len` link bytes and leaves the rest; a failed one changes nothing and consumes nothing |
| Platform.Board.RandomWord | PROJECT.c:99 | each RNG call returns the next word of the RNG stream |
| Platform.Board.Sha256 | PROJECT.c:80-90 | a hash returns `HashAt` of its data and advances the call counter by the calls it made |
| Platform.Board.EccImportX963 | PROJECT.c:153 | the key import fails exactly when its call faults; it is logged with the key |
| Platform.Board.EccSetCurve | PROJECT.c:157 | setting the curve fails exactly when its call faults |
| Platform.Board.EccVerifyHash | PROJECT.c:162-163 | `ret` is 0 unless the call faults; `verify_res` is 1 exactly when the call ran and the signature is valid for this key and digest |
| Platform.Board.SeInitialize | PROJECT.c:226 | `atcab_init` reports the status of its call |
| Platform.Board.SeGenerateKey | PROJECT.c:62 | on success the device's public key is written to the buffer; on failure the buffer is unchanged |
| Platform.Board.Ecdh | PROJECT.c:75 | `atcab_ecdh` reports its call's status and yields the ECDH secret of the slot-0 key with the peer key |
| Platform.Board.Sign | PROJECT.c:132 | `atcab_sign` reports its call's status and yields an ECDSA signature of the given digest |
| Platform.Board.AesInitialize | PROJECT.c:106 | AES init fails exactly when its call faults |
| Platform.Board.AesGcmSetKey | PROJECT.c:109 | setting the GCM key fails exactly when its call faults; it is logged with the key |
| Platform.Board.AesGcmEncrypt | PROJECT.c:113 | returns 0 or -1 as the call succeeds or faults, the GCM ciphertext of the plaintext under key and IV, and the tag over that ciphertext |
| Platform.Board.ConsoleSend | PROJECT.c:201 | an unchecked console transmit only logs its data |
| Platform.Board.ConsoleReceive | PROJECT.c:208 | a successful console receive delivers the next console byte; a failed one delivers nothing and consumes nothing |
| Platform.Board.DelayMs | PROJECT.c:238 | a delay is logged with its length |
| Platform.Board.ErrorHandler | PROJECT.c:387-390 | `Error_Handler` is logged as the halt |
| Random.RandomBytes | PROJECT.c:96-102 | the fill writes exactly `len` bytes; byte `i` is byte `i % 4` of RNG word `i / 4` |
| Random.RandomBytesAt | PROJECT.c:97-100 | offset `k` of chunk `m` is byte `k` of the chunk's word, so a shorter last chunk gets the first bytes of its word |
| Console.ReadLine | PROJECT.c:207-213 | a line read stores at most `room` (127) characters |
| Console.StoredNext | PROJECT.c:208-212 | one more successful read of a byte that is no terminator extends the stored characters |
| Console.ReadLineStores | PROJECT.c:207-213 | stored character `i` is console byte `pos + i`, read by a receive that did not fail, and is neither CR nor LF |
| Console.ReadLineStops | PROJECT.c:207-214 | a broken read stopped at a failing receive while there was room; a complete read that did not fill its room stopped at a CR or LF that was received |
| Console.StoredTail | PROJECT.c:208-212 | the characters after the first were delivered by the following reads |
| Console.ReadLineStep | PROJECT.c:208-213 | a successful read of a non-terminator stores that byte before the rest of the line |
| Console.ReadLineFrom | PROJECT.c:207-213 | once the first characters read are `stored`, the line is `stored` followed by the rest of the read, and ends the same way |
| Console.LineBreaks | PROJECT.c:208 | the read ends broken at the first failing receive, with what it stored before |
| Console.LineEnds | PROJECT.c:209 | the read ends at the first CR or LF, which is not stored |
| Console.LineFills | PROJECT.c:207 | the read ends after 127 stored characters without reading a terminator |
| Console.Echoes | PROJECT.c:208-212 | each stored character contributes one receive and one echo event |
| Console.EchoesAt | PROJECT.c:208-212 | character `i` is received as event `2i` and echoed as event `2i + 1` |
| Console.EchoesNext | PROJECT.c:211-212 | storing one more character appends its receive and its echo |
| Console.StoreNext | PROJECT.c:205-212 | a zeroed buffer holding the stored characters holds one more once the next zero is overwritten |
| Console.ReadingNext | PROJECT.c:208-213 | a stored and echoed byte keeps the loop state: counters one further, buffer still the characters followed by zeros, trace one receive and echo longer |
| Console.ReadingBreaks | PROJECT.c:208 | a failing receive makes `receive_user_input` return -1 with the characters so far in the buffer |
| Console.ReadingEnds | PROJECT.c:209-214 | a CR or LF makes it return the number of stored characters |
| Console.ReadingFills | PROJECT.c:207-214 | a full buffer makes it return 127 |
| Protocol.AbortStatus | PROJECT.c:169-197 | the status of an attempt whose step `i` failed first: TX_FAIL for a send, RX_FAIL for the key and peer-challenge receives, FUNC_FAIL inside the verification, GEN_FAIL for a failed hash or signing, the element's status for ECDH |
| Protocol.OutcomeJoin | PROJECT.c:169-197 | steps that all succeeded followed by the next steps are one run, with the later steps' status |
| Protocol.OutcomeWiden | PROJECT.c:169-197 | a run that stopped early is also a run of any longer list of steps |
| Protocol.StopInOpening | PROJECT.c:170-180 | an attempt stopped in the opening is a complete attempt with its data |
| Protocol.OpeningThenAuth | PROJECT.c:169-197 | a successful opening followed by the verification and closing steps is an attempt of all fourteen steps, with their data |
| Protocol.StopInVerify | PROJECT.c:181-183 | an attempt that failed anywhere in the verification returns FUNC_FAIL |
| Protocol.VerifyThenClose | PROJECT.c:181-196 | a verified peer followed by the closing steps is a run of steps 3-13 |
| Protocol.StopInResponse | PROJECT.c:185-194 | an attempt stopped while answering the peer's challenge is a run of the closing steps |
| Protocol.ResponseThenDerive | PROJECT.c:185-196 | an answered challenge followed by the key derivation is a run of steps 8-13 |
| Protocol.VerifySteps | PROJECT.c:135-167 | verification that stopped after one step gave RX_FAIL, after two GEN_FAIL, after more FUNC_FAIL; it succeeded exactly when all five steps did |
| Protocol.ResponseSteps | PROJECT.c:185-194 | a failed receive of the peer challenge gives RX_FAIL; otherwise the signed reply's status |
| Messaging.SigningSteps | PROJECT.c:262-268 | the firmware goes on after a sent signature and halts right after a failed hash, signing or signature send |
| Messaging.HaltInFrames | PROJECT.c:256-260 | a failed frame send halts before anything is signed |
| Messaging.FramesThenSigning | PROJECT.c:256-268 | three sent frames followed by the signing steps form the sending run |
| Messaging.HaltInEncrypt | PROJECT.c:252-254 | a failed `encrypt_message` halts before anything is sent |
| Messaging.EncryptThenSend | PROJECT.c:252-268 | a successful encryption followed by the sending steps forms the whole message run |
| Messaging.MessageHalts | PROJECT.c:252-268 | a message send reaches `Error_Handler` at most once, only as its last interaction, and exactly when it halts |
| Retry.RetriedDelays | PROJECT.c:233-239 | the retry loop waits once per failed attempt but the last, so never more than MAX_RETRIES - 1 times |
| Retry.BackoffsDelays | PROJECT.c:235-238 | each failed attempt before the last is followed by exactly one delay, so they hold one delay per failure |
| Retry.AttemptNoDelays | PROJECT.c:169-197 | a key-exchange attempt contains no delay |
| Retry.RetriedEnds | PROJECT.c:233-239 | the retry loop ends in `Error_Handler` exactly when its last attempt failed; after a success it ends with the successful hash of the shared secret |
| Retry.SuccessAuthenticates | PROJECT.c:169-197 | a successful attempt whose answers were logged sent our key and our challenge, received the peer key, received a signature that checks under that peer key over the SHA-256 of OUR challenge, sent a signature the element made over the SHA-256 of the peer's challenge, and hashed the ECDH secret shared with that same peer key |
| Retry.ForgedSignatureFails | PROJECT.c:163-183 | a peer signature that does not check under the received key over the SHA-256 of our challenge ends the attempt right after the verification, with FUNC_FAIL |
| Retry.BackoffsNext | PROJECT.c:235-238 | one more failed attempt and its delay extend the loop's trace and keep every recorded attempt a failure |
| Rounds.FlattenNext | PROJECT.c:244-269 | one more pass appends its read and its send to the loop's trace |
| Rounds.PassesNext | PROJECT.c:245-268 | a pass of the right shape whose IV was drawn at the loop's starting RNG position or later keeps the loop's invariant |
| Rounds.FlattenHalts | PROJECT.c:244-269 | a loop whose last pass halted has `Error_Handler` as its last interaction |
| Rounds.ChainedNext | PROJECT.c:244-245 | a pass that reads from where the earlier passes stopped extends the chain to where its own read stopped |
| Rounds.ChainedAt | PROJECT.c:244-245 | in a chained loop the first pass reads from the loop's starting position, and every later pass from right after the bytes the previous pass's read took |
| Rounds.IvsNext | PROJECT.c:250 | a pass draws its IV from RNG words after those of the earlier passes |
| Rounds.IvsBound | PROJECT.c:250 | every IV window drawn so far lies below the RNG position |
| Rounds.IvsDisjoint | PROJECT.c:250 | the IV of an earlier message ends before that of a later one starts, so no RNG word goes into two IVs |
| Firmware.Session.constructor | PROJECT.c:33-39 | the seven buffers are distinct, have their declared sizes and are zero |
| Firmware.Session.GenerateAndStoreKeypair | PROJECT.c:61-63 | returns the element's status; on success `device_pubkey` holds the device's public key, otherwise it is unchanged |
| Firmware.Session.Boot | PROJECT.c:226-231 | `atcab_init` then key generation; the firmware halts right after the first failure, goes on exactly when both succeed, and then holds the device key |
| Firmware.Session.GenerateRandom | PROJECT.c:96-102 | draws `ceil(len/4)` RNG words, `buf[..len]` becomes `RandomBytes` of them, the rest of `buf` is unchanged |
| Firmware.Session.CopyWord | PROJECT.c:100 | the first `n` bytes of the word, least significant first, go to `buf[at..at+n)`, nothing else changes |
| Firmware.Session.SendData | PROJECT.c:69-71 | returns ATCA_SUCCESS exactly when the transmit's call does not fault, and ATCA_TX_FAIL otherwise; the transmit is logged with its data and result |
| Firmware.Session.ReceiveData | PROJECT.c:65-67 | returns ATCA_SUCCESS exactly when the receive's call does not fault, with the next `len` link bytes in the buffer and the link `len` bytes further on; otherwise ATCA_RX_FAIL with the buffer and the link position unchanged |
| Firmware.Session.DeriveSharedSecret | PROJECT.c:73-94 | ECDH on `peer_pubkey`, then SHA-256 of the secret; on success `aes_key` is the first 16 digest bytes, otherwise unchanged, with the element's status or GEN_FAIL |
| Firmware.Session.SignMessage | PROJECT.c:118-133 | hashes the message, then signs that digest; a failed hash gives GEN_FAIL without signing, otherwise the element's status and signature |
| Firmware.Session.VerifyPeerPublicKey | PROJECT.c:135-167 | receives the signature, hashes OUR challenge, imports the received peer key and checks the signature over that hash; RX_FAIL, GEN_FAIL or FUNC_FAIL by where it stopped |
| Firmware.Session.CheckPeerSignature | PROJECT.c:139-166 | the checks after the signature arrived, in order, stopping at the first failure |
| Firmware.Session.OpenExchange | PROJECT.c:170-180 | device key out, peer key into `peer_pubkey`, a challenge of the next RNG words out (and exactly those words drawn once the challenge was made); TX_FAIL or RX_FAIL where it stopped; `peer_challenge` and `aes_key` are untouched |
| Firmware.Session.AnswerChallenge | PROJECT.c:185-194 | receives the peer challenge, signs it and sends the signature, with RX_FAIL, GEN_FAIL or TX_FAIL where it stopped; `peer_challenge` changes only when its receive succeeded |
| Firmware.Session.ReceiveChallenge | PROJECT.c:185-187 | the peer challenge arrives in `peer_challenge` or the receive fails and leaves `peer_challenge` as it was |
| Firmware.Session.SignAndReply | PROJECT.c:188-194 | the signature of the peer challenge goes out; GEN_FAIL for any signing failure, TX_FAIL for the send |
| Firmware.Session.AnswerAndDerive | PROJECT.c:185-196 | the answer, then the key derivation; `aes_key` changes only on success |
| Firmware.Session.FinishExchange | PROJECT.c:181-196 | verification (any failure FUNC_FAIL), then the answer and the derivation; `peer_challenge` changes only when its receive succeeded |
| Firmware.Session.PerformKeyExchange | PROJECT.c:169-197 | a prefix of the fourteen steps on the right data, stopping at the first failure with its status, each library answer logged as the oracles give it (`Logged`); the challenge is made of the RNG words at the entry position, which are drawn exactly when the challenge was made; each buffer changes only once the step that fills it succeeded; on success `aes_key` is SHA-256 of the ECDH secret with the received peer key, truncated to 16 bytes |
| Firmware.Session.EstablishSession | PROJECT.c:233-239 | failed attempts each followed by a one-second wait, at most MAX_RETRIES attempts in all, the last followed by `Error_Handler` if it failed too; every attempt logged the oracles' answers; the last attempt ran on the data left in the buffers (`Retry.Exchanged`), and its challenge is the RNG words at `challengeAt`, no earlier than the loop's entry, after which the RNG position moved by exactly those words; success leaves the derived key |
| Firmware.Session.BackOff | PROJECT.c:235-238 | after a failed attempt the firmware halts exactly when `retries` has reached MAX_RETRIES, and otherwise waits 1000 ms; the exchange buffers are untouched |
| Firmware.Session.Handshake | PROJECT.c:233 | one attempt as the retry loop sees it: its trace, its shape, the data it ran on (`Retry.Exchanged`), the oracles' answers logged, the challenge made of the RNG words at the entry position and the RNG words drawn, and, on success, the derived key |
| Firmware.Session.ReceiveUserInput | PROJECT.c:199-215 | prompt, zeroed buffer, then the line: -1 exactly when the read broke, else its length; the buffer holds the line followed by zeros; the console position moves past exactly the bytes the read took |
| Firmware.Session.ReadInput | PROJECT.c:207-214 | the loop stores and echoes exactly the `ReadLine` characters, returns as `LineStored` says and leaves the console position after the bytes it took |
| Firmware.Session.EchoAndStore | PROJECT.c:211-212 | echoes the byte and writes it at `rx_buffer[idx]` only |
| Firmware.Session.EncryptMessage | PROJECT.c:104-116 | init, key, encrypt from `aes_key` and `iv`; -1 when init or key setup fails; on 0 the GCM ciphertext and tag |
| Firmware.Session.SendFrames | PROJECT.c:256-258 | IV, tag, ciphertext in this order, stopping at the first failed send |
| Firmware.Session.Run | PROJECT.c:226-269 | start-up, the retried key exchange, then the message loop, each only when the one before it did not halt; every attempt logged the oracles' answers; the last attempt ran on the data left in the buffers and its challenge is fresh RNG words; after a successful exchange the device key is in place, `aes_key` still holds the derived key when the loop ends, every pass is `Rounds.PassShape` under that key with its IV from RNG words after the challenge's, each pass reads from where the previous one stopped, and the messages' IV words are disjoint |
| Firmware.Session.Online | PROJECT.c:233-269 | the retry loop and, once it succeeded, the message loop: every attempt logged the oracles' answers, the last attempt ran on the data left in the buffers with a challenge of fresh RNG words, every pass is `Rounds.PassShape` under the derived key with its IV drawn after the challenge, and the passes are chained by console position |
| Firmware.Session.MessageLoop | PROJECT.c:244-269 | runs all `rounds` passes unless it halts; only the last pass halts; each pass is `Rounds.PassShape`: the line it read, its length, the prompt and echoes, and for a non-empty line the message run of exactly those characters under `aes_key` with the IV from RNG words drawn after the loop began, its library answers logged; each pass reads from where the previous one stopped (`Rounds.Chained`); IV windows never overlap |
| Firmware.Session.Pass | PROJECT.c:245-268 | one read followed by its send: the line `ReadLine` gives from the console position, `len` -1 for a broken read and the line's length otherwise, and for `len > 0` the message run of that line sealed under `aes_key` with the IV made of the RNG words it drew; nothing is drawn or sent for `len <= 0`; the console position ends right after the bytes the read took |
| Firmware.Session.HandleMessage | PROJECT.c:246-268 | `len <= 0` sends nothing and draws nothing; otherwise a fresh RNG IV and the message run of `rx_buffer[..len]` under `aes_key`; halts exactly when the trace ends in the halt |
| Firmware.Session.SealAndSend | PROJECT.c:252-268 | the nine steps (encryption, three frames, hash, signing, signature send) on GCM ciphertext and tag of the plaintext, halting right after the first failure |
| Firmware.Session.EncryptOrHalt | PROJECT.c:252-254 | `encrypt_message`, then `Error_Handler` exactly when it did not return 0 |
| Firmware.Session.SendOrHalt | PROJECT.c:256-268 | the frames, then the signing steps, halting right after the first failure |
| Firmware.Session.FramesOrHalt | PROJECT.c:256-260 | the three frames, then `Error_Handler` exactly when one failed |
| Firmware.Session.SignOrHalt | PROJECT.c:262-268 | signs the plaintext's hash and sends the signature, halting right after the first failure |

## Left out

- Peripheral and clock set-up (`HAL_Init`, `SystemClock_Config`, the `MX_*_Init` functions, PROJECT.c:218-224 and 272-385) is hardware configuration with no protocol logic.
- `config.h` is not part of this model. The I2C configuration of the secure element is passed to `atcab_init` unchanged.
- SHA-256, ECDH, ECDSA and AES-GCM are uninterpreted oracles, fixed per run. Only their output lengths are modelled, and the GCM ciphertext byte `i` depends only on key, IV, `i` and plaintext byte `i`.
- Timeouts: `COMM_TIMEOUT_MS` and `HAL_MAX_DELAY` are not modelled. A receive or transmit just succeeds or fails, as the fault oracle says.
- A failed link or console receive is modelled as writing nothing and consuming no input. A HAL receive that times out part-way may have written some bytes, which the firmware never reads.
- Calls whose result the firmware ignores always succeed in the model: the prompt and echo transmits, and `HAL_RNG_GenerateRandomNumber`.
- wolfSSL failure codes are all written -1. The firmware only compares them with 0.
- `wc_ecc_init`, `wc_ecc_free` and `wc_AesFree` release library state only. They are not modelled.
- `Error_Handler` disables interrupts and spins forever. In the model it logs `Halt` and its caller returns a halted result, so nothing follows it in the trace.
- `main`'s `while (1)` message loop runs for at most `rounds` passes (`Firmware.Session.MessageLoop`, `Firmware.Session.Run`). Nothing is claimed about passes beyond `rounds`.
- The `encrypted` and `tag` buffers of `main` are returned as values, not as arrays. Nothing else reads them.
- Firmware.Session.MessageLoop: the passes are chained by console position but not by call index. The number of checked calls a message run makes depends on where it stopped and on how many hash calls ran, so the loop states only the call index each pass's read started from, not that it equals the previous pass's end.
- Platform.Logged: it ties hash, signature-check, ECDH and signing events to the oracles. A link or console event does not record its stream position, so its data is tied to the input stream only by the methods that make it (`ReceiveData`, `ReadInput`).
- The prompt says "max 128 chars" but `receive_user_input` stores at most 127 characters (`RX_BUFFER_SIZE - 1`). The model follows the code.
