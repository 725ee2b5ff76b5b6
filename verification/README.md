# LowBand transport and daemon: verified model

A Dafny model of the I/O-free cores of LowBand's transport (LBTP), crypto and daemon crates, with proofs of
what they promise over every input, every run and every interleaving. `dafny verify dfyconfig.toml` checks all of it.

Each component is a value-level specification (datatypes and functions), the properties proved about it, and, where
the code mutates an object, a class whose methods are proved to compute exactly that specification.

| file | component |
|---|---|
| `Pacer.dfy`, `PacerRates.dfy` | channel-priority token-bucket pacer: nine queues, byte budget, restart-from-top drain; what it comes to in bits per second |
| `NoiseIk.dfy`, `DatagramCipher.dfy` | Noise-IK handshake keyed by the session code; datagram cipher with rotation |
| `ChannelData.dfy` | TURN ChannelData framing |
| `TcpFallback.dfy` | length-prefixed framing over TCP and its incremental reassembler |
| `Adpcm.dfy` | IMA ADPCM voice codec |
| `XferCodec.dfy`, `ResumeLog.dfy`, `FileTransfer.dfy`, `TransferProgress.dfy`, `TransferAnswers.dfy`, `TornTransfer.dfy` | file-transfer frames; the resume file's progress log; the receiver with crashes; progress; its answers frame by frame; logs with a cut entry |
| `MeshNames.dfy`, `Mesh.dfy`, `MeshProgress.dfy` | mesh establishment over a room board as a step protocol: safety, freedom from deadlock, termination |
| `DelayGradient.dfy`, `DelayTrends.dfy`, `LossModel.dfy`, `RateControl.dfy` | delay trendline and what it reports of timestamps, Gilbert-Elliott loss estimation, cellular hysteresis and loss backstop |
| `RetryTimer.dfy`, `RetryControllers.dfy`, `IceGatherer.dfy` | one retry timer and the five controllers that are instances of it |
| `SeqExpander.dfy` | 47-bit sequence numbers from 16 wire bits |
| `Prelude.dfy` | option and result types, little-endian integers, a few arithmetic facts |

## How the model reads the code

- `f64` is `real`; rounding, infinities and NaN are not part of the model. `f64::EPSILON` is its exact value 2^-52.
- Integers are unbounded except where a width matters: 16-bit wire sequence numbers and the 47-bit clamp, the 64-bit
  nonce counter, saturating 32-bit counters, the 16- and 32-bit length casts of the codecs, 16-bit samples.
- Shifts and masks on non-negative values are divisions and remainders; `low | (code << 4)` and the ICE priority
  fields are sums, which `PriorityFieldsDisjoint` justifies on 32-bit words.
- Cryptography is symbolic: hashes, key derivations, Diffie-Hellman results and sealed boxes are free terms, so two are
  equal exactly when they were built the same way; Diffie-Hellman has an order-free normal form (Noise Protocol
  Framework revision 34, sections 5.2 and 7.5; section 2.8 of RFC 8439). Random ephemerals are parameters.
- Clocks, randomness, sockets and files are parameters or values: elapsed nanoseconds, tokens and nonces, datagrams
  with their source, the destination file and the sidecar's progress log as byte strings.
- The file hash is a parameter; where identity of contents matters it is taken to have no collisions among the strings
  in play, which are the offered files, their chunks and the fragments that arrive.
- The nonce counter wraps around at 2^64, as an unchecked build does.
- In the mesh every node takes its peers in some fixed order (the code uses id order) and the network loses nothing;
  timeouts never fire. An address names one socket of the whole party: the code publishes the wildcard address it bound,
  so this is the case of nodes that share a host. Nodes and sockets are numbered; `BoardSearch` and `BoardNamesDedicatedSocket` tie the
  numbered board to the tagged strings the code writes and searches.

## Where the code and its comments differ

The model follows the code.

- `seq.rs` documents a result "whose lower 16 bits equal" the wire value. At the clamps they do not: `ClampLosesWireBits`
  is a case, `CongruentUnlessClamped` the exact condition.
- A retry period lasts one tick longer than its constant, since the timer is re-armed on the tick after it reaches zero.
  Giving up comes at tick 44 for path migration and MTU probes (comments: about 4 s at 10 Hz), 30 for TURN (comment: 2.5 s),
  60 for hole punching, and ICE falls through STUN at 18 (comment: 1.5 s) and completes at 51.
- The loss backstop's floor is documented as a bound the rate is never pushed below. A stream already below it is pushed up
  to it by a cut: `CutCanRaise` is a case; `FiringMovesRate`, `NeverRaisesExactly` and `ClosedFormExactly` give the
  exact conditions.
- File names are cut to 16 bits of length on encoding; frames outside the caps are encoded without complaint and do not
  come back: `LongNameIsLost` is a case, `RoundTripExactly` the exact condition.
- The batch loss fit is the share of lost packets only when as many good runs as bad runs were recorded:
  `TrailingGoodRunMisleads` is a case, `BatchLoss` the exact condition.
- `enqueue` documents that accepted frames are sent. A frame above the burst cap of the rate never is, and blocks its channel:
  `AcceptedFrameStarves` is a case, `EmptiesExactly` the exact condition.
- `resume.rs` documents that a progress entry cut by a crash is dropped and its chunk sent once more. That is true of the next
  open (`CutEntryIsDropped`), and that session is sound and completes (`CompletesOnceAllArrived`, `SendFileDelivers`). But the
  file is reopened for appending without being cut back, so what that session records is read out of phase by the open after
  it: the log is spoiled. `CutEntryMisleads` and `CutEntryIsFatal` are a case; `ResumesExactly` and `CompletesAcrossExactly`
  give the exact condition on the log; the results over whole runs hold for every run that never resumes a spoiled log.
- `mtu.rs` has the transport enqueue each probe's padding on channel 8. The pacer refuses all three sizes: `ProbesRefused` is
  the case of each, `ProbeAcceptedExactly` the exact condition.
- `turn_relay.rs` speaks of restarting after failure once the direct path has recovered. No call leaves `Failed`: `FailedForGood`.

## Model

| member | source | states |
|---|---|---|
| Pacer.RestartIsSinglePass | core/lbtp/src/pacer.rs:340-372 | Processing the first ready channel and restarting from the top leaves the outcome of a single greedy pass over `PRIORITY_ORDER` unchanged: blocked channels stay blocked as tokens and space shrink. |
| Pacer.TokenBucketPacer.DrainTick | core/lbtp/src/pacer.rs:335-379 | The restart-from-top double loop terminates and leaves exactly the queues, tokens and frames of the single pass; `None` exactly when that pass admits nothing. |
| Pacer.DrainDatagram | core/lbtp/src/pacer.rs:314-379 | For every valid state: frames sorted by priority rank, envelope plus slots at most 1 200 bytes, tokens charged for data bytes only, and each channel contributes a prefix of its queue, in order. |
| Pacer.DrainLeavesNothingSendable | core/lbtp/src/pacer.rs:344-372 | Every front frame left behind costs more than the leftover tokens or does not fit the leftover datagram space. |
| Pacer.DrainNoneExactly | core/lbtp/src/pacer.rs:327-379 | Nothing comes out if and only if no queue's front frame is affordable. |
| Pacer.DrainMatchesRepeatedDequeue | core/lbtp/src/pacer.rs:300-379 | When the frames repeated `dequeue` calls would release fit one datagram, the drain returns that same sequence. |
| Pacer.PassAccounts | core/lbtp/src/pacer.rs:342-369 | From any round in progress: the slot total stays the sum of the admitted slots and within the payload limit, tokens plus data sent is constant, admitted frames are only appended to. |
| Pacer.PassSorted | core/lbtp/src/pacer.rs:329-372 | A pass started at any rank appends frames in priority order. |
| Pacer.PassConserves | core/lbtp/src/pacer.rs:342-372 | Per channel, admitted frames followed by the remaining queue is what there was: nothing lost, repeated or reordered. |
| Pacer.PassExhausts | core/lbtp/src/pacer.rs:342-372 | A finished pass leaves every channel blocked, whatever it started from. |
| Pacer.FirstAffordable | core/lbtp/src/pacer.rs:300-312 | The first priority position whose front frame the balance covers: none before it qualifies. |
| Pacer.DequeuePicksHighestPriority | core/lbtp/src/pacer.rs:290-312 | Whenever some front frame is affordable, `dequeue` returns a frame of that rank or a higher priority one. |
| Pacer.TokenBucketPacer.Dequeue | core/lbtp/src/pacer.rs:300-312 | Returns and removes that frame, charges its data bytes, changes nothing otherwise. |
| Pacer.StepPromise | core/lbtp/src/pacer.rs:249-379 | What every operation keeps: balance within [0, cap], cap equal to 5 ms of the rate, spending covered by balance plus credit, and queue + accepted = emitted + queue per channel. |
| Pacer.RunBudget | core/lbtp/src/pacer.rs:249-379 | Over every run, balance left plus data bytes emitted is at most the starting balance plus the sum of rate times elapsed time. |
| Pacer.RunConserves | core/lbtp/src/pacer.rs:282-379 | Over every run from every valid state, per channel, queued plus accepted frames equal emitted followed by queued frames. |
| Pacer.TokensWithinCap | core/lbtp/src/pacer.rs:249-272 | In every reachable state the balance lies between zero and the burst cap of the current rate. |
| Pacer.WindowRateBound | core/lbtp/src/pacer.rs:249-379 | In any window of any run, data bytes sent are at most the burst cap at the window's start plus the credit of rate times elapsed over 8e9. |
| Pacer.FifoConservation | core/lbtp/src/pacer.rs:282-379 | From a fresh pacer, per channel, accepted frames are the emitted ones followed by the queued ones. |
| Pacer.EmptiesExactly | core/lbtp/src/connection.rs:142-145 | At any fixed positive rate and tick length, repeated advance-and-drain empties a channel if and only if each of its frames is at most the burst cap, whatever waits on the other channels. |
| Pacer.DrainsExactly | core/lbtp/src/connection.rs:142-145 | All queues are empty after some number of such ticks if and only if every waiting frame is at most the burst cap. |
| Pacer.OversizedStays | core/lbtp/src/pacer.rs:344-349 | A channel holding a frame above the burst cap never empties, for any number of ticks. |
| Pacer.AcceptedFrameStarves | core/lbtp/src/pacer.rs:281-288 | The documented 'accepted frames are sent' fails: at 150 kbps an accepted 94-byte frame is never sent. |
| Pacer.TokenBucketPacer.constructor | core/lbtp/src/pacer.rs:233-243 | Empty queues, zero tokens, cap derived from the rate. |
| Pacer.TokenBucketPacer.SetRate | core/lbtp/src/pacer.rs:249-253 | For every rate, negative ones included, rate and cap are replaced together and a surplus above the new cap is cut at once. |
| Pacer.TokenBucketPacer.Advance | core/lbtp/src/pacer.rs:269-272 | Credit of rate times elapsed, capped, queues untouched; `PacerRates.AdvanceExactly` gives it in bits. |
| Pacer.TokenBucketPacer.Enqueue | core/lbtp/src/pacer.rs:282-288 | Accepted if and only if the data is at most 1 179 bytes; then appended to its own channel, otherwise nothing changes. |
| PacerRates.RankOrder | core/lbtp/src/pacer.rs:80 | Control goes before input, cursor, audio, screen, video, reliable, transfer and probes, in this order. |
| PacerRates.DatagramCeiling | core/lbtp/src/pacer.rs:49-69 | 19 bytes of envelope, 2 per frame and the data of what a tick sends come to at most 1 200 bytes. |
| PacerRates.AdvanceExactly | core/lbtp/src/pacer.rs:269-272 | From any valid state, 8e9 times the balance after `advance(ns)` is the smaller of 8e9 times the balance before plus rate × ns, and rate × 5 000 000. |
| PacerRates.SetRateExactly | core/lbtp/src/pacer.rs:249-253 | The balance is kept up to 5 ms of the new rate, in bits. |
| PacerRates.EnqueueExactly | core/lbtp/src/pacer.rs:282-288 | Accepted exactly up to 1 179 data bytes, at the end of its own channel and of no other. |
| PacerRates.FixedRateGrant | core/lbtp/src/pacer.rs:269-272 | Over any run without a rate change, 8e9 times the credit is rate times the elapsed nanoseconds. |
| PacerRates.FixedRateBound | core/lbtp/src/pacer.rs:249-379 | In any window without a rate change, after any history, the data bits sent are at most rate × (5 ms + elapsed). |
| PacerRates.SaturatedLedger | core/lbtp/src/pacer.rs:335-379 | While in every tick some frame waits that the balance does not cover and the bucket has room for the tick's credit, bits sent plus balance left are exactly the balance at the start plus rate × elapsed. |
| PacerRates.SaturatedRate | core/lbtp/src/pacer.rs:335-379 | So a saturated pacer sends at least rate × (elapsed − 5 ms), and exactly rate × elapsed up to the change of its balance. |
| NoiseIk.DhCommutes | core/crypto/src/noise_ik.rs:96-99 | Two honest key pairs derive the same shared secret from either side. |
| NoiseIk.NonceBytesInjective | core/crypto/src/noise_ik.rs:270-275 | 64-bit counters have pairwise different 12-byte nonces. |
| NoiseIk.NonceWraps | core/crypto/src/noise_ik.rs:270-275 | Beyond 64 bits the nonce starts over. |
| NoiseIk.NonceLayout | core/crypto/src/noise_ik.rs:270-275 | Four zero bytes, then the counter modulo 2^64 with the least significant byte first. |
| NoiseIk.Message1AcceptedExactly | core/crypto/src/noise_ik.rs:302-447 | For all keys and codes, an honest first message is accepted if and only if both session codes are equal and the initiator aimed at this responder's static key; the responder then holds the caller's static and ephemeral keys, and otherwise reports a failed decryption. |
| NoiseIk.HandshakeAgreement | core/crypto/src/noise_ik.rs:302-487 | After the honest reply both sides hold the same transcript hash and traffic keys, the two directions' keys differ, each knows the other's static key and its own role, and each send key is the other's receive key. |
| NoiseIk.AcceptedReplyMeansAgreement | core/crypto/src/noise_ik.rs:302-487 | Whatever first message a responder processed, if the initiator accepts that responder's reply then the responder saw exactly the initiator's message under the same code and key, and both agree on keys and transcript. |
| NoiseIk.AlteredReplyRefused | core/crypto/src/noise_ik.rs:346-382 | A reply with one of its two fields replaced is refused. |
| NoiseIk.ResponderTranscript | core/crypto/src/noise_ik.rs:407-447 | After any accepted first message the responder's transcript hash is the chain of protocol name, code, own key and the three received fields. |
| NoiseIk.ResponderAuthenticates | core/crypto/src/noise_ik.rs:407-447 | Whenever a responder accepts a first message as coming from the holder of `s`, the key of its payload box is made of the secret shared by `s` and the responder's static key and of the one shared with the ephemeral key. |
| NoiseIk.InitiatorAuthenticates | core/crypto/src/noise_ik.rs:346-382 | Whenever an initiator accepts a reply, the key of its box is made of the chaining key so far and of both its own secrets' results with the reply's ephemeral key. |
| NoiseIk.KeySchedule | core/crypto/src/noise_ik.rs:302-487 | es keys the static key's box, es and ss the first payload, es, ss, ee and se the second; the traffic keys are the two halves derived from all four in that order, the first from initiator to responder, the second back; all boxes use nonce 0. |
| NoiseIk.WrongLengthsRefused | core/crypto/src/noise_ik.rs:346-421 | A first message not of 96 bytes and a reply not of 48 are refused with the length expected. |
| NoiseIk.BoxesInARow | core/crypto/src/noise_ik.rs:222-255 | Boxes sealed in a row under one key carry the nonces n, n+1, n+2, …, and a state that has seen the same opens each to its payload. |
| NoiseIk.SymmetricState.constructor | core/crypto/src/noise_ik.rs:195-199 | Hash and chaining key start as the protocol name, no key, counter zero. |
| NoiseIk.SymmetricState.MixHash | core/crypto/src/noise_ik.rs:201-206 | The transcript hash absorbs the data; nothing else changes. |
| NoiseIk.SymmetricState.MixKey | core/crypto/src/noise_ik.rs:209-218 | New chaining key and cipher key from the old chaining key, counter reset, transcript kept. |
| NoiseIk.SymmetricState.EncryptAndHash | core/crypto/src/noise_ik.rs:222-236 | Seals under the transcript hash when a key is set, passes through otherwise; the output is hashed and the counter advanced. |
| NoiseIk.SymmetricState.DecryptAndHash | core/crypto/src/noise_ik.rs:240-255 | Opens exactly what the mirrored state sealed and then equals it; on failure the counter has advanced and the transcript has not. |
| NoiseIk.NoiseIkInitiator.New | core/crypto/src/noise_ik.rs:302-339 | State and first message equal the specification of the initiator's token sequence e, es, s, ss. |
| NoiseIk.NoiseIkInitiator.ReceiveMessage2 | core/crypto/src/noise_ik.rs:346-382 | Result equals the specification of tokens e, ee, se, with the length check first. |
| NoiseIk.NoiseIkResponder.ReceiveMessage1 | core/crypto/src/noise_ik.rs:407-447 | Result equals the responder's specification, for every message, ill-formed ones included. |
| NoiseIk.NoiseIkResponder.SendMessage2 | core/crypto/src/noise_ik.rs:454-487 | Outcome and reply equal the responder's specification. |
| DatagramCipher.KeyNoncePairsNeverRepeat | core/crypto/src/relay_guard.rs:152-224 | Over every run of seals and rotations to fresh keys with a counter below 2^64, no two datagrams use the same key with the same nonce. |
| DatagramCipher.PairsRepeatExactly | core/crypto/src/relay_guard.rs:152-224 | With fresh keys, some pair of key and nonce repeats if and only if some key seals more than 2^64 datagrams. |
| DatagramCipher.SealedInEpoch | core/crypto/src/relay_guard.rs:152-181 | Every datagram of every run was sealed under the key of its epoch with the nonce of its place in that epoch, counted from zero after every rotation. |
| DatagramCipher.OpensExactlyUnderItsKey | core/crypto/src/relay_guard.rs:187-198 | Every datagram of every run opens to its plaintext under the key that sealed it and to nothing under any other key. |
| DatagramCipher.SessionDelivers | core/crypto/src/udp_session.rs:82-95 | After any completed handshake each direction, with its own traffic, rotations to fresh keys and arrivals under any loss, duplication or reordering, opens an arrival to its plaintext exactly when the receiver has rotated as often as the sender had, and to nothing otherwise. |
| DatagramCipher.Cipher.constructor | core/crypto/src/relay_guard.rs:130-132 | Starts an epoch at counter zero. |
| DatagramCipher.Cipher.RotateKey | core/crypto/src/relay_guard.rs:152-156 | New key, counter back to zero. |
| DatagramCipher.Cipher.Seal | core/crypto/src/relay_guard.rs:164-180 | For every counter value: nonce from the 64-bit counter before the call, counter advanced and starting over at its end, key kept. |
| ChannelData.ExactInverse | core/lbtp/src/turn_relay.rs:356-388 | Bytes are the encoding of a channel and payload if and only if they decode to them and the payload is at most 1 200 bytes. |
| ChannelData.CutOrPaddedRefused | core/lbtp/src/turn_relay.rs:378-388 | Any proper prefix or extension of an encoded message is refused. |
| ChannelData.Layout | core/lbtp/src/turn_relay.rs:356-370 | Channel, then length, high byte first, then the payload; refused exactly above 1 200 bytes. |
| TcpFallback.FeedConcat | core/lbtp/src/tcp_fallback.rs:187-245 | For arbitrary bytes and any state, feeding a then b equals feeding a+b, in deliveries, state and rejection count. |
| TcpFallback.ChunksDoNotMatter | core/lbtp/src/tcp_fallback.rs:187-245 | Any division of a stream into pushes gives what one push of the whole gives. |
| TcpFallback.StreamRoundTrip | core/lbtp/src/tcp_fallback.rs:126-135 | For every list of datagrams up to 1 200 bytes and every split of their encodings, exactly the non-empty ones come out, in order, with no rejection. |
| TcpFallback.FeedDatagram | core/lbtp/src/tcp_fallback.rs:126-135 | One encoded datagram, read between frames, is delivered as itself, or not at all when empty. |
| TcpFallback.FeedBody | core/lbtp/src/tcp_fallback.rs:225-242 | Any number of body bytes up to the announced length can be read at once. |
| TcpFallback.FeedHeader | core/lbtp/src/tcp_fallback.rs:199-223 | So can any number of prefix bytes. |
| TcpFallback.Layout | core/lbtp/src/tcp_fallback.rs:126-135 | The length with its high byte first, then the datagram; refused exactly above 1 200 bytes. |
| TcpFallback.NextFrame | core/lbtp/src/tcp_fallback.rs:199-242 | Read from between two frames, for any bytes at all: a length above 1 200 is counted and reading goes on behind it, a frame that is all there is delivered unless empty, one that is not is kept for later. |
| TcpFallback.TcpReassembler.constructor | core/lbtp/src/tcp_fallback.rs:176-181 | Ready to read a prefix, nothing rejected. |
| TcpFallback.TcpReassembler.Push | core/lbtp/src/tcp_fallback.rs:187-245 | The block-copying loop delivers and leaves exactly what the byte-at-a-time machine does, and terminates on a lexicographic measure since an empty body consumes nothing. |
| TcpFallback.TcpReassembler.ReadPrefix | core/lbtp/src/tcp_fallback.rs:199-223 | One header round is a run of the byte machine; it always consumes a byte. |
| TcpFallback.TcpReassembler.ReadBody | core/lbtp/src/tcp_fallback.rs:225-242 | One body round is a run of the byte machine; it consumes nothing only when leaving an announced empty body. |
| Adpcm.LockStep | core/lowbandd/src/adpcm.rs:55-156 | For every sequence of frames, odd lengths included, the decoder ends in the encoder's state and has produced exactly the encoder's successive predictors; the types keep the index in 0..88 and the predictor in 16 bits. |
| Adpcm.QuantisationError | core/lowbandd/src/adpcm.rs:71-105 | In every state and for every sample: within two steps of the predictor the new error is at most step/8 + 2 despite clamping; otherwise it strictly shrinks. |
| Adpcm.StepError | core/lowbandd/src/adpcm.rs:71-105 | The same bound for every step size from 7 up, independent of the tables. |
| Adpcm.UnpackPack | core/lowbandd/src/adpcm.rs:55-69 | Unpacking the packed nibbles returns the codes, whatever their number. |
| Adpcm.PackLayout | core/lowbandd/src/adpcm.rs:57-69 | Byte k holds code 2k in its low half and code 2k+1 in its high half, or zero where there is none. |
| Adpcm.UnpackLength | core/lowbandd/src/adpcm.rs:121-135 | Decoding stops at the sample count or at the end of the bytes, whichever comes first. |
| Adpcm.StepAdapts | core/lowbandd/src/adpcm.rs:71-105 | For every state and sample: a difference below the step moves one place down the table, larger ones two, four, six or eight places up as they pass one quarter, one half and three quarters of a step more, within the ends of the table. |
| Adpcm.StepTable | core/lowbandd/src/adpcm.rs:15-24 | 89 steps from 7 to 32 767, each a tenth above the one before to within a unit, but for the last. |
| Adpcm.AdpcmEncoder.EncodeSample | core/lowbandd/src/adpcm.rs:71-105 | The successive approximation picks the specified code and moves the encoder exactly as the decoder will move on that code. |
| Adpcm.AdpcmEncoder.Encode | core/lowbandd/src/adpcm.rs:55-69 | The pending-nibble loop yields the packed codes and the state after them. |
| Adpcm.AdpcmDecoder.DecodeCode | core/lowbandd/src/adpcm.rs:137-156 | Moves the decoder as the specification moves the encoder; the sample is the new predictor. |
| Adpcm.AdpcmDecoder.Decode | core/lowbandd/src/adpcm.rs:121-135 | For every byte string and count, the predictors along the first `sample_count` nibbles, or all there are. |
| SeqExpander.NearestIsUnique | core/lbtp/src/seq.rs:115-121 | The signed wrap-around difference names the one number within [E-32768, E+32767] that has the wire bits. |
| SeqExpander.ExpandExactly | core/lbtp/src/seq.rs:102-121 | A number in range is recovered from its low 16 bits if and only if it lies in [E-32768, E+32767]. |
| SeqExpander.CongruentUnlessClamped | core/lbtp/src/seq.rs:102-121 | The result carries the wire bits if and only if the nearest candidate lies in 0..2^47-1, so that no clamp applied. |
| SeqExpander.ClampLosesWireBits | core/lbtp/src/seq.rs:121 | The documented 'lower 16 bits equal the wire value' fails at the clamp: expectation 0 and wire 0xFFFF give 0. |
| SeqExpander.ArrivalsRecovered | core/lbtp/src/seq.rs:115-128 | Every arrival sequence within the window is returned number by number, and the expectation ends at the running maximum plus one. |
| SeqExpander.RunExpected | core/lbtp/src/seq.rs:123-125 | For arbitrary wire input the expectation never decreases and never leaves 0..2^47. |
| SeqExpander.SequenceExpander.ExpandNext | core/lbtp/src/seq.rs:115-128 | Result and new expectation equal the specification; the result stays in range. |
| DelayGradient.RisingTogether | core/lbtp/src/delay.rs:243-261 | Chebyshev's sum inequality for a window: when x and y both rise, the centred product sum is not negative. |
| DelayGradient.SlopeSign | core/lbtp/src/delay.rs:243-269 | Over ascending send times, a rising delay never has a negative slope and a falling one never a positive slope. |
| DelayGradient.SlopeIsLeastSquares | core/lbtp/src/delay.rs:238-269 | Whenever a slope is computed, no line of any height and slope has a smaller squared error than the one through the means with that slope. |
| DelayGradient.RunKeepsTrend | core/lbtp/src/delay.rs:171-206 | One-sided delay changes keep the sliding window monotone in both coordinates and the slope's sign, over every run. |
| DelayGradient.OneSidedRunsClassify | core/lbtp/src/delay.rs:171-209 | A run whose delay change is never negative is never classified as underuse; one never positive, never as overuse. |
| DelayGradient.WiderGammaReportsLess | core/lbtp/src/delay.rs:196-209 | The slope is independent of the gamma multipliers, and whatever a larger gamma reports a smaller one reports too. |
| DelayTrends.QueueDirection | core/lbtp/src/delay.rs:171-209 | From the timestamps alone: if send times never fall and packets arrive at least as far apart as they were sent, the run is never underuse; if receive times never fall and they arrive at most as far apart, never overuse. |
| DelayTrends.ClassifiedExactly | core/lbtp/src/delay.rs:196-209 | From the second acknowledgement on: overuse exactly above 12.5 µs/ms times the multiplier, underuse exactly below its negative; a negative multiplier counts as zero. |
| DelayTrends.GapsAreNeverNegative | core/lbtp/src/delay.rs:178-186 | The delay change is the receive gap minus the send gap; a timestamp that goes back counts as no time passed. |
| DelayTrends.RunsKeepOrder | core/lbtp/src/delay.rs:171-195 | After any acknowledgements, timestamps in any order, the window holds at most 20 points in the order of their send times and ends with the newest. |
| DelayTrends.SlopeBetween | core/lbtp/src/delay.rs:243-269 | The least-squares slope is no flatter than the flattest and no steeper than the steepest stretch of its window. |
| DelayTrends.SpreadExactly | core/lbtp/src/delay.rs:243-266 | After any run the guard against a degenerate window triggers exactly when all send times in it are equal. |
| DelayTrends.DriftStates | core/lbtp/src/delay.rs:171-206 | The whole state along a constant drift: the smoothed change is (e − d)(1 − 0.9^n), points are spaced in milliseconds, and the window holds the last 20. |
| DelayTrends.DriftSlope | core/lbtp/src/delay.rs:171-269 | Along a rising drift the slope lies between the oldest and the newest smoothed change in the window, per millisecond between sends. |
| DelayTrends.ConstantDrift | core/lbtp/src/delay.rs:171-209 | Packets sent every d and received every e microseconds are overuse (underuse if e < d) as soon as the oldest smoothed change in the window exceeds 12.5 µs/ms times the multiplier, and normal as long as the newest does not. |
| DelayTrends.GrowingQueueIsOveruse | core/lbtp/src/delay.rs:171-209 | A case: three packets sent 20 ms and received 30 ms apart have slope 95 and are overuse. |
| DelayGradient.DelayGradientEstimator.ObserveAck | core/lbtp/src/delay.rs:171-209 | Every field after an acknowledgement equals the specification, first acknowledgement and full window included. |
| LossModel.BurstIsEmaOfCompletedRuns | core/lbtp/src/fec.rs:205-227 | The burst length is the moving average over exactly the maximal loss runs that a received packet has ended, in order (run lengths saturated at 32 bits). |
| LossModel.EstimatesStayInRange | core/lbtp/src/fec.rs:205-227 | In every reachable state loss is in [0, 1], burst length at least 1, and every outcome is counted. |
| LossModel.LossIsWeightedLosses | core/lbtp/src/fec.rs:205-211 | From the outcomes alone, for every run: the loss rate is (1−α)^n times the start plus the sum, over the lost packets, of α(1−α)^(packets since). |
| LossModel.CleanAndDead | core/lbtp/src/fec.rs:205-211 | After n received packets the loss is (1−α)^n times the start; after n lost ones 1 − (1−α)^n (1 − start). |
| LossModel.BurstIsWeightedRuns | core/lbtp/src/fec.rs:205-227 | Likewise the burst length is the faded start of 1 plus the weighted lengths of the completed loss runs. |
| LossModel.WarmExactly | core/lbtp/src/fec.rs:241-401 | Estimates are given out exactly from 30 observations, or 8 runs of each kind, on. |
| LossModel.FittedLossIsObservedLoss | core/lbtp/src/fec.rs:241-249 | For every warm reachable state the fitted model's steady-state loss is the observed loss, or 1 − 2^-52 if that is smaller, and its mean burst the observed one. |
| LossModel.MeanLossIsWeighted | core/lbtp/src/fec.rs:93-100 | For every model: loss times (a + b) is a·q + b·p. |
| LossModel.BatchLoss | core/lbtp/src/fec.rs:392-401 | The batch fit's loss weights totals by the opposite run counts; it is the plain share bad/(good+bad) if and only if both run counts are equal. |
| LossModel.TrailingGoodRunMisleads | core/lbtp/src/fec.rs:336-355 | A case: eight losses among seventeen packets, with a good run last, are fitted as a loss of 1/2. |
| LossModel.TallyBounds | core/lbtp/src/fec.rs:344-355 | Counted runs have length at least one and at most 32 bits, so the fitter's clamp to 1 never changes a mean. |
| LossModel.TallyCountsPackets | core/lbtp/src/fec.rs:344-355 | The fitter's sums are the numbers of packets received and lost that the runs tell of. |
| LossModel.GilbertElliottEstimator.ObserveOutcome | core/lbtp/src/fec.rs:205-227 | Every field after one outcome equals the specification. |
| LossModel.BurstStatsFitter.IngestAckRunLengths | core/lbtp/src/fec.rs:344-355 | The loop adds exactly the totals and counts of the non-empty runs. |
| RateControl.CountersAreStreaks | core/lbtp/src/cellular.rs:287-305 | After any verdicts the entry and exit counters are the lengths of the current streaks (saturated). |
| RateControl.ModeSwitchesExactly | core/lbtp/src/cellular.rs:287-305 | The mode turns on exactly at 20 consecutive bimodal ticks and off exactly at 50 consecutive clean ticks. |
| RateControl.DwellTimes | core/lbtp/src/cellular.rs:287-305 | On for at least 50 ticks and off for at least 20, for every verdict sequence. |
| RateControl.DecreasesSpaced | core/lbtp/src/cellular.rs:326-355 | In any run, a decrease granted in cellular mode comes at least 30 ticks after the previous granted one. |
| RateControl.DecreaseGate | core/lbtp/src/cellular.rs:326-355 | After a recorded decrease and any n ticks another is granted if and only if the mode is off or n is at least 30. |
| RateControl.FirstDecreaseGranted | core/lbtp/src/cellular.rs:264-277 | Before any decrease has been recorded one is granted after any ticks. |
| RateControl.CellularModeController.ControlTick | core/lbtp/src/cellular.rs:287-305 | All four fields after a tick equal the specification. |
| RateControl.CellularModeController.NoteDecrease | core/lbtp/src/cellular.rs:353-355 | Only the decrease timer is reset. |
| RateControl.FiringsSpaced | core/lbtp/src/congestion.rs:112-136 | Two firings are at least 51 checks apart, for every sequence of readings. |
| RateControl.FiresAgainExactly | core/lbtp/src/congestion.rs:112-136 | After a firing the next comes exactly at the first reading, 51 or more checks later, of a warm estimator above 10 % loss. |
| RateControl.CutsExactly | core/lbtp/src/congestion.rs:112-136 | A check cuts the rate exactly when not cooling down, with at least 30 observations and loss above 10 %; then by 15 %, with a floor of 48 000. |
| RateControl.QuietLinksKeepRate | core/lbtp/src/congestion.rs:112-136 | Over any number of checks without such a reading the rate never changes and nothing fires. |
| RateControl.RateAfterRun | core/lbtp/src/congestion.rs:112-136 | From any starting rate, the rate is untouched before the first firing and max(start × 0.85^n, 48 000) after n ≥ 1 firings. |
| RateControl.RateAfterFirings | core/lbtp/src/congestion.rs:112-136 | In one run the closed form holds if and only if the start was at the floor or above, or a firing has happened. |
| RateControl.FiringMovesRate | core/lbtp/src/congestion.rs:128-136 | For every firing: the rate falls if and only if it was above 48 000 and rises if and only if it was below. |
| RateControl.NeverRaisesExactly | core/lbtp/src/congestion.rs:112-136 | No run from a state ever raises the rate if and only if the rate starts at the floor or above. |
| RateControl.ClosedFormExactly | core/lbtp/src/congestion.rs:112-136 | max(start × 0.85^n, 48 000) describes every run from a state if and only if the rate starts at the floor or above. |
| RateControl.CutCanRaise | core/lbtp/src/congestion.rs:46-50 | A case: 40 kbps leaves a firing at 48 kbps. |
| RateControl.CutStep | core/lbtp/src/congestion.rs:133 | Flooring after every cut gives the same as flooring once at the end. |
| RateControl.LossBackstop.CheckLoss | core/lbtp/src/congestion.rs:112-136 | Fires exactly when cooled down, warm and above 10 % loss; rate and cooldown equal the specification. |
| RetryTimer.UnansweredTick | core/lbtp/src/path.rs:172-202 | For every timeout T and retry count R: the tick after n unanswered ones retransmits exactly at multiples of T+1, gives up exactly at (T+1)(R+1), and is silent otherwise. |
| RetryTimer.ProbeAfter | core/lbtp/src/path.rs:172-225 | After any inputs but a restart the probe is closed if a matching reply came in time, else exactly where the clock puts it. |
| RetryTimer.Schedule | core/lbtp/src/path.rs:150-225 | The exact event at every position of every run: retransmissions, the failure and the one success, which is reported only while probing and only for the current key. |
| RetryTimer.ResendCount | core/lbtp/src/path.rs:190-202 | Until answered, one retransmission per T+1 ticks and never more than R. |
| RetryTimer.ControllerOutcome | core/lbtp/src/path.rs:150-225 | For every controller whose moves are steps of the timer, after any run: succeeded if a matching reply came in time, failed from the deadline on otherwise, and exactly where the clock puts the probe in between. |
| RetryTimer.ControllerSchedule | core/lbtp/src/path.rs:172-225 | For every such controller, the exact output for the next input after any run: retransmissions on multiples of the period, failure on the deadline, the one success for a matching reply in time, silence otherwise. |
| PathMigration.Outcome | core/lbtp/src/path.rs:150-225 | Any run after a start: migrated if and only if the outstanding token came back within 43 ticks, failed from tick 44 on, and the exact probing state in between. |
| PathMigration.EventSchedule | core/lbtp/src/path.rs:172-225 | The exact event of the next input after any run: the token again on ticks 11, 22 and 33, failure on tick 44, success on the first matching reply before that, nothing otherwise. |
| PathMigration.PathMigrationController.Start | core/lbtp/src/path.rs:150-157 | A start, from any state, is the timer's start with this token. |
| PathMigration.PathMigrationController.Tick | core/lbtp/src/path.rs:172-202 | A tick is the timer's tick, and its event the timer's output. |
| PathMigration.PathMigrationController.OnResponse | core/lbtp/src/path.rs:213-225 | A response is the timer's reply: success only for the outstanding token. |
| PathMtu.Outcome | core/lbtp/src/mtu.rs:180-273 | Any run after a probe is sent: the MTU is that size if it was acknowledged within 43 ticks and unchanged otherwise; at rest from tick 44 on, and the exact probing state before. |
| PathMtu.EventSchedule | core/lbtp/src/mtu.rs:209-273 | The exact event of the next input after any run: the probe again on ticks 11, 22 and 33 with 19 bytes less than its target, given up on tick 44, the MTU raised on the first matching acknowledgement before that. |
| PathMtu.Ladder | core/lbtp/src/mtu.rs:61-73 | The ladder climbs from 1 200 through 1 400 and 1 452 to 1 500. |
| PathMtu.ProbesRefused | core/lbtp/src/mtu.rs:91-101 | No probe of the ladder is ever accepted by the pacer, whatever its state: all three paddings exceed the frame limit. |
| PathMtu.ProbeAcceptedExactly | core/lbtp/src/mtu.rs:276-281 | The pacer accepts a probe's padding if and only if its target is at most 1 198 bytes, which is below the base MTU. |
| PathMtu.PathMtuController.StartProbe | core/lbtp/src/mtu.rs:180-199 | Probes the size after the last confirmed one, restarts a probe in flight, and completes past the ladder; the confirmed MTU is untouched and stays that of the current rung. |
| PathMtu.PathMtuController.Tick | core/lbtp/src/mtu.rs:209-239 | A tick is the timer's tick and never changes the confirmed MTU. |
| PathMtu.PathMtuController.OnProbeAcked | core/lbtp/src/mtu.rs:251-273 | An acknowledgement is the timer's reply; the MTU is raised to exactly the acknowledged outstanding size. |
| HolePunch.Outcome | core/lbtp/src/hole_punch.rs:172-232 | Any run after a start: connected if and only if a datagram came within 59 ticks, failed from tick 60 on, probe count in between exact. |
| HolePunch.PayloadsDiffer | core/lbtp/src/hole_punch.rs:91-108 | The five payload bytes determine the nonce and the probe's number. |
| HolePunch.PayloadLayout | core/lbtp/src/hole_punch.rs:91-108 | Four octets of nonce, the lowest first, then the number. |
| HolePunch.EventSchedule | core/lbtp/src/hole_punch.rs:190-232 | The exact event of the next input after any run: probe n/6 on every sixth tick n below 60, failure on tick 60, success on the first datagram before that. |
| HolePunch.HolePunchController.Start | core/lbtp/src/hole_punch.rs:172-179 | Sends probe 0's five bytes and is the timer's start. |
| HolePunch.HolePunchController.Tick | core/lbtp/src/hole_punch.rs:190-214 | A tick is the timer's tick with nine retries; probes go out numbered 1 to 9. |
| HolePunch.HolePunchController.OnProbeReceived | core/lbtp/src/hole_punch.rs:224-232 | While probing any datagram counts as the timer's matching reply; otherwise nothing changes. |
| TurnRelay.CallIsTimerStep | core/lbtp/src/turn_relay.rs:194-290 | Every call, in every state, is a step of the shared timer or nothing to it. |
| TurnRelay.Outcome | core/lbtp/src/turn_relay.rs:194-290 | Any run of any calls after a start, up to the next start: confirmed within 29 ticks the relay is active, or idle if the direct path recovered; otherwise failed from tick 30 on and exactly on schedule before. |
| TurnRelay.FailedForGood | core/lbtp/src/turn_relay.rs:188-290 | In every run no call leaves `Failed`. |
| TurnRelay.EventSchedule | core/lbtp/src/turn_relay.rs:210-290 | The exact event of the next tick or confirmation after any run since a start, until it is confirmed: the probe again on ticks 6, 12, 18 and 24, failure on tick 30, activation within 29. |
| TurnRelay.KeepaliveSchedule | core/lbtp/src/turn_relay.rs:225-265 | While no direct path recovers the relay stays active, and a tick asks for a keepalive exactly when the ticks since the activation or the last acknowledgement are a multiple of 1 201. |
| TurnRelay.TurnRelayController.OnDirectPathFailed | core/lbtp/src/turn_relay.rs:194-201 | From `Idle` starts the probe; in every other state nothing. |
| TurnRelay.TurnRelayController.OnRelayActivated | core/lbtp/src/turn_relay.rs:210-219 | The timer's reply: activation is reported exactly while probing; otherwise nothing changes. |
| TurnRelay.TurnRelayController.OnRelayAck | core/lbtp/src/turn_relay.rs:225-229 | Re-arms the keepalive of an active relay and nothing else. |
| TurnRelay.TurnRelayController.OnDirectPathRecovered | core/lbtp/src/turn_relay.rs:235-239 | Returns an active relay to idle and does nothing otherwise. |
| TurnRelay.TurnRelayController.Tick | core/lbtp/src/turn_relay.rs:254-290 | While probing the timer's tick; while active a keepalive exactly when the count reaches zero. |
| IceGatherer.PriorityFieldsDisjoint | core/lbtp/src/ice_candidate.rs:122-128 | On 32-bit words the three shifted fields never overlap, so their `or` is their sum. |
| IceGatherer.PriorityOrder | core/lbtp/src/ice_candidate.rs:122-189 | Every host outranks the server-reflexive candidate, which outranks the relay; an earlier host strictly outranks a later one if and only if it is among the first 65 535. |
| IceGatherer.HostsCarryTheirAddresses | core/lbtp/src/ice_candidate.rs:268-287 | The k-th host event carries the k-th address, priority 126·2^24 + (65535 − k)·2^8 + 255, and the next number; then comes the STUN request. |
| IceGatherer.AnswersCarryTheirAddresses | core/lbtp/src/ice_candidate.rs:297-333 | A STUN or TURN answer in its phase becomes one candidate of that kind with the answer's address and its own priority; out of phase it is nothing. |
| IceGatherer.CandidatesWereTold | core/lbtp/src/ice_candidate.rs:268-333 | Over every run, restarts included, every candidate's address is one the gatherer was told, in the way its kind is learnt. |
| IceGatherer.GrammarInvariant | core/lbtp/src/ice_candidate.rs:268-394 | In every run the phase and its remaining retries determine how far through the event grammar the events since the last start are. |
| IceGatherer.EventsFollowGrammar | core/lbtp/src/ice_candidate.rs:268-394 | Events since the last start always form a prefix of: hosts, STUN request, at most 2 retransmits, optional srflx, TURN allocate, at most 2 retransmits, optional relay, completion. |
| IceGatherer.FoundationsNeverRepeat | core/lbtp/src/ice_candidate.rs:268-333 | Over every run, restarts included, candidates are numbered 1, 2, 3, … without gap or repetition. |
| IceGatherer.StepIsTimerStep | core/lbtp/src/ice_candidate.rs:297-394 | Every input in either phase, answers and ticks alike, is a step of that phase's retry timer; closing it arms TURN or ends the gathering. |
| IceGatherer.EventsAreTimerOutputs | core/lbtp/src/ice_candidate.rs:297-394 | The events of every input are those its phase's timer calls for. |
| IceGatherer.PhasesAreRetryTimers | core/lbtp/src/ice_candidate.rs:268-394 | In every run since the last start both phases follow the shared retry timer, answered or not. |
| IceGatherer.Outcome | core/lbtp/src/ice_candidate.rs:268-394 | The exact phase after any run: STUN until answered or 18 ticks, then TURN until answered or 33 more ticks, then complete; stray answers change nothing. |
| IceGatherer.EventSchedule | core/lbtp/src/ice_candidate.rs:268-394 | The exact events of the next input after any run: retransmissions at multiples of the period, moving on at the deadline or with the probe's own answer, silence otherwise. |
| IceGatherer.SilentGathering | core/lbtp/src/ice_candidate.rs:348-394 | With no answers the gatherer's exact phase after n ticks: TURN from tick 18, complete at tick 51. |
| IceGatherer.IceCandidateGatherer.Start | core/lbtp/src/ice_candidate.rs:268-287 | The loop emits exactly the specified host candidates and arms STUN, from any state. |
| IceGatherer.IceCandidateGatherer.OnStunResponse | core/lbtp/src/ice_candidate.rs:297-312 | Accepted exactly while gathering server-reflexive candidates, with the specified events and state. |
| IceGatherer.IceCandidateGatherer.OnTurnAllocated | core/lbtp/src/ice_candidate.rs:321-333 | Accepted exactly while gathering relayed candidates, with the specified events and state. |
| IceGatherer.IceCandidateGatherer.TimerTick | core/lbtp/src/ice_candidate.rs:348-394 | State and event equal the specified step in every phase. |
| XferCodec.RoundTripExactly | core/lowbandd/src/file_transfer.rs:63-122 | A frame, with any bytes after it, decodes to itself if and only if its name is below 65 536 bytes and its fragment count or data is within the caps. |
| XferCodec.DecodesExactly | core/lowbandd/src/file_transfer.rs:63-122 | Bytes decode to a frame if and only if the frame is within its types and the caps and the bytes begin with its encoding. |
| XferCodec.DecodedWasEncoded | core/lowbandd/src/file_transfer.rs:88-122 | Whatever bytes decode to a frame begin with that frame's encoding. |
| XferCodec.DecodedIsEncodable | core/lowbandd/src/file_transfer.rs:88-122 | Whatever bytes arrive, a decoded frame is within the caps. |
| XferCodec.LongNameIsLost | core/lowbandd/src/file_transfer.rs:68 | A name of 65 536 bytes does not survive, because its length is cut to 16 bits. |
| XferCodec.TakeHashes | core/lowbandd/src/file_transfer.rs:102-104 | Reads exactly the announced number of hashes or fails. |
| XferCodec.FragmentBytes | core/lowbandd/src/file_transfer.rs:79-84 | 0x11, the index in four octets and the length in two, lowest first, then the data; completion is the one byte 0x12. |
| XferCodec.OfferBytes | core/lowbandd/src/file_transfer.rs:67-78 | 0x10, the name's length in two octets, the name, the size in eight, the number of hashes in four, the hashes in order at 32 bytes each, the whole-file hash. |
| XferCodec.KindsRefused | core/lowbandd/src/file_transfer.rs:88-122 | An empty datagram is truncated; a kind is unknown exactly when it is none of 0x10, 0x11 and 0x12. |
| XferCodec.FragmentReadExactly | core/lowbandd/src/file_transfer.rs:109-117 | For every datagram of kind 0x11: what it decodes to, or whether it is truncated or announces over 1 024 bytes. |
| XferCodec.OfferTooLargeExactly | core/lowbandd/src/file_transfer.rs:92-107 | An offer is too large exactly when its header is complete, its name valid and its count above 2^20; it fails in no other way but truncation. |
| ResumeLog.RecordSurvivesExactly | core/xfer/src/resume.rs:95-104 | A missing index appended to a progress log is read back if and only if the entry does not spoil the log: the log has no residue of a cut entry, or the index is that residue's echo. |
| ResumeLog.SafeExactly | core/xfer/src/resume.rs:71-90 | Every missing index can be recorded if and only if the log is safe: its length is a multiple of four, or nothing is missing but the echo of its residue. |
| ResumeLog.UnspoiledRecord | core/xfer/src/resume.rs:95-104 | A record, whole or cut anywhere, that does not spoil the log loses nothing and adds at most its own index on replay; a whole one adds exactly it. |
| ResumeLog.EchoIsUnique | core/xfer/src/resume.rs:173-189 | Behind a residue of one to three bytes exactly one index still reads as itself. |
| ResumeLog.LoadAppended | core/xfer/src/resume.rs:173-189 | Bytes appended to any log are replayed behind its residue. |
| ResumeLog.ResidueMisleads | core/xfer/src/resume.rs:74 | A case: entry 5 cut after one byte, then index 1 recorded, replays as index 261. |
| FileTransfer.StepKeepsInv | core/lowbandd/src/file_transfer.rs:201-263 | What every frame and every crash keeps, inside a write or a record included, unless it resumes a spoiled log: a running receiver remembers only fragments its file holds, whatever state its log is in, and a log that is not spoiled replays to exactly that. |
| FileTransfer.RunKeepsInv | core/lowbandd/src/file_transfer.rs:201-263 | The same over every run of honest offers, arbitrary fragments and completions, and crashes between or inside writes and records, that never resumes a spoiled log; logs ending in a cut entry may be resumed. For every hash without collisions among the strings of the run. |
| FileTransfer.UntornRunsAreSafe | core/xfer/src/resume.rs:71-104 | Every run that never cuts a progress entry never spoils a log. |
| TornTransfer.CutEntryIsDropped | core/xfer/src/resume.rs:20-23 | An entry cut in an aligned log is dropped on the next open, and nothing else is lost. |
| TornTransfer.ResumesExactly | core/xfer/src/resume.rs:71-104 | A restarted receiver remembers, after a further restart, every fragment it goes on to take if and only if the log it resumed was safe. |
| TornTransfer.AcrossExactly | core/xfer/src/resume.rs:71-104 | One missing fragment taken before a restart and all others after it: the transfer completes if and only if recording that fragment did not spoil the log. |
| TornTransfer.CompletesAcrossExactly | core/xfer/src/resume.rs:71-104 | Whichever missing fragment arrives before a restart, the transfer completes once all others have arrived after it, if and only if the log resumed first was safe. |
| TornTransfer.CutEntryMisleads | core/xfer/src/resume.rs:74 | A case, for every file of 262 fragments: one cut entry and two restarts make the receiver count fragment 261, which never arrived, as delivered, refuse it as a duplicate, and forget fragment 1. |
| TornTransfer.CutEntryIsFatal | core/xfer/src/resume.rs:74 | After that, unless the fragment is all zeros, no events of the transfer complete it, further offers and restarts included, if no other file has the source's hash; and no fragments and completions of the running session in any case. |
| TornTransfer.FalselyDeliveredNeverHeals | core/lowbandd/src/file_transfer.rs:201-263 | Once the log counts a fragment the destination does not hold, whatever follows of the transfer, offers, restarts and crashes included, never completes it, if no other file has the source's hash. |
| TornTransfer.FalselyDeliveredNeverCompletes | core/lowbandd/src/file_transfer.rs:221-263 | From any state in which a running receiver counts such a fragment, no fragments and completions lead to the source file, for any hash without collisions in play. |
| FileTransfer.FragmentKeepsFaith | core/lowbandd/src/file_transfer.rs:221-243 | A fragment that passes the hash check is the source's slice, and writing it disturbs no other delivered slice. |
| FileTransfer.CompletionExactly | core/lowbandd/src/file_transfer.rs:244-263 | In a running receiver with a true memory, completion is reported if and only if every index is delivered, the destination then equals the source, the whole-file check cannot fail, and otherwise the number missing is reported. |
| FileTransfer.CompletedMeansIdentical | core/lowbandd/src/file_transfer.rs:244-263 | In every honest run that never resumes a spoiled log, a completion means the destination is the offered file. |
| FileTransfer.FinalCheckGuards | core/lowbandd/src/file_transfer.rs:250-263 | In every honest run, misread logs included, a completion means the destination hashes like the offered file. |
| TransferProgress.CompletesOnceAllArrived | core/lowbandd/src/file_transfer.rs:201-263 | After any honest history, torn records included, once a file is offered and what was replayed plus what has arrived while the receiver was up covers it, in any order, over any number of passes, across crashes and premature `Complete` frames, no spoiled log being resumed: a `Complete` on the way was answered with completion or the next one is, with the file in place at that moment. |
| TransferProgress.SessionCompletes | core/lowbandd/src/file_transfer.rs:201-263 | One session, whatever log it resumed: once its memory and the fragments it receives cover the file, the next `Complete` completes with the file in place. |
| TransferProgress.EarlyComplete | core/lowbandd/src/file_transfer.rs:244-248 | A `Complete` that comes too early changes nothing. |
| TransferProgress.WireCarriesSendFile | core/lowbandd/src/file_transfer.rs:129-159 | The datagrams of a sent file within the caps decode to its frames, in order. |
| TransferProgress.SendFileDelivers | core/lowbandd/src/file_transfer.rs:129-159 | After any honest history, earlier lossy passes, crashes and a record cut at its end included, one undisturbed pass of the sender's frames completes with the file in place, unless it resumes a log already spoiled. |
| TransferProgress.FileCrossesTheWire | core/lowbandd/src/file_transfer.rs:129-263 | End to end with a 32-byte hash, from the same histories: send, encode, decode, apply; the last frame is answered with completion and the destination is the file. |
| TransferAnswers.SentFrames | core/lowbandd/src/file_transfer.rs:129-159 | For every file and name: the offer has name, size, the hash of every kilobyte and of the whole; fragment i has index i and 1 024 bytes, only the last fewer; together they are the file; then completion is asked for. |
| TransferAnswers.NothingBeforeOffer | core/lowbandd/src/file_transfer.rs:221-245 | Without an offer every fragment and completion is refused and changes nothing. |
| TransferAnswers.FragmentAnswered | core/lowbandd/src/file_transfer.rs:221-243 | The answer to any fragment, told from the offered file: bad index, duplicate, hash mismatch or the count so far, each exactly when; only the last changes anything. |
| TransferAnswers.OfferAnswered | core/lowbandd/src/file_transfer.rs:203-220 | The answer to any offer: the number of fragments the resumed log does not hold, with the destination sized. |
| TransferAnswers.PassAnswered | core/lowbandd/src/file_transfer.rs:201-243 | A pass of the sender from any state: the offer is answered with what is missing, each fragment with the count so far or as a duplicate if the disk had it. |
| TransferAnswers.CompletedIsForgotten | core/lowbandd/src/file_transfer.rs:244-263 | After any completion the file stays, no progress is left on disk or in memory, and the next offer, of any file, is answered with its full number of fragments. |
| TransferAnswers.TransferredAgain | core/xfer/src/resume.rs:130-139 | After any completion, whatever becomes of the destination, a further pass is answered Started(n), 1 to n written, Completed, and leaves the file and nothing else. |
| FileTransfer.FileReceiver.constructor | core/lowbandd/src/file_transfer.rs:196-198 | Starts with what an earlier process left on disk and no offer. |
| FileTransfer.FileReceiver.ApplyFrame | core/lowbandd/src/file_transfer.rs:201-263 | Disk, sidecar, memory and result after each frame equal the specification, every error case included. |
| MeshNames.OneInitiator | core/lowbandd/src/mesh.rs:115-123 | Of two different ids exactly one initiates. |
| MeshNames.SmallerInitiates | core/lowbandd/src/mesh.rs:117 | The initiator's id is a proper prefix of the other's or has the smaller character where the two first differ. |
| MeshNames.TagMark | core/lowbandd/src/mesh.rs:88-94 | A tag is `mesh:`, the id, `:udp:`; its last 'u' marks where the id ends. |
| MeshNames.CandidateIsUnambiguous | core/lowbandd/src/mesh.rs:85-107 | For ids of any characters, a tagged candidate yields an address to a reader if and only if it was tagged for that reader. |
| MeshNames.SearchIsLookup | core/lowbandd/src/mesh.rs:94-107 | Searching a participant's candidate strings is looking up the tag. |
| Mesh.StepKeeps | core/lowbandd/src/mesh.rs:59-139 | What every action keeps: board, sockets, resolved routes, threads, and both ends of each pair's handshake. |
| Mesh.RunsKeepInv | core/lowbandd/src/mesh.rs:59-139 | The same in every reachable state of every interleaving. |
| Mesh.ResolvedIsDedicated | core/lowbandd/src/mesh.rs:92-109 | In every reachable state a resolved address is the peer's socket dedicated to this node. |
| Mesh.BoardNamesDedicatedSocket | core/lowbandd/src/mesh.rs:81-109 | In every reachable state, searching the strings a peer has posted for one's own name yields the text of that dedicated socket's address, or nothing as long as it is unbound. |
| Mesh.BoardSearch | core/lowbandd/src/mesh.rs:94-107 | The numbered lookup of the protocol is the string search of the code, for any distinct names and any address text. |
| Mesh.NoHandshakeFails | core/lowbandd/src/mesh.rs:111-132 | In every reachable state no handshake has returned an error. |
| Mesh.NeverStuck | core/lowbandd/src/mesh.rs:59-139 | No circular wait: in every reachable state short of the full mesh some action is enabled. |
| Mesh.FullMeshAgrees | core/lowbandd/src/mesh.rs:111-139 | When everyone is done each pair holds equal keys and transcripts, the right static keys and opposite roles. |
| Mesh.Opposite | core/lowbandd/src/mesh.rs:115-123 | Each pair of nodes has exactly one initiator. |
| Mesh.SmallerIdCalled | core/lowbandd/src/mesh.rs:111-139 | In every finished mesh the initiator of each pair is the node whose id comes first in character order. |
| MeshProgress.RunCollectsGoals | core/lowbandd/src/mesh.rs:59-139 | Every action of a run reaches a milestone no earlier action reached. |
| MeshProgress.EveryRunEnds | core/lowbandd/src/mesh.rs:59-139 | Every run is bounded by the party's milestones, and a run that cannot continue has established the full mesh. |

## Left out

- NoiseIk.AlteredReplyRefused: the 16-byte payload box is taken to hold a tag and no plaintext, which its length implies on the wire.
- Pacer.StepPromise: rates are taken to be non-negative, as the guarantees presuppose; channels are below 9, as the queue array demands.
- DatagramCipher.SessionDelivers: how the two sides agree on rotated keys; the receiver is taken to rotate through the sender's keys in order.
- LossModel.TallyBounds: the fitter's 64-bit sums and counts do not wrap around.
- IceGatherer.FoundationsNeverRepeat: the 32-bit foundation counter does not wrap around.
- TcpFallback.TcpReassembler.Push: the 32-bit count of rejected prefixes does not wrap around.
- FileTransfer.FileReceiver.ApplyFrame: file and sidecar I/O errors are not modelled; a header cut short counts as no sidecar, as on reload.
- FileTransfer.RunKeepsInv: offers have at most 2^20 hashes, as every offer read off the wire has.
- Secrecy and strength of the cryptography, key generation, key age and `needs_rekey`, replay of datagrams, known peers and short authentication strings.
- The handshake's byte offsets: messages arrive already split into fields or with a wrong length.
- UTF-8 validity of file names is a predicate parameter.
- `BimodalDetector`: its verdict is an input of each control tick; `can_increase` and `gamma_multiplier` are single reads.
- `fec_ratio`, `TcpPenaltyTracker`, NAT keepalive, `per_peer_budget` and `mix`: clamped arithmetic of one body each.
- `Connection`, the LBTP envelope and delivery classes: thin wrappers around the parts modelled.
- The room server's storage (key prefixes, participant cap, expiry) and hex encoding of static keys: the board is taken to return each participant's own postings in order and its true key.
- Mesh timeouts, lost datagrams during the handshake, and participants beyond the expected group.
- Threads, sockets, audio devices, neural and AV1 codecs, the command line, the UI shells, the mobile apps and the web site.
