# Verification of the tunnel protocol

A Dafny model of the reliable transport of p2p-rtc-tunnel and of what surrounds it: the wire
frame, fragmentation, the sliding-window channel, the multiplexer, the token bucket, the layered
cipher pipeline and the CONNECT relay built from them.

`dafny verify dfyconfig.toml` checks the whole project.

## How it is put together

- `Frames`, `Fragmentation`: the codec, and splitting and reassembly of messages.
- `Reliable`, `Endpoint`: what a channel does between two points where a task can be suspended, as
  functions on values. A waiting `send` and a receive task suspended at its ACK or in `on_message`
  are part of the state.
- `ReliableChannelClass`, `MultiplexerClass`: the objects, updated in place, proved against those
  functions; `Refinement`, `Arrival.ReceiveToEnd` and `MuxRefinement` show that their methods are runs
  of the interleaved systems.
- `OneWay`: one direction of a channel as a transition system over a link that loses, duplicates
  and reorders. Over its runs: `Safety`, `Record`, `FrameSizes`, `Arrival`, `Window`, `Backoff`, `Gap`,
  `Stall`.
- `Fifo`, `Progress`: the same channel over a lossless ordered link, every run of which is a run of
  `OneWay`.
- `Mux`, `Projection`, `MuxSafety`: two multiplexers and one raw byte link; every channel, in each
  direction, is shown to behave as a `OneWay` system of its own.
- `MuxFifo`, `OrderedNet`: the two multiplexers over one ordered queue of raw messages in each
  direction, the link the tunnel runs on. Every run is a run of `Mux`, and every channel behaves as a
  `Fifo` system.
- `FlowControl`: the token bucket. `Pipeline`, `Layers`: the cipher pipeline. `Relay`: the
  composition from socket to socket.

## What the proofs found

- `_process_ack` reads an ACK as "everything below is confirmed", but the receiver acknowledges
  `seq + 1` even for a frame that leaves a gap. On a lossy link this reading is sound in every run
  exactly when the window holds one frame (`Gap.AckSoundness`); with any larger window a lost frame
  can be confirmed (`Gap.GapByAck`). A channel delivers nothing from some frame on for ever exactly
  when that frame, or one before it, is nowhere any more and has no retry left
  (`Gap.StillDeliverable`). On the ordered link the reading is always sound (`Fifo.FifoCompleteness`).
  For one arrival, `Arrival.AckIsCumulative` gives the exact condition.
- A retransmit drop does not set the window event. It is the only step that can leave a sender
  waiting beside a window with room (`Window.WakeStep`). On a lossy link every configuration can reach
  a state in which the window is empty and a sender waits for good (`Stall.StallReachable`); it waits
  for good exactly when no ACK and no data are in flight, no retry is left and every unfinished send
  waits (`Stall.WakeableExactly`). On the ordered link every such wait ends
  (`Progress.EveryRunCompletes`, `OrderedNet.EveryRunCompletes`).
- `send` holds no lock across the fragments of a message: two overlapping sends can deliver a
  message nobody sent (`Safety.OverlapMixesMessages`). This needs a message longer than one frame
  holds, and no more than that (`Safety.MixingNeedsFragments`). Prefix delivery holds when sends do not
  overlap (`Safety.EndToEndSafety`), and for the frames in any case (`Safety.FrameSafety`).
- `consume(n)` with n above the capacity waits forever, so a message longer than the burst is never
  sent (`FlowControl.GrantableIffWithinCapacity`, `FlowControl.NeverGranted`). Within the capacity it
  is not fair: another consumer can starve it (`FlowControl.Starvation`); it is safe against rivals
  taking up to x tokens exactly when both together are within what the untouched bucket would hold
  (`FlowControl.GrantedAgainstRivals`).
- `overhead_per_chunk` is exact exactly when no layer pads (`Pipeline.LengthGrowth`).
- The module comment of crypto/pipeline.py gives the HKDF salt as `p2p-tunnel`; the code uses
  `p2p-tunnel-v1`. The salt is a constant inside the abstract key derivation here.

## Assumptions

- 14 < mtu <= 65536, window_size >= 1, base_rto > 0. `on_message` is set before data arrives; the
  `on_channel` handler is registered from the start and does not suspend (the one in
  proxy/http_server.py has no await). No `close`, so no FIN takes a sequence number.
- Code between two suspending awaits is atomic; `_send_lock` is never contended and acquiring it does
  not suspend. On the ordered link sending does not suspend either, because the tunnel's `send` only
  waits for the channel to be open.
- Clocks and tokens are reals; time does not run backwards.
- The link of `OneWay` is a set: a frame in it may arrive any number of times until it is lost. A link
  that counts copies has no further behaviours.
- The multiplexer runs within what the header holds: ids below 2^16 and at most 2^32 - 1 sequence
  numbers a channel.

## Model

| member | source | states |
|---|---|---|
| Frames.Serialize | protocol/frames.py:70-81 | encoding fails exactly when a field does not fit its width, and gives 14 bytes plus the payload |
| Frames.WireLayout | protocol/frames.py:36-81 | the bytes of an encoded frame: type code, flags, every number most significant byte first at its offset, then the payload |
| Frames.MoreFragmentsBit | protocol/frames.py:116-118 | MORE_FRAGMENTS is bit 0 whatever other flags are set |
| Frames.RoundTrip | protocol/frames.py:70-106 | decoding an encoded frame followed by anything returns the frame |
| Frames.AcceptedIsSerialized | protocol/frames.py:84-106 | any accepted input starts with the encoding of the frame returned |
| Frames.DecodesExactly | protocol/frames.py:84-106 | the decoder answers a frame on exactly the inputs that start with its encoding |
| Frames.SerializeInjective | protocol/frames.py:70-81 | two frames with one encoding are equal |
| Fragmentation.Fragment | protocol/reliable.py:220-227 | the index loop computes the recursive chunking |
| Fragmentation.Plan | protocol/reliable.py:102-112 | the loop of `send` flags every chunk but the last |
| Fragmentation.ChunksJoin | protocol/reliable.py:220-227 | the chunks of a message concatenate to it |
| Fragmentation.PiecesShape | protocol/reliable.py:104-108 | max(1, ceil(n/max)) chunks, all but the last exactly full, MORE_FRAGMENTS on exactly those |
| Fragmentation.ReadMessage | protocol/reliable.py:197-206 | reading one message's pieces completes exactly that message and leaves nothing behind |
| Fragmentation.SplitStream | protocol/reliable.py:197-206 | reassembly inverts fragmentation for every list of messages and every chunk size |
| Reliable.MessageFrames | protocol/reliable.py:220-227 | a message of n bytes is cut into max(1, ceil(n / (mtu - 14))) frames, all but the last of exactly mtu bytes |
| FrameSizes.FramesFillTheMtu | protocol/reliable.py:102-112 | in every run a frame with MORE_FRAGMENTS has exactly mtu bytes and none has more; frames made and pieces left are as many as the messages sent take |
| Reliable.KeepFromExact | protocol/reliable.py:208-212 | an ACK removes exactly the entries below it and keeps the order |
| Reliable.EntryScanned | protocol/reliable.py:236-249 | an entry not due stays as it is; a due one with a retry left is counted and put off by base_rto * 2^count; any other is gone |
| Reliable.ScanAddsNothing | protocol/reliable.py:236-249 | a scan adds no entry, keeps the order, and leaves the event and the next number alone |
| Reliable.ResendsInOrder | protocol/reliable.py:235-253 | the frames due with retries left are sent again, each once, in the order of their numbers |
| Reliable.RescanMembers | protocol/reliable.py:236-249 | a scan keeps exactly the entries that do not expire, bumping exactly the due ones |
| Reliable.ResendsExact | protocol/reliable.py:235-253 | exactly the due and not expired frames are sent again |
| Reliable.RescanOrder | protocol/reliable.py:236-243 | a scan keeps window order, and shrinks the window exactly when something expires |
| OneWay.StepInv | protocol/reliable.py:102-253 | every step of every interleaving keeps the channel invariant |
| OneWay.ConsumeInv | protocol/reliable.py:193-206 | one iteration of the delivery loop, by whichever task, consumes the next frame in order |
| Safety.EndToEndSafety | protocol/reliable.py:102-253 | on any link, if sends do not overlap, the messages delivered are a prefix of those sent |
| Record.RecordMeans | protocol/reliable.py:102-253 | the messages sent, whether sends overlapped, the frames arrived, the highest ACK and the transmissions kept beside a channel are those of the actions of the run |
| Record.LeavingIsRecorded | protocol/reliable.py:208-243 | the numbers acknowledged and dropped are those that left the window at an ACK and in a scan |
| Record.DeliversPrefix | protocol/reliable.py:102-253 | after any run in which sends do not overlap, the messages delivered are a prefix of those passed to `send` in it |
| Safety.FrameSafety | protocol/reliable.py:182-206 | with overlapping sends the messages are still read off a prefix of the frames made |
| Safety.OverlapMixesMessages | protocol/reliable.py:102-112 | on every configuration two overlapping sends, one of a message a byte longer than a frame holds, can deliver a message nobody sent |
| Safety.MixingNeedsFragments | protocol/reliable.py:102-112 | however sends overlap, only messages that were sent are delivered, in every run with messages of at most n bytes, exactly when n bytes fit one frame |
| Arrival.DescribesOne | protocol/reliable.py:178-206 | a set of frames calls for at most one receiver state |
| Arrival.ReceiverIsTheSetOfArrivals | protocol/reliable.py:178-206 | the receiver is the one the set of arrived frames calls for; with tasks suspended anywhere, buffer keys stay at or above the next number and frames are consumed once each, in order |
| Arrival.ArrivalOrderIndependence | protocol/reliable.py:178-206 | the same arrivals in any order, with any duplicates and interleaving, leave equal receivers |
| Arrival.DrainStops | protocol/reliable.py:193-195 | the delivery loop stops at the least missing number and takes exactly the frames below it |
| Arrival.AckIsCumulative | protocol/reliable.py:182-195 | the ACK `seq + 1` is right, read cumulatively, exactly when every frame below was received |
| Arrival.ReceiveToEnd | protocol/reliable.py:178-206 | processing a frame without interruption is a run of the interleaved steps |
| Window.SlidingWindow | protocol/reliable.py:121-144 | the window never exceeds its size; keys distinct and below the next number; without drops exactly the range from the highest ACK |
| Window.WakeStep | protocol/reliable.py:238-243 | "event cleared implies window full" survives a step exactly when the step is not a drop while the event is cleared |
| Window.NoLostWakeup | protocol/reliable.py:121-124 | without drops a sender waits only while the window is full |
| Window.StepParkInv | protocol/reliable.py:217-218 | no sender waits while the event is set, nor once everything sent was acknowledged |
| Window.ScanSpendsBudget | protocol/reliable.py:229-253 | each scan uses exactly one unit of the retry budget per due frame |
| Window.RetransmissionEnds | protocol/reliable.py:229-253 | once sends stop, finitely many productive scans empty the window |
| Window.TransmissionBound | protocol/reliable.py:238-249 | at most max_retransmits + 1 transmissions per frame |
| Record.FewTransmissions | protocol/reliable.py:238-253 | in any run at most max_retransmits + 1 data frames are handed to `send_raw` for each frame made |
| Backoff.TimersHold | protocol/reliable.py:139-144 | a frame's timer runs out base_rto after it was first sent, and after c resends no earlier than base_rto*(2^(c+1)-1) after |
| Stall.StuckForGood | protocol/reliable.py:121-124 | with nothing in flight, no retry left and every unfinished send waiting, nothing wakes a sender and nothing new is sent unless `send` is called again |
| Stall.WakeableExactly | protocol/reliable.py:121-124 | without a further `send` some continuation wakes every waiting sender exactly when that is not so |
| Stall.StallReachable | protocol/reliable.py:229-253 | on every configuration a sender can come to wait for good beside an empty window |
| Backoff.DropsAreLate | protocol/reliable.py:237-243 | a frame is dropped only after exactly max_retransmits resends, and no earlier than base_rto*(2^(max+1)-1) after its first transmission |
| Backoff.LeavesInTime | protocol/reliable.py:229-253 | with scans at most d apart it has left the window by that time plus (max+1)*d |
| Gap.PermanentGap | protocol/reliable.py:182-218 | a frame sent, not consumed, nowhere any more and with no retry left stays so in every continuation, a frame outside the window stays outside, and nothing from it on is delivered |
| Gap.StillDeliverable | protocol/reliable.py:182-253 | some continuation consumes frame k exactly when no frame up to k is lost in that way |
| Gap.GapByAck | protocol/reliable.py:182-213 | with a window of two or more, one loss and one ACK lead to such a frame, outside the window, with no drop |
| Gap.AckSoundness | protocol/reliable.py:208-212 | on a lossy link every acknowledged frame has arrived, in every run, exactly when window_size is 1 |
| Fifo.FifoRefinesLossy | transport/peer.py:73-77 | every state of a run over the ordered link is a state of the lossy system |
| Fifo.FirstInFirstOut | transport/peer.py:73-77 | over any run of the ordered link the frames received, then those in the queue, are those sent, and likewise the ACKs, one for each frame received |
| Fifo.FifoCompleteness | protocol/reliable.py:178-218 | on the ordered link ACKs never run ahead of receipt, the buffer stays empty, and with no data in flight everything sent was received and every finished message delivered, drops or not |
| Fifo.FifoQuiescence | protocol/reliable.py:208-218 | with nothing in flight the window is empty and no sender waits |
| Fifo.ReceiveHead | protocol/reliable.py:185-195 | the frame at the head of the ordered link is the next one or an old one |
| Progress.StepRank | protocol/reliable.py:102-253 | on the ordered link every step but a further send keeps a rank from rising, and every attempt, arrival, resumption and scan with a due frame lowers it |
| Progress.SettledExactly | protocol/reliable.py:102-218 | no such step is left exactly when every send is finished and link and window are empty, and then every message has been delivered |
| Progress.EveryRunCompletes | protocol/reliable.py:102-253 | every run without further sends takes at most that rank of such steps, and everything is delivered once none is left |
| Progress.CompletingRun | protocol/reliable.py:102-218 | from every reachable state some run leaves none |
| ReliableChannelClass.SendRunMeaning | protocol/reliable.py:102-147 | `send` hands over exactly as many pieces as there is room for, in order, under consecutive numbers |
| ReliableChannelClass.SendMakes | protocol/reliable.py:102-147 | with room for it, a message of n bytes makes max(1, ceil(n / (mtu - 14))) frames and nothing is left to send |
| ReliableChannelClass.SentAllInOrder | protocol/reliable.py:251-253 | frames that fit all go out, in order, after what went out before |
| ReliableChannelClass.ReliableChannel.constructor | protocol/reliable.py:66-100 | a new channel starts with empty halves |
| ReliableChannelClass.ReliableChannel.SendOrPark | protocol/reliable.py:114-147 | with a full window the event is cleared; otherwise the frame is numbered, entered and sent |
| ReliableChannelClass.ReliableChannel.HandOver | protocol/reliable.py:106-147 | the pieces a `send` has left are handed over up to its next wait, or until encoding raises; going on after a wait is another call |
| ReliableChannelClass.ReliableChannel.Send | protocol/reliable.py:102-112 | `send` up to its first wait, or until encoding raises; with room for it the whole message goes out, in the frames it takes |
| ReliableChannelClass.ReliableChannel.ProcessAckFrame | protocol/reliable.py:208-218 | the loop removes what the ACK covers and sets the event when there is room |
| ReliableChannelClass.ReliableChannel.RetransmitScan | protocol/reliable.py:229-253 | one round drops, bumps and resends as specified, the frames due with retries left in the order of their numbers, leaving the event alone |
| ReliableChannelClass.ReliableChannel.AcceptFrame | protocol/reliable.py:185-191 | an old frame is dropped, any other enters the reordering buffer and its task the loop |
| ReliableChannelClass.ReliableChannel.DeliverNext | protocol/reliable.py:193-206 | one test of the loop consumes the next frame if it is there; any task may make it |
| ReliableChannelClass.ReliableChannel.ProcessDataFrame | protocol/reliable.py:178-206 | the ACK goes out first, then the frame is buffered and the loop delivers; an ACK number that does not fit stops it |
| ReliableChannelClass.ReliableChannel.HandleFrame | protocol/reliable.py:160-176 | ACK, PING and DATA are dispatched, other types change nothing; it raises exactly when the reply does not fit the header |
| Refinement.SendIsAttempts | protocol/reliable.py:102-147 | `send` up to its first wait is a run of attempts of the interleaved system, with the same frames |
| Refinement.AttemptIsOnePass | protocol/reliable.py:114-147 | one attempt of the interleaved system is one pass through `_send_frame`, field by field |
| Refinement.TaskStepsAreMethods | protocol/reliable.py:178-206 | its arrival, resumption and delivery steps are the parts of `_process_data` between suspensions |
| Refinement.ScanAndAckAreMethods | protocol/reliable.py:208-253 | its scan and ACK steps are a round of the retransmit loop and `_process_ack`, which wakes every sender when there is room |
| Projection.ProjectStep | protocol/multiplexer.py:52-102 | every step of the two peers is, on one channel in one direction, a step of that channel alone or nothing |
| MuxSafety.ChannelsAreIndependent | protocol/multiplexer.py:52-102 | every multiplexed channel is in a state it could reach alone on a lossy link |
| MuxSafety.PerChannelSafety | protocol/multiplexer.py:87-102 | for each id the messages delivered at one peer are a prefix of those sent on that id by the other |
| MuxSafety.SettingsHold | protocol/multiplexer.py:57-79 | over all runs every channel works with its own id and the multiplexer's mtu, window size, timers and retry limit; without drops a send waits only beside exactly window_size entries |
| MuxSafety.DropsAreLate | protocol/reliable.py:237-243 | a multiplexed channel drops a frame only after exactly max_retransmits resends, and no earlier than base_rto*(2^(max+1)-1) after its first transmission |
| MuxSafety.AttemptMakes | protocol/reliable.py:130-137 | the frame an attempt makes, field by field, with the next number the same end expects as its ack |
| MuxSafety.Isolation | protocol/multiplexer.py:87-102 | handling a raw message changes no channel but the one it names |
| MuxSafety.JointIds | protocol/multiplexer.py:43-102 | the next id is odd at the offerer and even at the answerer, unused at both peers and in flight, and all lower ones of its parity are taken; `on_channel` fired exactly once for each channel a peer has but did not open |
| MuxSafety.FreshId | protocol/multiplexer.py:52-63 | `open_channel` never overwrites an entry |
| MuxSafety.RangeSafety | protocol/frames.py:70-81 | within the limits no frame is refused by the encoder, be it a data frame made or about to be made or the reply to a message in flight, and each raw message fits 64 KiB |
| MuxFifo.QProjectStep | protocol/multiplexer.py:87-102 | every step of the two peers over the shared ordered link is, on one channel in one direction, a step of that channel on an ordered link of its own or nothing |
| OrderedNet.RefinesLossy | transport/peer.py:73-77 | every run over the shared ordered link is a run over the lossy one, and every channel is in a state it could reach alone on an ordered link |
| OrderedNet.Quiescence | protocol/reliable.py:178-218 | with nothing in flight between the peers, on every channel everything sent was received, finished messages delivered, the window empty, and no sender waits |
| OrderedNet.QSettledExactly | protocol/reliable.py:102-218 | for the two peers, nothing is left to do exactly when the link is idle and every channel has finished its sends or used up its numbers |
| OrderedNet.EveryRunCompletes | protocol/reliable.py:102-253 | every run of the two peers without further sends takes boundedly many steps that do something, on all channels together; once none is left, every channel with sequence numbers left has delivered every message |
| OrderedNet.CompletingRun | protocol/reliable.py:102-218 | from every reachable state of the two peers some run leaves nothing to do |
| OrderedNet.AnyMessageArrives | protocol/multiplexer.py:52-102 | for every configuration, any message that takes at most 2^32 - 1 frames can be sent on a channel the offerer opens, and some run brings exactly it to the answerer |
| MultiplexerClass.Multiplexer.constructor | protocol/multiplexer.py:32-50 | odd ids for the offerer, even ids for the answerer |
| MultiplexerClass.Multiplexer.OpenChannel | protocol/multiplexer.py:52-66 | a new channel object under the next id, which goes up by two; every registered channel has its id and the multiplexer's settings |
| MultiplexerClass.Multiplexer.GetOrCreate | protocol/multiplexer.py:68-85 | the registered channel, or a new one entered under the id |
| MultiplexerClass.Multiplexer.HandleRaw | protocol/multiplexer.py:87-102 | a refused message changes nothing; otherwise its channel, created and announced, while still fresh, if new, handles the frame, with what it then holds and has sent, and every other channel is unchanged |
| MuxRefinement.HandleRawIsRun | protocol/multiplexer.py:87-102 | what the object then holds and has sent is what a run of the two peers, from the arrival on, makes of the peer it stands for and of its link |
| MuxRefinement.OpenIsStep | protocol/multiplexer.py:52-66 | opening on the object is the opening step of the peer, under an unused id |
| MuxRefinement.NewStandsFor | protocol/multiplexer.py:42-47 | a new object stands for its peer before anything happened |
| FlowControl.Conservation | protocol/flow_control.py:26-43 | tokens stay within the capacity; consumed + current + overflowed = initial + rate*t |
| FlowControl.AtLeast | protocol/flow_control.py:39-43 | no token is lost but to the capacity: what is left and taken make up the capacity or all that came in |
| FlowControl.IntervalBound | protocol/flow_control.py:26-43 | over any interval of any run of any consumers at most capacity + rate*t is consumed |
| FlowControl.GrantableIffWithinCapacity | protocol/flow_control.py:26-37 | a request can be granted at some time exactly when it is within the capacity |
| FlowControl.NeverGranted | protocol/flow_control.py:26-37 | a larger request is granted in no run |
| FlowControl.WaitSuffices | protocol/flow_control.py:47-48 | the wait computed is enough when nobody else consumes meanwhile |
| FlowControl.WaitIsLeast | protocol/flow_control.py:36-37 | the sleep is the least of at least 10 ms in which the missing tokens come in |
| FlowControl.GrantedAgainstRivals | protocol/flow_control.py:26-43 | a request is granted at a given time, whatever others do before as long as they take at most x tokens, exactly when it and x are within the capacity and within initial + rate*t |
| FlowControl.Starvation | protocol/flow_control.py:26-37 | from any state one other consumer can keep any request waiting for any number of attempts, although it waits as long as it computed |
| FlowControl.TokenBucket.constructor | protocol/flow_control.py:19-24 | a bucket starts full |
| FlowControl.TokenBucket.DoRefill | protocol/flow_control.py:39-43 | a refill adds what the rate yields, up to the capacity |
| FlowControl.TokenBucket.TryConsume | protocol/flow_control.py:29-33 | the locked section grants and takes, or only refills; any consumer may be next |
| FlowControl.TokenBucket.Consume | protocol/flow_control.py:26-37 | the loop returns at the first clock reading at which the request is granted |
| FlowControl.FlowController.Send | protocol/flow_control.py:58-60 | a message is sent once, after its length in tokens was granted |
| Pipeline.UnprocessProcess | crypto/pipeline.py:99-121 | for every list of layers and every choice of nonces `unprocess` undoes `process` |
| Pipeline.ProcessInOrder | crypto/pipeline.py:99-109 | the last cipher is the outermost layer, and below all ciphers the last compressor |
| Pipeline.CiphersAreOutside | crypto/pipeline.py:99-109 | peeling the ciphers alone gives the compressed data |
| Pipeline.UnprocessInOrder | crypto/pipeline.py:111-121 | any message is opened by the last cipher first, the compressors after all ciphers, and fails where a layer fails |
| Pipeline.LengthGrowth | crypto/pipeline.py:123-125 | without compressors the growth lies between the overhead plus 1 and plus 16 per padding layer, and equals it exactly when no layer pads |
| Pipeline.Pipe.DoProcess | crypto/pipeline.py:99-109 | the two loops apply compressors, then ciphers, in order |
| Pipeline.Pipe.DoUnprocess | crypto/pipeline.py:111-121 | the two loops peel the layers in reverse order and stop at the first that fails |
| Layers.CamelliaMeetsContract | crypto/ciphers/camellia.py:42-76 | IV, MAC and padded CBC meet the cipher contract for any CBC mode and 32-byte MAC |
| Layers.CamelliaLayout | crypto/ciphers/camellia.py:42-57 | IV, MAC over IV and ciphertext, ciphertext of the padded text |
| Layers.CamelliaTag | crypto/ciphers/camellia.py:59-67 | a message opens only if its tag is the MAC of its IV and ciphertext |
| Layers.CamelliaOpensExactly | crypto/ciphers/camellia.py:59-76 | a message opens to a text exactly when it is what the layer makes of that text with the message's IV |
| Layers.PaddingBytes | crypto/ciphers/camellia.py:45-47 | 1 to 16 bytes up to whole blocks, each the number of bytes added |
| Layers.UnpadPad | crypto/ciphers/camellia.py:45-47 | unpadding undoes padding |
| Layers.PadUnpad | crypto/ciphers/camellia.py:74-76 | only the padding of a text unpads to it |
| Layers.AeadMeetsContract | crypto/ciphers/aes_gcm.py:23-30 | a nonce followed by the sealed text meets the cipher contract |
| Layers.AeadLayout | crypto/ciphers/aes_gcm.py:22-30 | the nonce, then the sealed text, in both directions |
| Layers.KeyInfoInjective | crypto/pipeline.py:87-97 | two layers share a key derivation context only if they are the same cipher at the same position |
| Layers.DecimalDenotes | crypto/pipeline.py:95 | the position is written in the usual decimal notation |
| Layers.KeysTellLayersApart | crypto/pipeline.py:86-97 | for a derivation that tells secrets and contexts apart, two layers have one key only with the same secret, cipher and position, or if their ciphers take no key |
| Layers.FromConfig | crypto/pipeline.py:52-84 | the layers in configuration order, each cipher with the key of context `cipher:<name>:<position>`, no two keyed layers with one key; or the first unknown name |
| Relay.RelaySafety | proxy/http_server.py:291-320 | over the two multiplexers and a lossy raw link, the bytes written at the far socket are a prefix of the bytes read at the near one, for any chunking |
| Relay.WrittenExactly | proxy/http_server.py:306-320 | what the far relay writes is what the messages taken open to, in order, and only if all open |
| Relay.RelayCompletes | proxy/http_server.py:472-502 | over the two multiplexers and the ordered link, every run that leaves nothing to do, from a state with sequence numbers left, gives the far relay every chunk, and what it writes is every byte read |

## Left out

- WebRTC, ICE, the signaling server and client, the cover track: foreign library and I/O. Only the link remains.
- HTTP parsing, sockets, JSON and base64, and the swap of `on_message` handlers at the start of a relay: the relay theorems start after the handshake.
- The insides of AES-GCM, ChaCha20-Poly1305, CBC, HMAC, HKDF and the compressors: abstract functions with the inverse and length contract.
- Key length checks in the cipher constructors, and `isinstance` handling of the secret.
- `_srtt`: computed and never read by the retransmission logic.
- `close`, `close_all`, FIN, SYN and RST: shutdown and stub types, which deliver no data.
- `on_message` or `on_channel` not set, or `on_channel` suspending before it sets `on_message`.
- ReliableChannelClass.ReliableChannel.ProcessDataFrame: runs one receive task to its end. `AcceptFrame` and `DeliverNext` are its parts between suspensions; how several tasks interleave is studied in `OneWay` and `Fifo`.
- ReliableChannelClass.ReliableChannel.Send: ends where the original would wait for the event; `HandOver` goes on after the wait, which is studied in `OneWay`.
- FlowControl.TokenBucket.Consume: takes its clock readings as a list and has no other consumer between two readings; several consumers are calls of `TryConsume` in any order, studied as runs of attempts.
- MultiplexerClass.Multiplexer.HandleRaw: runs the task of one message to its end; tasks that interleave are studied in `Mux`.
- Relay.RelayCompletes: leaves out that a far relay stops after 120 s without a chunk, or once either of its two directions ended; `RelaySafety` holds wherever it stops.
- Float rounding, logging, configuration and startup.
