# Token-exact handover, verified

Spot GPU Migrator moves live LLM streams from a spot node that is about to be preempted to a standby node. This
project models its protocol and algorithms in Dafny and proves what they promise. `dafny verify dfyconfig.toml` checks
everything.

| file | models |
|---|---|
| `Handover.dfy` | proxy and engines as a step system: any number of streams, alerts, readiness signals, pauses and broken connections interleave freely; a step is the code between two suspending awaits |
| `Switchover.dfy` | when the step system's requests change their upstream |
| `Upstream.dfy`, `StreamSession.dfy` | the stream multiplexer for one request, for arbitrary upstream chunks and arbitrary timing |
| `Buffer.dfy` | ring buffer and token deduplicator |
| `NodeDaemon.dfy` | the supervisor's life cycle, with any number of concurrent `on_preemption` calls |
| `Transfer.dfy` | the P2P exchange INIT, REQUEST_STATE, FIN, ACK, NACK over channels that corrupt payloads and break |
| `Migration.dfy` | the parts together: daemon with transfer, daemon with streams |
| `Framing.dfy`, `Crc32.dfy` | SGM-P2P frames and the checksum of section 8 of RFC 1952 |
| `WireFormat.dfy` | frames and messages byte by byte, as section 3 of specs/02-preemption-and-migration-protocol.md lays them down |
| `StopFilter.dfy`, `Tgi.dfy` | the sliding-window stop filter and TGI's resumed stream |
| `Resumption.dfy` | the continuation payloads of the engine hooks, against a deterministic autoregressive engine |
| `Sse.dfy`, `Json.dfy` | event streams, written and read back, over a JSON printer and parser (section 7 of RFC 8259 for strings) |
| `EventSource.dfy` | the event streams as a client reads them that follows section 9.2.6 of the HTML Standard and OpenAI's chat completion chunks |
| `Models.dfy`, `Texts.dfy`, `Sequences.dfy`, `Numbers.dfy`, `Wrappers.dfy` | shared types and helpers |

Objects that the system updates in place are classes whose methods are proved against functions; what the system
promises is proved about those functions. Loops of coroutines that several tasks share are step systems, and
`NodeDaemon.NodeDaemon` is a class whose fields are shown to follow its step system.

## What holds, and what does not

* Exactly-once delivery holds in every interleaving in which the alert reaches the proxy before the active engine stops
  sending. The daemon swallows a failed alert and stops the engine all the same (daemon/core/node_daemon.py:249-250),
  and an unannounced end of the active stream is closed with `[DONE]`. So for a daemon that stopped its engine the
  clients are safe if and only if the alert was delivered (`Migration.AlertDecides`).
* The standby is asked with the original `max_tokens` (proxy/ingress.py:147-149). A handover never
  changes what requests with a given budget get if and only if the budget is 0 or covers the whole answer
  (`Handover.BudgetDecides`); for every budget in between some run delivers a token too many
  (`Handover.SwitchExtendsBudget`).
* Of several stop words the one listed first wins, not the one that comes first in the text. The output is independent
  of the chunking if and only if every listed stop word contains the first one (`StopFilter.ChunkingIndependence`).
* The hooks resume every engine's answer exactly if and only if the cutoff lies inside the generated text and leaves some
  budget, or nothing was generated and nothing flushed; vLLM also needs its token counter to agree
  (`Resumption.ResumptionExact`). Sessions that the daemon takes over from the proxy carry no generated text and the
  default `max_tokens` of 512 (daemon/core/node_daemon.py:185-190), so they meet this if and
  only if nothing was flushed yet (`Migration.SyncedResumption`).
* The specification promises that corrupted frames are sent again (specs/02-preemption-and-migration-protocol.md:329).
  The code's loop always leaves after the first attempt (daemon/transport/p2p_client.py:111-120), and the model follows
  the code: a corrupted frame makes the transfer fail. The server goes on all the same, so the standby may have taken over
  the sessions that arrived intact; `Transfer.RejectedYetAdopted` says exactly when.
* The specification names Zstandard (specs/02-preemption-and-migration-protocol.md:161), the code uses zlib; the model
  needs only that decompression undoes compression.

## Model

| member | source | states |
|---|---|---|
| Handover.StepKeepsInv | proxy/upstream.py:103-197 | Every step of every stream, engine or control message keeps: what a client has is chunk 0 to n-1 of its answer, the deduplicator's mark is n-1, the wire holds exactly the chunks in between, a standby connection never ends short, and sessions exist for just the requests past their routing. |
| Handover.EveryRun | proxy/upstream.py:119-186 | In every interleaving from the start, no request fails, and a request that ended in `[DONE]` got a contiguous beginning of the answer, each token once and in order; it is complete exactly if phase 1 did not end short without a signal. |
| Handover.ExactlyOnce | proxy/ingress.py:124-160 | If alerts come before pauses and broken connections, every ended request has its answer complete and once, whether readiness or the timeout forced the switch; for `max_tokens` of at least the answer's length that is the corpus. It equals the uninterrupted run's output exactly if the standby was not asked to resume behind token 0 or the budget covers the corpus. |
| Handover.NoMissedPreemption | proxy/ingress.py:257-274 | In every run, once an alert was handled, each request still served by the active engine has `preemption_signaled` set and nobody chooses the active engine any more. |
| Handover.RunKeepsCutsAnnounced | simulator/mock_engine.py:64-79 | With alerts first, a shortened active stream exists only after the proxy was told, and no stream is ever ended short. |
| Handover.EveryRequestCanEnd | proxy/upstream.py:119-197 | From every reachable state every live request, wherever its coroutine is suspended and whatever is in flight, has a bounded sequence of steps of its own that ends it in `[DONE]`; no other stream changes, and its budget, and behind the switch its resume point, stay. |
| Handover.EveryFairRunEnds | proxy/upstream.py:119-197 | From every reachable state, every endless run in which a live request gets its next turn again and again ends it in `[DONE]`, whatever the other requests, the engines, breaking connections and control messages do in between. |
| Handover.FairRunsExist | proxy/upstream.py:119-197 | There are such runs for every live request in every reachable state. |
| Handover.TurnsBounded | proxy/upstream.py:119-197 | No run gives a request more turns than a bound read off its state. Every finite run has either ended it in `[DONE]`, at a step until which it was live, or it is live throughout and has had fewer turns than that. |
| Handover.EveryRequestCanComplete | proxy/upstream.py:140-186 | In a run with the alert in time such an end exists for every live request, and its answer is then complete. |
| Handover.DeliversCorpus | simulator/mock_engine.py:113-150 | In every run with the alert in time, a request that ended with a budget for the whole answer has given its client each corpus token once: chunk n has id n and token n, for all n and nothing else. |
| Handover.SwitchExtendsBudget | proxy/ingress.py:145-149 | For every request with a budget below the answer's length there is a run with the alert in time in which exactly this request, with this budget, gets the uninterrupted output and one token more. |
| Handover.BudgetDecides | proxy/ingress.py:145-149 | Every request with a given budget, in every run with the alert in time, gets the uninterrupted output if and only if the budget is 0 or covers the answer. |
| Handover.UnannouncedPauseTruncates | proxy/upstream.py:140-185 | A pause before the alert ends a request in `[DONE]` with nothing delivered. |
| Handover.UnannouncedBreakTruncates | proxy/ingress.py:247-253 | A connection that breaks before the alert ends a request in `[DONE]` without the token that the engine had sent. |
| Switchover.SwitchHasReason | proxy/upstream.py:149-168 | In every run a request goes on at the standby only after its readiness was announced or its wait timed out. |
| Switchover.CutoffHolds | proxy/upstream.py:129-137 | From every reachable state, after an alert whose cutoff is an id and until the next alert: a request that was reading takes from its first upstream at most one chunk beyond what it had and beyond the ids below the cutoff, and asks the standby for no later id. |
| Switchover.ResumedInTime | simulator/mock_engine.py:64-79 | An engine that is resumed before any engine's next turn might as well not have been paused, whatever happens in between and after. |
| Upstream.StreamMultiplexer.StreamWithHandover | proxy/upstream.py:103-197 | For arbitrary active and standby chunks and timing: data ids continue the mark without gap or repetition; `[DONE]` is written once and last, or not at all if a gap was raised. The active stream is left at the first chunk by which a signal has come whose cutoff is reached, and at no earlier one; the switch is made if and only if a signal came by the end of phase 1 without a gap; the standby is asked for the next id and the output is the active passage followed by the standby's. Between the two the client is kept alive as in `BufferUntilReady`, counted from the last chunk it was sent. Session and mark are gone afterwards. |
| Upstream.StreamMultiplexer.Relay | proxy/upstream.py:119-182 | The three phases: when the active stream is left, whether the switch is made, how long is waited and why no longer, and what the output consists of, all from the environment's signals and the chunks. |
| Upstream.StreamMultiplexer.StreamActive | proxy/upstream.py:119-137 | Phase 1 passes exactly what the deduplicator passes of the consumed part. It ends at the first chunk k such that, by the time k was dealt with, a signal had come whose latest cutoff is an id up to that of k, and then with this cutoff; or at the first gap or the end of the stream if that comes before. The last activity is the moment the last chunk had been passed on. It ends signaled, or ready, if and only if such a signal came before or during it. |
| Upstream.StreamMultiplexer.BufferUntilReady | proxy/upstream.py:147-170 | The loop ends at the turn of the first readiness signal, at once if it came before, and otherwise not before 2.5 s. Keep-alives are sent after at least the interval, at most 4 of them at 0.8 s. If no suspension lasts longer than 100 ms, the client is never idle for the interval plus one wait (or for more than two waits), and the phase takes less than 2.7 s. |
| Upstream.StreamMultiplexer.StreamStandby | proxy/upstream.py:178-182 | Phase 3 passes what the deduplicator passes of the standby stream, all of it unless a gap is raised. |
| Upstream.StreamMultiplexer.SwitchToStandby | proxy/upstream.py:140-182 | Buffering and standby together: the waiting is that of `BufferUntilReady`, the resume id is the mark plus one, and no `[DONE]` comes from here. |
| Upstream.StreamMultiplexer.TriggerPreemption | proxy/upstream.py:72-78 | Signals an existing session with the cutoff, changes no other and creates none. |
| Upstream.StreamMultiplexer.TriggerHandoverReady | proxy/upstream.py:80-85 | Marks an existing session ready, changes no other and creates none. |
| Upstream.StreamMultiplexer.CleanUp | proxy/upstream.py:195-197 | Removes exactly this request's session and mark. |
| Buffer.RingBuffer.Put | proxy/buffer.py:32-36 | The buffer represents the puts so far: each slot holds the latest put of its residue class. |
| Buffer.RingBuffer.Get | proxy/buffer.py:38-43 | Returns the latest put of the id's residue class if it has this id, else nothing, for every history of puts with ids from 0. |
| Buffer.RingBuffer.GetSlice | proxy/buffer.py:45-57 | Collects the ids in order up to the first one that is not readable. |
| Buffer.RingBuffer.Clear | proxy/buffer.py:59-62 | Is as new. |
| Buffer.Window | proxy/buffer.py:32-43 | After consecutive puts exactly the last `capacity` ids are readable, each with its own chunk. |
| Buffer.SliceOfWindow | proxy/buffer.py:45-57 | A slice from inside the window is everything up to its end or the last id; from outside it is empty. |
| Buffer.TokenDeduplicator.FilterChunk | proxy/buffer.py:104-142 | The verdict, the new mark and the put into the request's ring buffer; no other request's buffer or mark changes; ring buffers and marks stay in step. |
| Buffer.TokenDeduplicator.RecordFlushed | proxy/buffer.py:98-102 | Raises the mark, never lowers it; called on its own it keeps ring buffers and marks in step if and only if it does not raise it. |
| Buffer.TokenDeduplicator.ResetRequest | proxy/buffer.py:144-147 | Forgets mark and buffer of this request only; ring buffers and marks stay in step. |
| Buffer.HistoryInStep | proxy/buffer.py:104-147 | After every history of filtered chunks and resets of any requests, a request's mark counts the chunks it accepted since its last reset, and its ring buffer received just these, in order, chunk n under id n. |
| Buffer.DeduplicatorWindow | proxy/buffer.py:38-57 | After every such history exactly the last `capacity` accepted chunks of a request are readable, each under its own id, and slices are parts of them. |
| Buffer.Isolation | proxy/buffer.py:94-147 | Projecting any interleaving of filter, record and reset operations onto one request gives what it would get alone. |
| Buffer.ResetIsFresh | proxy/buffer.py:144-147 | After a reset a request behaves as if never seen. |
| Buffer.PassageIsNumbered | proxy/buffer.py:104-142 | Whatever arrives, what passes continues the numbering without gap or repetition. |
| Buffer.ReplayTolerance | proxy/buffer.py:104-142 | A consecutive stream that starts at or before the next id passes without a gap and contributes exactly its unseen part. |
| StopFilter.FilterInvariant | daemon/integrations/tgi.py:42-90 | For any stop list and chunking: matched exactly if some stop word occurs in all text fed; until then output and buffer make up the text, and the buffer is its longest suffix that begins a stop word. |
| StopFilter.OutputAtMatch | daemon/integrations/tgi.py:56-64 | The whole output of a matched run is the text before the first occurrence of the first-listed stop word present when the first one completes. |
| StopFilter.CutIsClean | daemon/integrations/tgi.py:56-64 | That text contains no stop word listed at or before the one that matched. |
| StopFilter.FlushIsSilent | daemon/integrations/tgi.py:92-115 | On every reachable state the final flush returns nothing: two of its branches are unreachable. |
| StopFilter.OutputWithoutMatch | daemon/integrations/tgi.py:67-115 | An unmatched run's output is the text without its longest suffix that begins a stop word. |
| StopFilter.OutputIsWholeText | daemon/integrations/tgi.py:42-115 | If every stop word contains the first, the output is a function of the whole text. |
| StopFilter.ChunkingIndependence | daemon/integrations/tgi.py:56-64 | The output is independent of the chunking exactly if every listed stop word contains the first one. |
| Tgi.SlidingWindowStopFilter.Feed | daemon/integrations/tgi.py:42-90 | The object follows the specification on its whole history; no emitted text is empty; `matched_stop` exactly if a stop word occurs in all text fed. |
| Tgi.SlidingWindowStopFilter.Scan | daemon/integrations/tgi.py:46-90 | The two search loops compute the specified step. |
| Tgi.SlidingWindowStopFilter.HoldLength | daemon/integrations/tgi.py:66-78 | The search over ever shorter suffixes finds the longest one that begins a stop word. |
| Tgi.SlidingWindowStopFilter.FlushFinal | daemon/integrations/tgi.py:92-115 | Emits nothing and empties the buffer. |
| Tgi.UsableInOrder | daemon/integrations/tgi.py:37-38 | Of the stop words exactly the empty ones are dropped, and the order of the others, which decides between them, is kept. |
| Tgi.StreamResumed | daemon/integrations/tgi.py:411-493 | Resumed chunks are non-empty, none is final, they are numbered consecutively behind the last flushed id, and they spell what the filter, for the requested stop words or `<|eot_id|>` and `</s>` if none are requested, lets through of the lines up to `[DONE]`, a line that raises, or the first line that is final or completes a stop word. |
| Tgi.ResumedChunksPass | daemon/integrations/tgi.py:411-493 | A deduplicator that holds the last flushed id accepts every one of them. |
| Crc32.TableFormIsSerial | daemon/protocol/framing.py:76-77 | The byte-wise table form of the checksum is the bit-serial shift register, on every input. |
| Crc32.ChecksumIsRemainder | daemon/protocol/framing.py:76-77 | On every input: the complement of the checksum, lowest bit first, and nothing else is the remainder of dividing the message polynomial over GF(2), its first 32 coefficients complemented and times x^32, by the generator with the exponents 32, 26, 23, 22, 16, 12, 11, 10, 8, 7, 5, 4, 2, 1, 0. |
| Crc32.CheckValue | daemon/protocol/framing.py:76-77 | The check value: `123456789` has the checksum 0xCBF43926. |
| Crc32.BurstDetected | daemon/protocol/framing.py:145-151 | Two payloads that differ within some 32 consecutive bits have the same checksum only if they are equal. |
| Crc32.ByteFaultIsBurst | simulator/chaos.py:11-22 | Replacing any one byte is such a difference: the injected fault is always detected. |
| Framing.HeaderRoundTrip | daemon/protocol/framing.py:91-117 | Decoding an encoded header gives it back, and refuses it exactly for a declared length above the maximum. |
| Framing.HeaderCanonical | daemon/protocol/framing.py:104-117 | Encoding a decoded header gives the 16 bytes back. |
| Framing.FrameRoundTrip | daemon/protocol/framing.py:62-156 | Both readers return what was packed, whatever bytes follow, and the stream reader stops exactly behind the frame. |
| Framing.StreamRoundTrip | daemon/protocol/framing.py:159-192 | Reading any concatenation of frames yields those messages in order and leaves exactly the bytes behind the last one. |
| Framing.NoPrefixDecodes | daemon/protocol/framing.py:135-143 | No proper prefix of a frame decodes, in either reader. |
| Framing.ReadersAgree | daemon/protocol/framing.py:120-192 | The one-shot decoder and the stream reader accept the same bytes with the same outcome. |
| Framing.TamperedRead | daemon/protocol/framing.py:182-187 | A payload of the same length with another checksum raises the CRC error in both readers, and the next frame is still found. |
| Framing.CorruptionDetected | daemon/protocol/framing.py:145-151 | Every change of a payload within 32 consecutive bits does that, for every payload and position. |
| Framing.StreamReader.ReadFrameAsync | daemon/protocol/framing.py:159-192 | The reader follows the specification and leaves the rest of the stream unread. |
| Framing.StreamWriter.WriteFrameAsync | daemon/protocol/framing.py:195-214 | One whole frame is appended, or nothing if it cannot be packed. |
| WireFormat.FrameLayout | daemon/protocol/framing.py:62-88 | Byte by byte: `SGM1`, version, type, two bytes of flags, four of length, four of checksum, most significant first, then the payload, compressed only on demand, beyond 64 bytes and if that is shorter, with bit 0 of the flags set. Packing is refused exactly beyond 16 MiB on the wire or for a field that does not fit. |
| WireFormat.FrameRead | daemon/protocol/framing.py:159-192 | Whoever writes bytes of this form is understood: type, flags and payload, decompressed if bit 0 is set, or the CRC error exactly for a wrong checksum; what follows is left unread. |
| Transfer.FramesInStep | daemon/transport/p2p_server.py:96-162 | For every damage to payloads that their checksums notice and every break, the receive loop over the bytes is the loop over one outcome for each frame: the reader never loses frame sync. |
| Transfer.BurstsAreCarried | daemon/protocol/framing.py:145-151 | Damage within 32 consecutive bits of each payload is always such damage: the results about transfers hold for all of it. |
| Transfer.AckSoundness | daemon/transport/p2p_client.py:98-151 | `send_sessions` returns if and only if every frame arrived whole and intact, the server was not stopped, and the ACK came back intact; then the accepted ids are the sent ids in order, and every session was stored, adopted and announced before the ACK. |
| Transfer.CorruptionRejected | daemon/transport/p2p_server.py:100-112 | The first corrupted frame makes the first reply a NACK, and the client raises, whatever the server does later. |
| Transfer.TakenOverWhenDamaged | daemon/transport/p2p_server.py:96-162 | For every set of noticeably damaged frames and every break: if FIN is read, the sessions taken over and acknowledged are exactly those whose frames arrived intact, in order; otherwise none is taken over. |
| Transfer.RejectedYetAdopted | daemon/transport/p2p_server.py:137-162 | `send_sessions` raises although the standby took over some session if and only if a callback is registered, FIN is read, some session's frame arrived intact, and a frame was damaged or the ACK does not come back intact. |
| Transfer.RepliesComplete | daemon/transport/p2p_server.py:126-162 | An intact transfer stores the sessions in order, runs the callback, then sends the ACK as its only reply. |
| Transfer.RepliesOtherwise | daemon/transport/p2p_server.py:96-116 | In every other case the first reply is a NACK, or there is none. |
| Transfer.FirstReplyDecides | daemon/transport/p2p_client.py:126-149 | The client's verdict is a function of the first reply and of whether it arrives whole and intact. |
| Transfer.StandbyHolds | daemon/core/node_daemon.py:285-305 | After the events before the ACK, server and standby hold each session as sent, and each was announced behind its last flushed id. |
| Transfer.FaultlessChannel | daemon/protocol/framing.py:195-214 | A channel without faults delivers exactly the bytes that were written. |
| Transfer.P2PServer.HandleClient | daemon/transport/p2p_server.py:90-175 | The loop does what the specification says, its map and the standby's hold what the events say, and exactly the replies are written. |
| Transfer.P2PServer.HandleFrame | daemon/transport/p2p_server.py:97-166 | One turn of the loop, for every outcome of the read and every message type. |
| Transfer.StandbyDaemon.OnStandbySessionsReceived | daemon/core/node_daemon.py:285-305 | Every session is adopted and its announcement attempted, in order; a failed announcement changes nothing. |
| Transfer.P2PClient.SendSessions | daemon/transport/p2p_client.py:62-158 | A refused connection fails the call with nothing written. Otherwise the whole script is written once and the first reply decides; or the frames before the first message that cannot be packed or written are written and the call fails. |
| Transfer.P2PClient.Transmit | daemon/transport/p2p_client.py:107-123 | The retry loop writes at most one frame, and none if packing or writing raises. |
| WireFormat.ScriptOnTheWire | daemon/transport/p2p_client.py:90-126 | What is sent: type 1 with node id and number of requests, type 2 with each session in order and flag 2 on the last one only, type 5 with `{"status":"DONE"}`. |
| WireFormat.DamageIsRefused | daemon/transport/p2p_server.py:100-112 | A damaged frame is answered by type 7 with error code 1, and the server goes on with the sessions it has. |
| WireFormat.FinIsAcknowledged | daemon/transport/p2p_server.py:137-162 | Type 5: each session so far is adopted and announced behind its last flushed id, in order, if a callback is registered; then type 6 names them all in order; then the connection ends. |
| WireFormat.OthersAreTakenIn | daemon/transport/p2p_server.py:117-166 | Types 1 and 2 are taken in if they can be decoded and end the connection without a word if not; type 8 is answered with type 8 and `PONG`; every other type is passed over. |
| NodeDaemon.StepKeepsInv | daemon/core/node_daemon.py:157-230 | Every step keeps: the trace is the life cycle up to the state, one call at most was not ignored, its phase, the state and the shape of the log agree, and session ids are distinct. |
| NodeDaemon.EveryRun | daemon/core/node_daemon.py:118-230 | In every interleaving of any number of `on_preemption` calls and registry changes: the states passed are a beginning of the life cycle, at most one call migrates, and alert, aborts, pause, transfer and report happen in this order, once each but for the aborts. |
| NodeDaemon.TransferDecides | daemon/core/node_daemon.py:206-226 | The node is past STATE_STREAMING if and only if a transfer was accepted; after a refused one it stays there; snapshots have distinct ids. |
| NodeDaemon.FailureIsFinal | daemon/core/node_daemon.py:223-226 | After a failed transfer the state is STATE_STREAMING in every later state of every run. |
| NodeDaemon.RunsExtend | daemon/core/node_daemon.py:118-127 | Effects are never taken back and states never revisited. |
| NodeDaemon.CutoffIsMaximum | daemon/core/node_daemon.py:195-199 | The cutoff is the greatest last flushed id, -1 for none, and nothing else. |
| NodeDaemon.AlertIsGrounded | daemon/core/node_daemon.py:176-202 | In every run the alert is the first effect. If the migrating call found no sessions and there is a proxy, the proxy was asked and its answer registered before, and the alert has cutoff and ids of the registry then; otherwise those of the registry the call found. |
| NodeDaemon.PutAllSynchronizes | daemon/core/node_daemon.py:178-193 | After an answer each request in it has one session, with prompt and last flushed id of its last entry, no generated text and 512 tokens; no other session is new and none is gone. |
| NodeDaemon.NodeDaemon.ComputeCutoff | daemon/core/node_daemon.py:195-199 | The running-maximum loop computes it. |
| NodeDaemon.NodeDaemon.OnPreemption | daemon/core/node_daemon.py:157-230 | Follows the step system: ignored unless HEALTHY, else ends TERMINATED if the transfer was accepted and raises in STATE_STREAMING if not, after the attempt to write the snapshot's script. |
| NodeDaemon.NodeDaemon.Detect | daemon/core/node_daemon.py:162-193 | Check and transition are one step, so one call passes. An empty registry with a proxy waits for the answer and then has one session for each request in it; any other registry is left as it was, without a suspension. |
| NodeDaemon.NodeDaemon.RegisterSession | daemon/core/node_daemon.py:129-132 | Replaces the session of this id in its place or adds it at the end; all others stay. |
| NodeDaemon.NodeDaemon.UpdateSessionToken | daemon/core/node_daemon.py:134-147 | Appends the token to the session of this id and to no other. |
| NodeDaemon.NodeDaemon.CompleteSession | daemon/core/node_daemon.py:149-151 | Removes the session of this id and no other. |
| NodeDaemon.NodeDaemon.AlertProxy | daemon/core/node_daemon.py:201-205 | One alert with cutoff and ids of the registry, delivered or not; then BUFFERING_INGRESS. |
| NodeDaemon.NodeDaemon.PauseLocalEngine | daemon/core/node_daemon.py:267-283 | One abort for each registered id in order, the pause, then STATE_STREAMING with the registry as snapshot, and nothing else. |
| Migration.HandoverSoundness | daemon/core/node_daemon.py:206-218 | If the daemon reaches HANDOVER_COMPLETE then, for any damage to payloads that their checksums notice and any break on the way, the accepted ids are the snapshot's, and server and standby held every session of the snapshot and had attempted `handover-ready` behind its last flushed id before the ACK was sent. |
| Migration.AcceptedIsTakenOver | daemon/transport/p2p_server.py:137-162 | An accepted transfer means just that for its sessions. |
| Migration.SyncedResumption | daemon/core/node_daemon.py:178-193 | A session known only from the proxy is resumable if and only if nothing was flushed; an engine is made to continue its bare prompt for 512 tokens, whatever the request's own `max_tokens`. |
| Migration.AlertComesFirst | daemon/core/node_daemon.py:201-205 | Streams driven by a reachable daemon whose alert is delivered see the alert before every pause. |
| Migration.AlertDecides | daemon/core/node_daemon.py:232-283 | For every reachable daemon that stopped its engine: every request that ends, in every interleaving it drives, has its complete answer if and only if the alert was delivered. |
| Migration.WholeMigration | daemon/core/node_daemon.py:157-305 | If the daemon reaches HANDOVER_COMPLETE and its alert was delivered, then in every interleaving of alert, pauses and readiness signals with the streams, each transferred request is told to be ready once the announcements arrive, and every request that ends has its complete answer. |
| Migration.ReadySwitches | proxy/ingress.py:276-289 | In every reachable state a readiness signal makes a buffering request switch to the standby at its next look, without the timeout, behind exactly what was delivered. |
| Migration.StepSystemFollowsMultiplexer | proxy/upstream.py:103-197 | In every run of the step system, what an ended request delivered is an output that the contract of `Upstream.StreamMultiplexer.StreamWithHandover` allows, for an active stream that brought a beginning of the answer and the standby's own answer. |
| Resumption.TaskIs | daemon/integrations/vllm.py:183-215 | Each of the three separately built payloads, in its native or chat form, makes the engine continue prompt and generated text up to the cutoff, or all of the text if the cutoff lies outside. |
| Resumption.SpokenInTurn | daemon/integrations/vllm.py:204-213 | In the chat forms the user speaks first and says the prompt, and the assistant has said the generated text, if there is a prompt; without one the user says the generated text. |
| Resumption.PrefixAndBudget | daemon/integrations/vllm.py:183-202 | The prefix is what the client has, and prefix and budget make up `max_tokens`, if and only if the condition of `ResumptionExact` holds. |
| Resumption.HooksAgree | daemon/integrations/tensorrt_llm.py:227-243 | The builders of any two hooks and forms have their engines continue the same text with the same prefix count, and with the same budget exactly unless one is vLLM's and counts tokens it has no text for. |
| Resumption.ResumptionExact | daemon/integrations/tgi.py:264-280 | For all engines, flushed prefix and resumed generation make up the uninterrupted answer if and only if a condition on cutoff, text and budget holds that can be checked before the call. |
| Resumption.ResumedContinues | daemon/integrations/vllm.py:183-202 | The resumed generation is the rest of the uninterrupted answer behind the cutoff. |
| Resumption.MigrationsCompose | daemon/integrations/vllm.py:183-202 | Any number of migrations in a row, each with its own cutoff, still yields the uninterrupted answer. |
| Resumption.StreamResumedVllm | daemon/integrations/vllm.py:327-363 | One chunk for each line; the numbering continues without gap or repetition if and only if the engine's own ids, where present, are the expected ones. |
| Resumption.StreamResumedTriton | daemon/integrations/tensorrt_llm.py:338-389 | One chunk for each line up to the end of the sequence, numbered consecutively from the first missing id. |
| Json.StringRead | proxy/upstream.py:101 | Reading a printed JSON string yields it, for every string: control characters, quotes, backslashes, and characters beyond 16 bits as surrogate pairs. |
| Json.LoadsDumps | proxy/ingress.py:228 | Reading undoes writing, for every JSON value. |
| Json.TruncatedObject | proxy/ingress.py:227-246 | No proper beginning of a printed object is a JSON text. |
| Json.EscapesOfTheStandard | proxy/ingress.py:228 | The reader takes each escape of section 7 of RFC 8259 for its character, surrogate pairs included. |
| Json.PrintedForms | proxy/upstream.py:101 | The texts of constants, numbers, strings, lists and objects are those of `json.dumps`. |
| Json.SpaceMayFollow | proxy/ingress.py:228 | A printed value with something behind it reads as the value if that is white space, and not at all otherwise. |
| Sse.ReadsWhatWasWritten | proxy/ingress.py:209-246 | For every sequence of events with comments and blank lines interspersed, reading the stream yields in order what the payloads before the first `[DONE]` say, and nothing else. |
| Sse.ClientReads | proxy/upstream.py:87-101 | What is read off the multiplexer's output are exactly the ids and tokens of the chunks it passed on, whatever characters the tokens hold. |
| Sse.UpstreamReads | simulator/mock_engine.py:137-165 | What the proxy reads off an engine's stream is exactly what the step system puts on the wire. |
| Sse.BrokenStreamRead | proxy/ingress.py:209-249 | Wherever a stream breaks off, what is read is a beginning of what was said. |
| Sse.BrokenUpstreamReads | proxy/ingress.py:209-249 | So a broken engine connection can only lose last chunks, as the step system has it. |
| Sse.SseChunkGenerator | proxy/ingress.py:209-246 | The reader loop computes the specified chunks. |
| Sse.BareTokensNumbered | proxy/ingress.py:214-246 | Payloads with a `token` only are numbered by the reader, from the `id:` line before them. |
| Sse.NumberForms | proxy/ingress.py:238 | The number of a chunk is what `int()` makes of a number, a truth value or a number as text; a payload without one has that of its place, and of anything else no chunk is made. |
| EventSource.CompletionChunksRead | proxy/upstream.py:87-101 | For every output: a client that reads it as the HTML Standard says gets one message for each chunk passed on, in order, with the chunk's id as event id, and off its JSON `chatcmpl-` with the request id, `chat.completion.chunk`, the one choice 0 with the token, `finish_reason` "stop" if and only if the chunk is final and null otherwise; then `[DONE]` if the output is complete, and nothing of the keep-alives. |
| EventSource.EngineChunksRead | simulator/mock_engine.py:137-165 | The same for an engine's stream: "stop" on the last token of the whole answer only, `token` and `seq` beside the choice. |

## Left out

- Requests with the same id at the same time: sessions, marks and buffers are keyed by id, so the step system lets an id arrive again only after it has ended.
- Requests that bring their own `start_seq_id`, non-streaming requests, clients that disconnect, and HTTP errors of an upstream.
- A negative `max_tokens`, for which the engine's slice counts from the end of the answer.
- Migration.StepSystemFollowsMultiplexer: relates outputs, not the timing of signals and suspensions, which both models leave free.
- Ring buffers of capacity 0: Python would divide by zero at the first put.
- Upstream.StreamMultiplexer.StreamWithHandover: the deduplicator is represented by its marks; that its ring buffers stay in step with them is `Buffer.HistoryInStep`.
- Upstream.StreamMultiplexer.BufferUntilReady: time is a real number that passes in suspensions only, and a timed-out wait takes at least its 100 ms.
- Other latency goals (abort within 50 ms, time to first token, 2.5 s in all): they are measurements.
- Handover.ExactlyOnce: the alert must be handled before the engine stops, and the standby neither pauses nor breaks off; the first is shown necessary, the second is the service the design relies on.
- Transfer.AckSoundness: damaged payloads keep their length and get another checksum, as they always do for damage within 32 consecutive bits, and connections break anywhere; damage that a checksum misses goes unnoticed in the program, too, and header bytes arrive as sent, because neither checksum nor check covers them.
- Transfer.P2PClient.SendSessions: a write that raises is taken to put nothing of its frame on the wire; that part of a frame may arrive is a broken channel of `Transfer.AckSoundness`.
- A reply that cannot be written because the client has gone, more than one callback, and the contents of error messages and timestamps.
- A timeout of the client counts as a connection that delivers no more.
- Zlib and pydantic internals: compression and the JSON form of the control payloads are parameters that must be lossless; of a session the fields that no protocol step looks at are dropped.
- NodeDaemon.NodeDaemon.UpdateSessionToken: `update_session_token` changes the session object in place, so a token recorded while a transfer is under way could still reach the wire; the model sends the sessions as they stand when the snapshot is taken. Nothing in the repository calls it during a transfer.
- A daemon without an engine hook, the state-change hook, watchdogs, metadata services, the engine factory and the teardown's own calls; `on_preemption` may be called at any time instead.
- Resumption.ResumptionExact: `max_tokens` is at least 1, as the session model demands; an engine is taken to continue the concatenated contents of the messages; vLLM's `prompt_token_ids`, sampling parameters and template switches are dropped.
- Json.LoadsDumps: numbers are integers, and a surrogate without its partner, which Dafny's characters cannot hold, is refused.
- Sse.ReadsWhatWasWritten: streams are ASCII, as the writers make them; `int()` is taken for ASCII digits with a sign, and stripping for ASCII white space.
- `daemon/memory/session.py` is a near copy of client and server; the mock and SGLang hooks add request switches to vLLM's payload that no property here depends on; command line, dashboard and deployment send and change none of the protocol's messages.
