# go2rtc in Dafny: PTZ protocol, producer life, media codecs and two buffers

This project models the parts of a patched go2rtc that keep state or move bytes by hand, and proves what they are relied upon for.

* **Xiaomi PTZ** (`PtzProtocol`, `PtzLease`, `PtzGate`, `PtzTheorems`, `PtzCameras`): the reference-counted, single-flight connection lease with its epoch-guarded keepalive timer, the registry of cancellable commands and the capacity-1 channel used as a gate. Every mutex-protected block, channel operation and context check is one atomic step; commands, stop requests, the connect goroutine and timer callbacks (stale ones included) interleave freely. The theorems hold in every state of every run. The class `PtzCamera` is the object itself, each method proved to take the step of the protocol.
* **Stream producer** (`ProducerLife`, `Nodes`, `Producers`): worker generations and reconnects as a state machine, and the heap of parent and child nodes that a reconnect rewires in place.
* **H.265** (`H265Nal`, `H265Depay`, `H265RoundTrip`): RTP fragmentation, the reassembly state machine for arbitrary packet sequences, and the round trip between them.
* **H.264** (`H264Pay`, `H264RoundTrip`, `Avcc`, `AnnexB`, `AnnexBEncoder`): the payloader with its STAP-A state against a reference depacketizer, AVCC streams, and the conversion of Annex B to AVCC that inserts bytes while it scans, with a writer of byte streams that it inverts.
* **SPS** (`Bits`, `BitIO`, `SpsSyntax`, `SpsParsers`, `SpsLocality`, `SpsLockstep`, `SpsTruncation`, `SpsEncoder`): the bit reader and writer, Exp-Golomb codes, the SPS parser, the in-place patcher that has to stay in lockstep with it, truncated input, and an encoder of the syntax that the parser inverts.
* **MPEG-TS** (`TsSyntax`, `TsTables`, `TsMux`, `TsDemux`, `TsDemuxer`, `TsRoundTrip`, `TsRuns`, `TsStream`): muxer and demuxer, packet by packet, up to whole streams of interleaved tracks, and program tables and headers with everything in them that the muxer does not write.
* **fMP4** (`IsoMovie`, `IsoFragment`, `IsoReader`, `IsoBoxes`, `IsoParsers`, `Keyframes`, `Mp4Muxer`): atoms with back-patched sizes, the movie fragment, its decoder, fragments of other writers, key frames, and the times of interleaved tracks under the repair of durations.
* **AAC** (`Adts`, `AdtsRoundTrip`), the **log buffer** (`LogBuffer`) and the **probing reader** (`ReadBuffers`).

Objects that the source updates in place are classes with those fields; their methods are proved against specification functions, and the theorems are about these functions. What a standard fixes (profiles, NAL unit types, table and box layouts) is written out in the reference encoders and depacketizers, or in the statements, and not taken from the functions under proof. `Bytes`, `Seqs` and `Wrappers` hold shared vocabulary. Bytes are integers below 256; every place where a Go integer wraps or a slice expression panics is written out (`% TWO32`, `None`, `Panic`).

Some properties one would expect of the code are false. They are kept as theorems about when exactly the code meets them:

* a keepalive callback may take its epoch for the current one after 2^64 acquires. It then clears a camera that another keepalive or a connect is in charge of; with a connect in flight, the connect goroutine closes a nil channel. `PtzLease.LeaseStep`, `PtzTheorems.LeaseHoldsExactly` and `CollisionPanics` say that this is the only step that breaks the lease, `LateCallbackPanics` gives a run; the lease theorems are about all other runs;
* H.265 reassembly panics on certain stray end fragments, because the guard against a stale `nuStart` tests the wrong side (`H265RoundTrip.PanicsExactly`, `StrayEndPanics`), and never emits an access unit whose last NAL unit is a parameter set or SEI in one small packet (`RoundTripExactly`);
* a program map for more than 34 tracks is not learned (`TsRoundTrip.MapLimit`), and one for more than 33 leaves bytes in the stream (`HeaderLimit`) that the next read takes for a packet (`LeftoverTurn`);
* the SPS patcher misses the flag behind a scaling list (`SpsLockstep.FixClearsExactly`, with such a parameter set in `SpsEncoder.ListHidesTheFlag`);
* ReadUEGolomb does not return 2^32-1 (`Bits.UELimit`);
* an H.264 aggregation packet above the mtu is dropped with the parameter sets in it (`H264RoundTrip.Conservation`);
* an fMP4 clock does not keep pace with the timestamps: a repaired duration stands for the whole gap, so that a forward gap leaves the clock behind, and a backward one ahead, by just that gap; and an AAC fragment counts 1024 whatever its gap is (`Mp4Muxer.DriftOfRun`, `KeepsPace`, `PauseIsLost`); an MPEG-TS clock does not count a timestamp that follows zero (`TsMux.OffsetOfRun`, `ClockKeepsPace`);
* off a byte boundary the bit writer writes a byte twice (`BitIO.Writer.WriteByte`);
* the reader of track fragment headers does not know of a base data offset or a description index, and takes them for the fields behind them (`IsoBoxes.TfhdLimit`); of track and media headers in version 1 it takes half a time for the track id or the time scale (`StampedReads`);
* more than 4095 AAC units do not survive RTP (`AdtsRoundTrip.RoundTripLimit`), and the converter never returns exactly if the claimed lengths lead it to a frame that claims none (`HangsExactly`);
* moving consumers between nodes keeps them all only if the destination had none (`Nodes.MoveNode`).

## Model

| member | source | states |
|---|---|---|
| `PtzTheorems.LeaseSafety` | internal/xiaomi/ptz_connection.go:92-176 | In every state of every run without a colliding callback: one connect in flight at most and its own ready channel there, not yet closed; one open lease at most, no lease closed twice, no close of a nil or a closed channel; `users` is the number of commands between acquire and release and is zero without `ready`; an unused camera is cleared, connecting, or kept alive with a timer armed for the current epoch |
| `PtzTheorems.WaiterSeesItsGeneration` | internal/xiaomi/ptz_connection.go:116-133 | A waiter that got past its ready channel finds the lease or the error of the very generation it waited for |
| `PtzTheorems.HeldLeaseIsOpen` | internal/xiaomi/ptz_connection.go:125-141 | From a successful acquire to its own release the lease of a command is the current one and is not closed |
| `PtzTheorems.KeepaliveCloses` | internal/xiaomi/ptz_connection.go:157-164 | An open lease without users has an armed timer whose callback clears the camera and leaves every lease closed exactly once |
| `PtzTheorems.StaleCallbackIsInert` | internal/xiaomi/ptz_connection.go:158-164 | A timer callback changes the camera if and only if it belongs to the keepalive now armed, or collides; otherwise it only disappears |
| `PtzTheorems.LeaseHoldsExactly` | internal/xiaomi/ptz_connection.go:158-164 | The lease invariant holds in every state of a run if and only if no callback of the run collides, that is, clears a used-up camera for the epoch of another acquire |
| `PtzTheorems.CollisionPanics` | internal/xiaomi/ptz_connection.go:103-114 | With a connect in flight its goroutine panics after a callback if and only if that callback collides |
| `PtzTheorems.PunctualIsClean` | internal/xiaomi/ptz_connection.go:96-101 | No callback collides unless it was held back for 2^64 acquires |
| `PtzTheorems.LateCallbackPanics` | internal/xiaomi/ptz_connection.go:103-114 | There is a run with a colliding callback that closes a nil channel |
| `PtzTheorems.GateSafety` | internal/xiaomi/ptz_connection.go:201-214 | At most one holder of the gate, a token exactly while there is one, and the last direction attempted is stop whenever the gate is free or a stop request holds it |
| `PtzTheorems.DoomedCommandsNeverMove` | internal/xiaomi/ptz.go:71-94 | Once a stop request holds the gate, no command registered before its cancelCommands ever sends a movement again |
| `PtzTheorems.MovementsAreCovered` | internal/xiaomi/ptz.go:86-92 | A movement is sent only over an open lease, by the only holder of the gate |
| `PtzTheorems.CancelledMovesOnce` | internal/xiaomi/ptz.go:167-173 | Once a command is cancelled it sends at most one more movement, and that only if it had already passed the check in front of it |
| `PtzTheorems.CancelledGoesNoFurther` | internal/xiaomi/ptz_connection.go:92-142 | A command cancelled before it acquires is never counted as a user, and one cancelled before acquire has returned never asks for the gate |
| `PtzTheorems.SentExactly` | internal/xiaomi/ptz.go:74-92 | Every movement carries the direction its own command came with; runPTZ ends with a stop, a stop request with a connection sends one, and nothing else is sent |
| `PtzTheorems.EnterDials` | internal/xiaomi/ptz_connection.go:96-117 | A connect starts exactly when a command enters a cleared camera; any other one joins the connect or the lease that is there |
| `PtzTheorems.AcquiresExactly` | internal/xiaomi/ptz_connection.go:118-141 | acquire succeeds exactly with an open lease that has a controller, for a command not cancelled by then |
| `PtzTheorems.LastLeaver` | internal/xiaomi/ptz_connection.go:144-169 | The last user keeps an open lease alive under a new timer exactly if its acquire had succeeded, and otherwise leaves a cleared camera with every lease closed; a connect in flight is left alone |
| `PtzLease.LeaseStep` | internal/xiaomi/ptz_connection.go:92-199 | Every enabled step keeps the lease invariant if and only if it is not a colliding callback |
| `PtzGate.GateStep` | internal/xiaomi/ptz.go:71-94 | The gate invariant (exclusion, owed stop, registry, doom) is inductive |
| `PtzGate.DoomStop` | internal/xiaomi/ptz.go:74-79 | A stop request that has just won the gate finds every command it cancelled outside of it |
| `PtzCameras.PtzCamera.ClearLocked` | internal/xiaomi/ptz_connection.go:171-176 | Clears all fields and closes the lease, if there is one, exactly once |
| `PtzCameras.PtzCamera.Enter` | internal/xiaomi/ptz_connection.go:96-117 | Takes the protocol's Enter step; stops the timer, and reuses the ready channel or makes one and asks for a connect |
| `PtzCameras.PtzCamera.Connected` | internal/xiaomi/ptz_connection.go:107-113 | Takes the protocol's connect step; closes the ready channel, still open, and the lease too if nobody uses it |
| `PtzCameras.PtzCamera.Release` | internal/xiaomi/ptz_connection.go:144-169 | Takes the protocol's release step; exactly the last user after a good connect arms a timer stamped with the current epoch |
| `PtzCameras.PtzCamera.Callback` | internal/xiaomi/ptz_connection.go:158-164 | Takes the protocol's callback step for the timer armed at the given acquire |
| `PtzCameras.PtzCamera.Command` | internal/xiaomi/ptz_connection.go:178-191 | Registers a fresh context under an identity no registered command has |
| `PtzCameras.PtzCamera.Done` | internal/xiaomi/ptz_connection.go:185-190 | Cancels the context and removes exactly this command |
| `PtzCameras.PtzCamera.CancelCommands` | internal/xiaomi/ptz_connection.go:193-199 | Every registered context is cancelled |
| `PtzCameras.RunPtz` | internal/xiaomi/ptz.go:148-182 | For any rounds of the loop: k movements and then one stop, where no check up to there is cancelled, no movement but the last fails or has a select that picks anything but the ticker, and the loop ends at a cancelled check or behind such a movement; the error exactly of a cancelled check, a failed movement, a cancelled select or a failed stop; nothing at all if it starts cancelled |
| `ProducerLife.ProducerSafety` | internal/streams/producer.go:57-270 | In every state of every run: stateStart means exactly one continuation of the current generation, every other one is older; connected means not stateNone; every connection but the current one has been stopped exactly once |
| `ProducerLife.StaleIsInert` | internal/streams/producer.go:160-183 | A worker or retry of an older generation changes neither the producer nor any connection and disappears |
| `ProducerLife.StoppedStaysStopped` | internal/streams/producer.go:245-258 | A continuation of a stopped generation never becomes current again |
| `ProducerLife.StartsExactly` | internal/streams/producer.go:144-158 | start has an effect if and only if the producer is connected and, since then, a track has been added and start has not been called after one; it is exactly one worker of a generation no continuation has had |
| `ProducerLife.StateSince` | internal/streams/producer.go:57-158 | What has happened since the producer connected decides its state |
| `ProducerLife.CurrentGoesOn` | internal/streams/producer.go:160-243 | Until a stop the current continuation goes on: an ended worker reconnects, a failed reconnect is retried with its count, and a good one runs on a connection never seen before |
| `Producers.Producer.Dial` | internal/streams/producer.go:57-72 | Takes the life-cycle step; fails only when connecting does |
| `Producers.Producer.GetTrack` | internal/streams/producer.go:85-111 | Returns a receiver of that codec if there is one, and otherwise appends what the connection offers, which takes stateMedias to stateTracks; fails in stateNone |
| `Producers.Producer.AddTrack` | internal/streams/producer.go:113-132 | Appends the sender exactly if the connection accepts it, which takes stateMedias to stateTracks |
| `Producers.Producer.Start` | internal/streams/producer.go:144-158 | Starts one worker of a new generation exactly from stateTracks |
| `Producers.Producer.Stop` | internal/streams/producer.go:245-270 | Stops the connection once and drops all tracks, or changes nothing in stateNone and stateExternal |
| `Producers.Producer.Rewire` | internal/streams/producer.go:206-235 | For any list of medias and fresh childless tracks: the multiset of consumers is the same, each slot keeps its consumers in order, each consumer's parent is the receiver now listed, and replaced receivers are childless; the new connection gets the senders that `AllUploads` lists |
| `Producers.Producer.TryMedia` | internal/streams/producer.go:207-223 | The first receiver that matches and gets a track, and no other, is replaced |
| `Producers.TriedExactly` | internal/streams/producer.go:206-223 | Only a receiving media replaces anything, and then the first receiver of which it has a codec and for which it gets a track |
| `Producers.Producer.HandOver` | internal/streams/producer.go:225-234 | One media: the new connection gets every sender the media has a codec for, in order |
| `Producers.AllUploadsExactly` | internal/streams/producer.go:206-235 | Each sender goes to the new connection exactly once for each sendonly media with a codec for it, under that codec, and never otherwise |
| `Producers.Producer.Reconnect` | internal/streams/producer.go:176-243 | A stale or failed reconnect changes nothing; a good one rewires, hands the senders over, stops the old connection once, swaps and goes on in the same generation |
| `Producers.RewiredMembers` | internal/streams/producer.go:206-223 | No track of a media still to come is in the receiver list, so it is still fresh when its turn comes |
| `Nodes.MoveNode` | pkg/core/node.go:75-88 | The children move in order and point at their new parent; none is lost if and only if the destination had none |
| `Nodes.Node.AppendChild` | pkg/core/node.go:42-48 | Appends the child and sets its parent |
| `Nodes.Node.RemoveChild` | pkg/core/node.go:50-59 | Removes the first occurrence of the child |
| `Nodes.WithoutCounts` | pkg/core/node.go:50-59 | Removal takes away one occurrence and keeps every other child |
| `Nodes.WithoutUndoesAppend` | pkg/core/node.go:42-59 | Removing a child undoes appending it |
| `H265Nal.HeaderSurvives` | pkg/h265/rtp.go:60 | The fragment header keeps the NAL unit's type and the payload header the other bits: putting them together gives the first header byte back |
| `H265Nal.Payload` | pkg/h265/payloader.go:129-301 | For SkipAggregation without DONL, for every mtu: the payloads are those of the NAL units in order, and the cases that panic are a length that wraps around and a fragment of negative size |
| `H265Nal.FragmentNal` | pkg/h265/payloader.go:231-295 | The fragments of a NAL unit that does not fit, with their start and end bits |
| `H265Depay.RTPDepay.Receive` | pkg/h265/rtp.go:19-114 | One packet takes the state (buffer, nuStart, sequence number) to the specified one and emits the specified access unit, or panics where it says so |
| `H265Depay.UnitsAreConsecutive` | pkg/h265/rtp.go:38-46 | For every packet sequence: an emitted unit is what all the packets heard from some packet on build from an empty buffer, their sequence numbers are consecutive modulo 2^16, and no packet that revealed a gap is among them, not even as the first |
| `H265Depay.FollowsExactly` | pkg/h265/rtp.go:40 | Packets follow each other if the difference of their numbers is 1 modulo 2^16 |
| `H265Depay.EmitsExactly` | pkg/h265/rtp.go:26-113 | A unit comes out at a marked packet that completes a NAL unit in sequence and is not a parameter set or SEI below 128 bytes, and at no other |
| `H265Depay.IgnoredExactly` | pkg/h265/rtp.go:21-36 | Packets below 3 bytes and marked SEIs below 128 bytes leave no trace |
| `H265RoundTrip.AssembleDepacks` | pkg/h265/rtp.go:48-98 | On every run a reference depacketizer understands, reassembly does not panic and holds its NAL units in AVCC form, the parameter sets in front only of a fragmented keyframe |
| `H265RoundTrip.EmittedUnitIsDepacked` | pkg/h265/rtp.go:11-115 | For every packet sequence: a unit emitted from well-formed packets is exactly the NAL units they carry |
| `H265RoundTrip.DepackPaid` | pkg/h265/payloader.go:129-301 | The reference depacketizer inverts the payloader, for any mtu of at least 4 |
| `H265RoundTrip.PacketsFill` | pkg/h265/payloader.go:231-295 | A NAL unit that fits is sent as it is; of another one every packet but the last is exactly as long as the mtu |
| `H265RoundTrip.RoundTrip` | pkg/h265/rtp.go:117-147 | Payloader, wrapping sequence numbers, marker and reassembly give exactly one access unit equal to the input, behind the parameter sets exactly if it opens with a fragmented keyframe |
| `H265RoundTrip.RoundTripExactly` | pkg/h265/rtp.go:28-36 | ... if and only if the last NAL unit is not a small parameter set or SEI in one packet |
| `H265RoundTrip.PanicsExactly` | pkg/h265/rtp.go:71-85 | The packets on which reassembly panics, exactly |
| `H265RoundTrip.StrayEndPanics` | pkg/h265/rtp.go:71-85 | There is a packet sequence that makes it panic |
| `Avcc.EmitJoin` | pkg/h264/payloader.go:68-81 | EmitNalus returns the non-empty NAL units that were joined |
| `Avcc.JoinNALU` | pkg/h264/avcc.go:31-51 | The buffer, measured first and then filled by offset, is the concatenation of the units behind their lengths |
| `H264Pay.Payloader.Payload` | pkg/h264/payloader.go:85-188 | The payloads and the parameter sets still held are the specified ones; None is a panic in EmitNalus |
| `H264Pay.Payloader.Emit` | pkg/h264/payloader.go:91-185 | One NAL unit: dropped, collected, sent alone behind what was collected, or fragmented |
| `H264Pay.Payloader.FragmentNal` | pkg/h264/payloader.go:128-184 | The fragments of a NAL unit that does not fit |
| `H264RoundTrip.SplitUnits` | pkg/h264/payloader.go:102-108 | Splitting a STAP-A gives the units that were collected |
| `H264RoundTrip.DepackPay` | pkg/h264/payloader.go:85-188 | A reference depacketizer gets from any run of calls exactly the units listed as arriving |
| `H264RoundTrip.Conservation` | pkg/h264/payloader.go:111-118 | Arriving and still held units are together the input without delimiters (9), filler (12) and empty units, in order, if and only if every aggregation packet fits its mtu |
| `H264RoundTrip.RecoveredExactly` | pkg/h264/payloader.go:85-188 | The same of what the reference depacketizer recovers from a run of calls |
| `H264RoundTrip.LargeSetIsLost` | pkg/h264/payloader.go:114-117 | A parameter set whose aggregation packet exceeds the mtu is an instance of the loss |
| `H264RoundTrip.RunBounded` | pkg/h264/payloader.go:85-188 | No payload of a run is empty or longer than the mtu |
| `H264RoundTrip.PayloadsBounded` | pkg/h264/payloader.go:111-184 | The same for one NAL unit |
| `H264RoundTrip.OneStartOneEnd` | pkg/h264/payloader.go:170-177 | A fragmented unit makes at least two fragments; only the first starts, only the last ends, and every one but the last fills the mtu |
| `H264RoundTrip.SentCount` | pkg/h264/payloader.go:120-184 | A unit that fits goes alone, another one in the fewest fragments that can hold it |
| `AnnexB.DecodeAnnexB` | pkg/h264/avc.go:63-109 | On any input that begins with a start code the result is the input's NAL units, each behind its 4-byte length |
| `AnnexB.EmitTiled` | pkg/h264/avc.go:63-109 | Reading the result length by length gives exactly these units |
| `AnnexB.CutsExactly` | pkg/h264/avc.go:83-90 | The units are cut at precisely the start codes in front of a byte with F = 0 and type 1, 5, 7 or 8 |
| `AnnexB.CutsAscend` | pkg/h264/avc.go:71-81 | The cuts are in ascending order |
| `AnnexB.IndexFrom` | pkg/h264/avc.go:111-122 | The first start code from an index on, or none |
| `AnnexB.Cut` | pkg/h264/avc.go:91-103 | Writing the length and, for a 3-byte code, inserting a byte keeps the finished part tiled and the rest of the input unread |
| `AnnexBEncoder.BodiesInvert` | pkg/h264/avc.go:63-109 | Any units without a start code inside or a zero at the end, each behind a start code of three or four bytes, all but the first slices or parameter sets, are exactly what the stream is taken apart into |
| `AnnexBEncoder.WriteDecode` | pkg/h264/avc.go:63-109 | Decoding such a stream gives the AVCC form of the units, and walking it the units |
| `Bits.UEInverts` | pkg/bits/reader.go:118-126 | From any bit position ReadUEGolomb inverts the Exp-Golomb code of every value up to 2^32-2 and consumes exactly its bits |
| `Bits.UELimit` | pkg/bits/reader.go:118-126 | ... and the code of 2^32-1, from any bit position, gives 2^31-1 and leaves its last bit unread |
| `Bits.SEInverts` | pkg/bits/reader.go:129-135 | ReadSEGolomb inverts the signed code of every int32 but the least |
| `BitIO.Reader.ReadBit` | pkg/bits/reader.go:53-62 | The next bit of the buffer, or zero and EOF behind its end |
| `BitIO.Reader.ReadBits` | pkg/bits/reader.go:64-90 | For any count below 256 and results of 8, 16, 32 or 64 bits: the next n bits as a number, most significant first, modulo the width of the result, and exactly if they fit it |
| `BitIO.Reader.ReadByte` | pkg/bits/reader.go:17-30 | The next eight bits, on and off a byte boundary |
| `BitIO.Reader.ReadUint16` | pkg/bits/reader.go:32-37 | The next 16 bits |
| `BitIO.Reader.ReadUint24` | pkg/bits/reader.go:39-44 | The next 24 bits |
| `BitIO.Reader.ReadUint32` | pkg/bits/reader.go:46-51 | The next 32 bits |
| `BitIO.Reader.ReadUEGolomb` | pkg/bits/reader.go:118-126 | The unsigned Exp-Golomb reading of the bits, in uint32 arithmetic |
| `BitIO.Reader.ReadSEGolomb` | pkg/bits/reader.go:129-135 | The signed one |
| `BitIO.Writer.WriteBit` | pkg/bits/writer.go:22-32 | Appends one bit to the bits written |
| `BitIO.Writer.WriteBits` | pkg/bits/writer.go:34-50 | Appends the n low bits of the value, for any count below 256 |
| `BitIO.Writer.WriteByte` | pkg/bits/writer.go:15-20 | The bits written grow by those of the byte if and only if the writer is on a byte boundary; off it the byte is there twice |
| `BitIO.Writer.WriteBytes` | pkg/bits/writer.go:74-82 | On a byte boundary: the bits written grow by the bits of these bytes |
| `BitIO.ReadsBack` | pkg/bits/reader.go:64-69 | Any list of (value, width) fields, whatever follows them, reads back as value modulo 2^width with EOF still false |
| `BitIO.WriteThenRead` | pkg/bits/writer.go:34-50 | The same for writer and reader end to end, for 64-bit values and any widths below 256 |
| `SpsParsers.ParseSPS` | pkg/h264/sps.go:90-222 | The parser over the bit reader computes the parameter set that the theorems below are about, or nil |
| `SpsParsers.ParseScalingList` | pkg/h264/sps.go:225-237 | Reads exactly the bits of a scaling list, in int32 arithmetic with a truncating remainder |
| `SpsParsers.FindRange` | pkg/h264/sps.go:280-360 | The patcher's walk stops in front of the specified bit, or returns early |
| `SpsParsers.ClearFullRange` | pkg/h264/sps.go:279-366 | The bytes of the slice afterwards are those with the specified bit cleared |
| `SpsParsers.ClearBit` | pkg/h264/sps.go:361-362 | Clearing a bit of a byte clears exactly the bit of the stream the reader has just read |
| `SpsParsers.ParseFixParse` | pkg/h264/sps.go:279-366 | On the bytes of a slice: parsing again after the fix gives the same parameter set with the flag zero, or unchanged if there is a scaling list |
| `SpsLocality.SameParse` | pkg/h264/sps.go:90-222 | The parse depends on the bits between its start and its end only |
| `SpsTruncation.RestIsIgnored` | pkg/h264/sps.go:217-221 | Bits behind a parameter set change neither the result nor where the parse ends |
| `SpsTruncation.TruncatedIsNil` | pkg/h264/sps.go:217-221 | Any input cut off before the end of its parse is nil |
| `SpsTruncation.DecodesExactly` | pkg/h264/sps.go:90-222 | Of an input that parses, a prefix parses, and to the same result, if and only if it reaches the end of the parse |
| `SpsEncoder.DecodeInverts` | pkg/h264/sps.go:90-222 | DecodeSPS inverts the syntax: every field comes back as it was written, for any scaling lists, frame offsets and following bits, and the parse stops exactly behind the parameter set |
| `SpsEncoder.ChromaExactly` | pkg/h264/sps.go:107-134 | Of any input that parses: the chroma fields stand behind the id for exactly the thirteen profiles of section 7.3.2.1.1, and for any other profile frame_num does and the chroma fields are zero |
| `SpsEncoder.NilExactly` | pkg/h264/sps.go:95-98 | The result is nil exactly for a NAL unit type other than 7, or if the parse ran out of bits |
| `SpsEncoder.StandardStep` | pkg/h264/sps.go:228-235 | For the differences the standard allows the next scale is (last + delta + 256) modulo 256 |
| `SpsEncoder.FixOfEncoded` | pkg/h264/sps.go:279-366 | Patching a written parameter set clears the flag and keeps every other field, unless it carries a scaling list |
| `SpsEncoder.ListHidesTheFlag` | pkg/h264/sps.go:302-307 | A parameter set with a scaling list whose set flag the fix does not reach |
| `SpsEncoder.ListReads` | pkg/h264/sps.go:225-237 | scaling_list consumes exactly the differences of a list, up to the one that makes the scale zero |
| `SpsLockstep.RangeAgrees` | pkg/h264/sps.go:194 | Without a scaling list the patcher looks at the very bit the parser stores as video_full_range_flag |
| `SpsLockstep.GivesUpExactly` | pkg/h264/sps.go:302-307 | The patcher returns early if and only if some seq_scaling_list_present_flag read by the parser is 1 |
| `SpsLockstep.FixKeepsTheRest` | pkg/h264/sps.go:279-366 | At most one bit changes, none behind a scaling list; otherwise the parser then returns the same parameter set with the flag zero, and nil for the same input |
| `SpsLockstep.FixClearsExactly` | pkg/h264/sps.go:302-307 | The fix reaches its goal if and only if no scaling list stands in front of a set flag |
| `SpsLockstep.FixIsIdempotent` | pkg/h264/sps.go:279-366 | Fixing twice is fixing once |
| `TsSyntax.TimeRoundTrip` | pkg/mpegts/demuxer.go:294-305 | readTime inverts WriteTime for every 32-bit time |
| `TsMux.WriteTime` | pkg/mpegts/muxer.go:218-226 | The five bytes of a time, in place |
| `TsMux.OffsetOfRun` | pkg/mpegts/muxer.go:53-56 | After any timestamps the presentation clock is ahead of them by what it was, minus the sum of the timestamps that follow a zero |
| `TsMux.ClockKeepsPace` | pkg/mpegts/muxer.go:53-56 | The presentation clock keeps its distance from the timestamps over a run if and only if the timestamps that follow a zero sum to a multiple of 2^32 |
| `TsMux.ClockFromFirst` | pkg/mpegts/muxer.go:53-56 | A new track counts the distance from its first timestamp, for any timestamps without a zero before the last |
| `TsMux.Muxer.AddTrack` | pkg/mpegts/muxer.go:20-35 | A new track behind the others, under the next PID |
| `TsMux.Muxer.GetHeader` | pkg/mpegts/muxer.go:37-42 | The two table packets, for any checksums given |
| `TsMux.Muxer.WritePat` | pkg/mpegts/muxer.go:100-113 | The bit fields add up to the program association packet |
| `TsMux.Muxer.WritePmt` | pkg/mpegts/muxer.go:115-144 | The bit fields add up to the program map section, padded to whole packets |
| `TsTables.PmtIsSection` | pkg/mpegts/muxer.go:115-144 | What is written is the program map section of the standard for the tracks from PID 0x100 on |
| `TsTables.PatIsSection` | pkg/mpegts/muxer.go:100-113 | ... and the program association section of one program with its map in PID 0x1000 |
| `TsTables.PacketIs` | pkg/mpegts/muxer.go:146-177 | A packet has the header of the standard with nothing but PID, start flag and counter set, and zeros for stuffing |
| `TsTables.PesHeaderIs` | pkg/mpegts/muxer.go:57-85 | A PES header is the one of the standard with a presentation time and nothing else |
| `TsMux.StreamIds` | pkg/mpegts/muxer.go:20-35 | Video and audio streams are announced as such |
| `TsMux.Muxer.WritePes` | pkg/mpegts/muxer.go:146-177 | One packet of 188 bytes with the start flag, the counter and stuffing in front of a short rest |
| `TsMux.Muxer.WriteAll` | pkg/mpegts/muxer.go:87-91 | The loop writes exactly the packets of the data and advances the counter once a packet |
| `TsMux.Muxer.GetPayload` | pkg/mpegts/muxer.go:45-94 | The packets of one payload; the track's clock and counter move on and no other track changes |
| `TsDemuxer.Demuxer.ReadPacketHeader` | pkg/mpegts/demuxer.go:69-96 | PID, start flag and payload position, or the error |
| `TsDemuxer.Demuxer.ReadPat` | pkg/mpegts/demuxer.go:129-144 | The program map's PID, or a panic, as specified on bytes |
| `TsDemuxer.Demuxer.ReadPmt` | pkg/mpegts/demuxer.go:147-178 | The track map, or a panic; also whether the wrapped position happens to suppress the next read |
| `TsTables.PmtTeaches` | pkg/mpegts/demuxer.go:147-178 | Any program map section in a packet, with any program descriptors, streams and stream descriptors: exactly these PIDs are learned, each with the type of its last entry, or 0xEB for private data announced as Opus |
| `TsTables.PatTeaches` | pkg/mpegts/demuxer.go:129-144 | Any program association section, network entries anywhere: the demuxer goes for the map of the last program |
| `TsTables.HeadTeaches` | pkg/mpegts/demuxer.go:69-96 | Whatever the other fields and the adaptation field say, PID, start flag and the place behind the header are read, unless the adaptation field has 183 bytes |
| `TsDemuxer.Demuxer.ReadTime` | pkg/mpegts/demuxer.go:294-305 | The 32-bit time in the next five bytes |
| `TsDemuxer.Demuxer.ReadPes` | pkg/mpegts/demuxer.go:180-250 | What one packet does to its track: open, append, finish, or push out the payload before it |
| `TsTables.PesTeaches` | pkg/mpegts/demuxer.go:194-240 | A PES header with any flags, with either time, both or none and anything behind them: the times modulo 2^32, the payload and the size that the length leaves for it |
| `TsTables.FinishesExactly` | pkg/mpegts/demuxer.go:361-434 | A payload of the announced size becomes a packet with the next sequence number for PCMA and PCMU, is repackaged for four types and dropped for any other |
| `TsDemuxer.Demuxer.ReadPacket` | pkg/mpegts/demuxer.go:32-67 | The state, the result and the bytes left are those of the packet-wise specification |
| `TsRoundTrip.HeaderTeaches` | pkg/mpegts/demuxer.go:45-59 | GetHeader teaches a new demuxer exactly the muxer's map from PIDs to types, and leaves nothing behind, for up to 33 tracks |
| `TsRoundTrip.LearnedExactly` | pkg/mpegts/demuxer.go:158-175 | That map: PID 0x100 + i has the type of track i, and there is no other PID |
| `TsRoundTrip.MapTaught` | pkg/mpegts/demuxer.go:45-59 | The same map is learned from the header of up to 34 tracks, and what does not fit one packet is left in the stream |
| `TsRoundTrip.MapLimit` | pkg/mpegts/muxer.go:115-144 | ... the map is learned if and only if there are at most 34 |
| `TsRoundTrip.HeaderLimit` | pkg/mpegts/muxer.go:115-144 | The header is used up if and only if there are at most 33 tracks |
| `TsRoundTrip.LeftoverTurn` | pkg/mpegts/demuxer.go:69-96 | What the next read makes of the leftover of 34 tracks: a sync error, unless the second checksum byte is the sync byte; then zeros for the track that the next two bytes name, if any |
| `TsRoundTrip.ReadWhole` | pkg/mpegts/demuxer.go:180-250 | A whole payload reaches an idle track with its time and its size |
| `TsRoundTrip.ReadPush` | pkg/mpegts/demuxer.go:187-191 | A start behind an unfinished payload returns that payload and keeps the packet |
| `TsRuns.JobsDeliver` | pkg/mpegts/demuxer.go:32-67 | Successive reads of any interleaving of payloads return exactly the expected deliveries |
| `TsRuns.NothingLost` | pkg/mpegts/demuxer.go:180-250 | On every track the deliveries are the payloads and 32-bit times sent, in order, up to one too long for the length field that is still held |
| `TsStream.StreamRoundTrip` | pkg/mpegts/muxer.go:37-94 | A new demuxer reading header and payloads of any interleaving of pass-through tracks returns the track list, the deliveries and the end of the stream |
| `TsStream.WholeStream` | pkg/mpegts/muxer.go:146-177 | The output is a multiple of 188 bytes |
| `TsStream.CountersRun` | pkg/mpegts/muxer.go:159 | On every track the continuity counters of a whole run are consecutive modulo 16, across the wrap of the 16-bit sequence |
| `TsStream.Stream` | pkg/mpegts/muxer.go:14-94 | A client of the muxer object writes exactly the stream these theorems are about |
| `IsoMovie.WellNestedRun` | pkg/iso/iso.go:21-35 | Any well-nested run of StartAtom, writes and EndAtom appends the serialization of a tree of atoms |
| `IsoMovie.SizeIsExtent` | pkg/iso/iso.go:27-35 | In it every size field is the exact extent of its atom |
| `IsoMovie.RunTree` | pkg/iso/iso.go:21-35 | Writing a tree call by call appends its serialization, whatever is open around it |
| `IsoMovie.ShutMirrors` | pkg/iso/iso.go:27-35 | Patching the size at the last start and popping it closes the innermost atom and no other |
| `IsoMovie.Movie.StartAtom` | pkg/iso/iso.go:21-25 | Opens an atom: the buffer and the stack of starts mirror the new state |
| `IsoMovie.Movie.EndAtom` | pkg/iso/iso.go:27-35 | Closes the innermost atom in place |
| `IsoMovie.Movie.Write` | pkg/iso/iso.go:37-67 | Appends to the innermost atom |
| `IsoMovie.Perform` | pkg/iso/iso.go:21-67 | A whole run on the object computes the state of the run, and fails exactly where an EndAtom has nothing to end |
| `IsoFragment.WriteMovieFragment` | pkg/iso/atoms.go:279-333 | Appends the moof of one sample with the data offset worked out from the buffer's length |
| `IsoFragment.WriteData` | pkg/iso/atoms.go:335-339 | Appends the mdat |
| `IsoFragment.OffsetIsPayload` | pkg/iso/atoms.go:313-326 | The data offset points at the first payload byte |
| `IsoReader.FragmentReads` | pkg/iso/reader.go:63-203 | DecodeAtoms of a fragment returns the sequence, track, duration, size, flags, decode time, data offset, composition time and payload that were written |
| `IsoBoxes.FragmentIs` | pkg/iso/atoms.go:279-339 | A fragment is, atom by atom, what the standard prescribes for one sample, with the offset of the payload in the trun |
| `IsoBoxes.TrunTeaches` | pkg/iso/reader.go:146-176 | A run with any flags and any samples comes back field by field, each kind in its own list, empty where its flag is not set |
| `IsoBoxes.TfhdLimit` | pkg/iso/reader.go:121-141 | Every track fragment header with these flags is read right if and only if it has no base data offset and no description index, or no field behind them |
| `IsoBoxes.TfhdTakes` | pkg/iso/reader.go:121-141 | The first words behind the track id are taken for duration, size and flags, as far as the flags announce them |
| `IsoBoxes.StampedReads` | pkg/iso/reader.go:76-80 | Track id and time scale are those written in version 0, and half a time in version 1 |
| `IsoBoxes.MovieReads` | pkg/iso/reader.go:72-80 | Track id, time scale and sample table are found through all the containers of a movie |
| `IsoParsers.ParseAtoms` | pkg/iso/reader.go:185-203 | The loop flattens containers and stops at the first error |
| `IsoParsers.ParseAtom` | pkg/iso/reader.go:63-183 | One atom: container, leaf, too short, or a panic |
| `IsoParsers.ParseTfhd` | pkg/iso/reader.go:121-141 | The fields that the flags say are present |
| `IsoParsers.ParseTrun` | pkg/iso/reader.go:146-176 | The loop collects each sample's fields that the flags say are present |
| `Mp4Muxer.Gapless` | pkg/mp4/muxer.go:126-169 | For any timestamps each fragment of a track starts where the one before it ended, and lasts at least 1 |
| `Mp4Muxer.StreamIsGapless` | pkg/mp4/muxer.go:121-172 | In the bytes of any interleaving of tracks: a reader of two successive fragments of one track finds the second to start where the first ends, after a time of at least 1 |
| `Mp4Muxer.Emit` | pkg/mp4/muxer.go:121-172 | A client of the muxer object over any list of tracks and packets writes exactly the fragments these theorems are about |
| `Mp4Muxer.TrackIsItsOwn` | pkg/mp4/muxer.go:121-172 | Whatever other tracks do in between, a track is where its own packets alone have brought it |
| `Mp4Muxer.DurationBounds` | pkg/mp4/muxer.go:152-156 | Durations are at least 1 and at most a second of the clock (exactly 1 for a clock rate of zero) |
| `Mp4Muxer.DurationExactly` | pkg/mp4/muxer.go:126-156 | The duration is the time since the last packet modulo 2^32, or 1024 for AAC, if that is positive and at most a second of the clock, and otherwise a millisecond of it plus one tick |
| `Mp4Muxer.DriftOfRun` | pkg/mp4/muxer.go:126-169 | After any packets the written time is ahead of the timestamps by what it was, minus the whole gap of every repaired packet and, for other AAC packets, the gap less 1024 |
| `Mp4Muxer.KeepsPace` | pkg/mp4/muxer.go:126-156 | The written time keeps its distance from the timestamps over a run if and only if the losses sum to a multiple of 2^32 |
| `Mp4Muxer.PauseIsLost` | pkg/mp4/muxer.go:152-156 | A pause of ten seconds on a 90 kHz clock is written as 91 ticks |
| `Keyframes.IsKeyframe` | pkg/h264/h264.go:27-44 | The loop over the units of an access unit, for H.264 and H.265, computes `Keyframe`; None is the index panic on a short rest |
| `Keyframes.FirstSliceDecides` | pkg/h265/helper.go:27-44 | The answer is whether a slice of type 5 (H.264) or 19 to 21 (H.265) stands in the access unit with no slice of type 1 in front of it |
| `Mp4Muxer.FlagsExactly` | pkg/mp4/muxer.go:136-150 | The flags are 0x02000000 for audio and for a frame whose first slice is a key frame's, and 0x01010000 for any other |
| `Mp4Muxer.PayloadReads` | pkg/mp4/muxer.go:161-171 | A reader gets back what the packet and the track's time line say |
| `Mp4Muxer.Muxer.GetPayload` | pkg/mp4/muxer.go:121-172 | The fragment of the packet with the flags of its key frame, or the panic of looking for one; only this track's times and the index move on |
| `Mp4Muxer.Muxer.Time` | pkg/mp4/muxer.go:126-156 | The repaired duration and the timestamp up to which the track is written |
| `Mp4Muxer.Muxer.AddTrack` | pkg/mp4/muxer.go:20-24 | A new track at time zero behind the others |
| `Mp4Muxer.Muxer.Reset` | pkg/mp4/muxer.go:113-119 | All times and the index return to zero, the tracks stay |
| `LogBuffer.RunBounds` | internal/app/log.go:133-191 | After any run of writes and resets the output is a suffix of the whole writes since the last reset; small writes keep it within 16 chunks, and it exceeds 8 chunks once anything was dropped |
| `LogBuffer.FullWrites` | internal/app/log.go:133-163 | Of writes that fill a chunk each all are kept up to 16, and then exactly the last 16 |
| `LogBuffer.OutputIsSuffix` | internal/app/log.go:165-183 | The output is the kept writes in order, and what is missing is a prefix of whole writes |
| `LogBuffer.OutputBounds` | internal/app/log.go:136-158 | The two bounds, for every state that writes can reach |
| `LogBuffer.PutGood` | internal/app/log.go:133-163 | The invariant (16 groups at most, each overfull with the next one's first write, all 16 in use once something was dropped) survives every write |
| `LogBuffer.CircularBuffer.NextChunk` | internal/app/log.go:139-157 | The ring moves on to an empty chunk, dropping the oldest group exactly if all 16 are in use |
| `LogBuffer.CircularBuffer.Write` | internal/app/log.go:133-163 | The ring of chunks goes on to hold the groups of the simple view |
| `LogBuffer.CircularBuffer.WriteTo` | internal/app/log.go:165-183 | Walking the ring from r to w yields the output of the simple view |
| `LogBuffer.CircularBuffer.Reset` | internal/app/log.go:185-191 | The simple view is empty again, whatever stays in the other chunks |
| `ReadBuffers.ReadBuffer.Read` | pkg/core/readbuffer.go:39-68 | In every mode: hands out the stream from where the reader is and takes the tape on; bytes are lost if and only if the source gives more than the buffer may hold, and that is reported |
| `ReadBuffers.ReadBuffer.Peek` | pkg/core/readbuffer.go:101-109 | In every state: the next n bytes, and the reader is back at the mark; a failed peek has read on; from the mark it cannot overflow |
| `ReadBuffers.ReadBuffer.Reset` | pkg/core/readbuffer.go:111-114 | The reader is back at the mark, where buffering began |
| `ReadBuffers.ReadBuffer.Seek` | pkg/core/readbuffer.go:77-99 | The reader is at the place aimed at, cut off at the end of the buffer; a place before the mark drops the buffer |
| `ReadBuffers.Run` | pkg/core/readbuffer.go:39-114 | Any calls of Read, Peek, Seek, Reset and settings of BufferSize, in any order, on a reader in any state: unless bytes were lost, state and answers are those of a tape with a mark |
| `ReadBuffers.ReadsInOrder` | pkg/core/readbuffer.go:39-68 | On that tape, in any run whose other calls leave the place alone, the reads together hand out the stream without loss, repetition or reordering |
| `ReadBuffers.MarkStays` | pkg/core/readbuffer.go:53-60 | In any run the mark stays, unless a read keeps nothing or a seek goes before it |
| `ReadBuffers.ResetReplays` | pkg/core/readbuffer.go:39-114 | After any run that kept the mark and a reset, the reads hand out the stream from where buffering began, across the switch to unbuffered reading |
| `ReadBuffers.RewindsExactly` | pkg/core/readbuffer.go:77-114 | After a reset or a successful peek the reads go on at the mark, after a seek at the place aimed at within the buffer, at its end, or, before the mark, behind the dropped buffer |
| `ReadBuffers.Probe` | pkg/core/readbuffer.go:39-114 | Any calls in any order, on a buffer with anything in it, that read with buffering on, and then a reset: the reader is back where buffering began, unless bytes were lost |
| `ReadBuffers.Replay` | pkg/core/readbuffer.go:39-114 | Any peeks, then any reads with buffering switched on or off, hand out exactly the stream from there |
| `Adts.SizeRoundTrip` | pkg/aac/adts.go:76-89 | Reading a written size gives it modulo 2^13, and itself if and only if it is below 2^13 |
| `Adts.SyncExactly` | pkg/aac/adts.go:20-25 | A frame is recognized by 0xFF and one of 0xF0, 0xF1, 0xF8 and 0xF9 |
| `Adts.WriteADTSSize` | pkg/aac/adts.go:82-89 | The three header bytes are changed in place as specified, and no other |
| `Adts.ADTStoRTP` | pkg/aac/rtp.go:100-110 | The RTP payload of the frames in src; None where the source never returns |
| `Adts.RTPToADTS` | pkg/aac/rtp.go:118-149 | Units that are not frames get a header; None is a slice out of range |
| `AdtsRoundTrip.FramesToRtp` | pkg/aac/rtp.go:100-110 | ADTStoRTP terminates on any concatenation of frames and describes each of them |
| `AdtsRoundTrip.PacketFramed` | pkg/aac/rtp.go:125-142 | Every unit of a packet comes out, framed if it was not, for up to 4095 units |
| `AdtsRoundTrip.HeaderReads` | pkg/aac/adts.go:76-80 | A header with these 13 bits of frame length is recognized and read as that length, whatever its other fields say |
| `AdtsRoundTrip.PacketLayout` | pkg/aac/rtp.go:100-110 | The packet, byte by byte: 16 times the number of units, for each unit its size in the upper 13 of 16 bits, and the units |
| `AdtsRoundTrip.RoundTrip` | pkg/aac/rtp.go:100-149 | Up to 4095 frames come back as the same bytes |
| `AdtsRoundTrip.RoundTripLimit` | pkg/aac/rtp.go:107-126 | ... if and only if there are at most 4095 |
| `AdtsRoundTrip.RawUnitFramed` | pkg/aac/rtp.go:135-139 | A raw unit comes out as a frame with the right length, as long as it has 13 bits |
| `AdtsRoundTrip.HangsExactly` | pkg/aac/rtp.go:102-106 | For every input: ADTStoRTP does not return if and only if the claimed lengths lead it, with more than a header left, to a frame that claims none |
| `AdtsRoundTrip.EmptyFrameHangs` | pkg/aac/rtp.go:102-106 | For instance, such a frame behind any whole frames |

## Left out

- PTZ: HTTP parsing, the duration syntax, stream and preset lookup, logging. Connecting, the controller, contexts and timers are environment steps; time is not measured.
- PTZ: a lease identity is the generation of its connect, and `PtzCamera.Enter` does not start a goroutine: its result `dial` tells the environment to.
- Producers: templates and logging are missing, the old connection's own receivers are not closed by its `Stop`, and a connection with a sendonly media takes tracks (the type assertion to Consumer does not panic).
- `Node.Close`: its loop walks a slice that `RemoveChild` shifts in place.
- `workerID` is unbounded.
- H.265: aggregation packets and DONL, SafariPay, the packet's cleared marker bit, and the reuse of one buffer for successive access units.
- H.264: the Annex B mode of `EmitNalus`, RTPPay and RTPDepay closures, and the payloader's state after a panic in `EmitNalus`.
- Annex B: input without a start code in front, and the bytes of the caller's slice that are overwritten before the first insertion.
- Bits: `WriteUint16`, `ReadBytes` and `ReadFloat32`. One method stands for the four widths of `ReadBits`, which it takes as a parameter, and one for the three of `WriteBits`.
- SPS: `Width`, `Height`, `Profile` and other pure accessors.
- MPEG-TS: payloads that are repackaged by the demuxer (H.264, H.265, AAC, Opus) end in the outcome `Repackaged`; the track list packet carries no types; PIDs beyond 13 bits; the reuse of a track's bit writer.
- fMP4: the initialization segment and the sample descriptions (an atom that would decode one is the result `Description`), and the float writers.
- AAC: `CodecToADTS` (its header is a parameter; that it is nil for a broken configuration, so that a raw unit panics, is not modelled) and `ADTSToCodec`, timestamps, RTPDepay and RTPPay closures.
- Log buffer: the mutex (each method is one step), and the writer behind `WriteTo`.
- Probing reader: `Close`. The wrapped reader returns at least one byte or an error.
- JSON, CRC tables, G.711, HomeKit, other protocols and the web interface.
- TsMux.Muxer.GetHeader: the CRC-32 checksums of the two tables are parameters, because the CRC table is not modelled; the theorems hold for any checksums.
- TsMux.Muxer.WritePat: the checksum is a parameter.
- TsMux.Muxer.WritePmt: the checksum is a parameter.
- TsMux.Muxer.GetPayload: H.264 and H.265 tracks, whose payload the annexb package turns into Annex B first, are left out, because that package is not modelled.
- IsoParsers.ParseAtom: an atom that holds a sample description is the result Description, which its decoders would replace by the description.
- IsoParsers.ParseAtoms: the same, for a list with such an atom.
- BitIO.Writer.WriteBytes: on a byte boundary only; off one, the writes behind the first byte go to a byte that is no longer the last.
