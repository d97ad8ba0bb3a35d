# libezsp in Dafny

A model of the byte-level and state-level cores of libezsp, a library that drives Silicon Labs EZSP
Zigbee adapters over a serial line, with proofs about what they compute and what every run of them keeps.

The parts, from the line upwards:

- `Crc`: both CRC-16 routines as one shift register, its algebra and the errors it detects. A register is
  its sixteen bits, most significant first.
- `AshFraming`, `AshWhitening`, `AshCodec`, `AshSegments`, `AshBurst`, `AshStream`, `AshLink`, `AshNumbers`: the
  ASH v2 link codec. Stuffing and whitening; frames and the deframer as a class; the deframer against a simple
  reading of the stream; bursts of errors; streams cut into calls; two codecs on one line, and the numbers in
  their frames.
- `Xmodem`, `XmodemIo`, `XmodemSend`: the XMODEM transfer. Sender and receiver are machines that stop where the
  program waits in `_inbyte`; `XmodemReceive` and `XmodemTransmit` are loops over a port and a packet buffer,
  proved to run these machines.
- `XmodemPacing`, `XmodemWire`, `XmodemAnswers`, `XmodemReceipt`, `XmodemEnds`, `XmodemLimits`: what each end does
  in every run, in bytes and numbers.
- `XmodemProtocol`, `XmodemSafety`, `XmodemNoise`, `XmodemProgress`, `XmodemSuccess`: both ends joined by a bad line,
  what noise is harmless, when a transfer can go on, and that it succeeds on a good line.
- `GaloisField`, `AesTables`, `Fips197`, `CustomAes`: the table-driven AES-128, against the standard.
- `Rfc3610`, `GpMic`: the message integrity code of Green Power frames, against the standard.
- `EzspQueue`, `EzspRuns`, `EzspFrames`, `EzspModes`: the command queue of the dongle and the EZSP frame header;
  every run of them, the frames it writes, and the way into the bootloader and out of it.
- `GpSink`, `GpRemoval`, `GpRegistration`, `GpEarly`: the Green Power sink, and the adapter whose tables it
  edits through the queue.
- `LibStart`, `LibOutcome`, `LibReports`: the start-up of the library; exactly when it leaves, forms and starts, and
  what it makes of each report.
- `ClusterReport`, `AdapterVersion`: the report parser of the example program, and the order of adapter
  versions.
- `ByteNumbers`: bytes as numbers.

An object that the program updates in place is a class whose methods state the whole new state as a function of
the old one; theorems about runs are lemmas about these functions. Callbacks, notifications and what is sent
are logs, and what the outside world decides (bytes that arrive, whether a write succeeds, what the adapter
answers) is a parameter, so that a statement about all of its values is a statement about every run.

## Assumptions of the main results

- `XmodemSafety.EveryTransfer`, and what `XmodemProgress` says of runs:
  - Both ends have agreed on CRC or checksum mode, with acknowledgements (mode 0). Input that would
    make the receiver fall back to the other mode is not covered: such a step leaves it as it was.
  - An intact packet reaches a receiver that awaits one, is flushing its input or has returned, not one in the
    middle of a packet; a packet can also be lost, or anything harmless can come in its place.
  - Whatever else the receiver reads, in place of a packet or between two, is any sequence of bytes and
    silences but three things: an EOT where it awaits a packet, a second CAN right after a first one there, and
    a last byte that completes a packet passing its own test. These are needed: `XmodemNoise.EotDeceives`,
    `XmodemNoise.DamagedHeaderDeceives` and `XmodemNoise.CancelDeceives` show what the first two do.
  - A reply is read in the wait that it answers, or lost. An ACK carries no number, so with replies delayed
    without bound the claim is false. Any byte but ACK can be read in its place.
- `AshLink.ExactlyOnceInOrder`: bytes are neither lost nor reordered, and an end sends DATA only when it has
  received all that the other submitted.
- `GpRemoval.RemovalCompletes` and `GpRegistration.RegistrationCompletes`: the adapter answers commands in
  order, no source ID has two sink entries at the start, and nothing but Green Power sends is queued then.
- `GpEarly.CompletesExactly`: as these, but with any number of pairing commands of earlier removals queued; the
  device registered first (the last of the list) has a source ID of its own and is not registered yet.
- `EzspRuns.CommandsInOrder`: every write succeeds and the dongle stays in EZSP mode; the other results about
  the queue assume neither.

## Where the code does less than it might seem to

- The deframer forgets an input error at the end of a call, so cutting a stream at a bad place makes a difference:
  `AshStream.Split` says exactly when.
- The XMODEM receiver refuses a repeated block 255 when it expects block 0, because it compares with an int -1,
  where the protocol reference wants a repetition acknowledged: `XmodemProtocol.RepetitionAccepted`. This is
  safe, but one ACK lost there ends every chance of success: `XmodemProgress.ProgressExactly`, and
  `XmodemProgress.LongTransferCanStall` for every transfer of at least 255 blocks.
- An EOT where the XMODEM receiver awaits a packet ends the transfer with partial data and a success code:
  `XmodemNoise.EotDeceives`.
- `getLastXiAESCBC` copies one block from behind its buffer after the last round; the copy is never used, and
  the model does not make it.
- The Green Power sink reports that it is ready while a pairing command is unanswered:
  a registration completes exactly when none is queued, `GpEarly.CompletesExactly`.
- A command that could not be sent is dropped by an unsolicited message with its identifier:
  `EzspRuns.GoneUnsentExactly` says exactly when.
- The comparison of adapter versions is not transitive when three share protocol and stack type and exactly two
  of them are from Legrand; otherwise, among versions with known protocol and stack type, it is:
  `AdapterVersion.TransitiveExactly`. An unknown protocol breaks it as well: `AdapterVersion.UnknownFails`.
- The parser of reports counts modulo 256: `ClusterReport.UsedBytesExact`.

## Model

| member | source | states |
|---|---|---|
| `Crc.ComputeCRC` | src/ezsp/ashv2-codec.cpp:301-319 | the bit-serial loop returns the register after all bits of the buffer, started from all ones |
| `Crc.Crc16Ccitt` | src/spi/georges-menie-thuffir-xmodem/xmodem.c:67-85 | the shift/xor byte loop returns the register after all bits of the buffer, started from 0 |
| `Crc.SameTransition` | src/spi/georges-menie-thuffir-xmodem/xmodem.c:75-79 | for every register and byte, the five byte-wise assignments are eight steps of the bit-serial register: both routines are one transition function |
| `Crc.XmodemCrcIsRemainder` | src/spi/georges-menie-thuffir-xmodem/ymodem.txt:1564-1580 | for every buffer the XMODEM CRC is the remainder of the message times X^16 under long division by X^16 + X^12 + X^5 + 1 |
| `Crc.AshCrcIsRemainder` | src/ezsp/ashv2-codec.cpp:301-319 | for every buffer the ASH CRC is the remainder of the message times X^16 with its first sixteen bits inverted |
| `Crc.ResidueZero` | src/ezsp/ashv2-codec.cpp:121-123 | a message followed by two bytes leaves residue 0 if and only if they are its CRC, high byte first |
| `Crc.BitsStepLinear` | src/ezsp/ashv2-codec.cpp:305-314 | the register after the XOR of two messages from the XOR of two registers is the XOR of the two registers reached |
| `Crc.BurstDetected` | src/ezsp/ashv2-codec.cpp:121-125 | no two different frames of one length whose difference lies within sixteen consecutive bits both have residue 0 |
| `Crc.OddErrorDetected` | src/ezsp/ashv2-codec.cpp:121-125 | nor have two frames that differ in an odd number of bits |
| `AshFraming.AddByteStuffing` | src/ezsp/ashv2-codec.cpp:348-386 | the loop returns the stuffed body followed by one FLAG |
| `AshFraming.RemoveByteStuffing` | src/ezsp/ashv2-codec.cpp:321-346 | the loop, with its escape state, returns the unstuffed bytes |
| `AshFraming.StuffingRoundTrip` | src/ezsp/ashv2-codec.cpp:321-386 | unstuffing a stuffed body gives back every byte string |
| `AshFraming.StuffedBodyHasNoControl` | src/ezsp/ashv2-codec.cpp:352-381 | a stuffed body holds no FLAG, CANCEL, SUBSTITUTE, XON or XOFF |
| `AshFraming.EscapeIsXor` | src/ezsp/ashv2-codec.cpp:321-381 | the six reserved bytes go out as 0x7D and the byte with bit 5 inverted, all others as they are; what follows an escape comes in with bit 5 inverted |
| `AshFraming.DataRandomize` | src/ezsp/ashv2-codec.cpp:388-405 | the loop XORs the bytes behind `start` with the LFSR sequence from 0x42 |
| `AshFraming.WhitenInvolution` | src/ezsp/ashv2-codec.cpp:388-405 | whitening twice, from any register, is the identity |
| `AshWhitening.StepDivides` | src/ezsp/ashv2-codec.cpp:396-401 | one step of the whitening register is division by X modulo X^8 + X^6 + X^5 + X^4 + 1 |
| `AshWhitening.WhitenedAt` | src/ezsp/ashv2-codec.cpp:388-405 | byte n is XORed with the value of the register after n steps |
| `AshWhitening.FullPeriod` | src/ezsp/ashv2-codec.cpp:388-405 | from 0x42 the register is back after 255 steps and not before: it passes every value but zero |
| `AshCodec.Codec.constructor` | src/ezsp/ashv2-codec.cpp:34-42 | a fresh codec: counters 0, not connected, empty buffer |
| `AshCodec.Codec.ForgeResetNCPFrame` | src/ezsp/ashv2-codec.cpp:48-73 | resets the counters, reports the disconnection, keeps the input buffer, and returns CANCEL, the stuffed reset body with its CRC, FLAG |
| `AshCodec.Codec.ForgeAckFrame` | src/ezsp/ashv2-codec.cpp:75-87 | returns a frame whose control byte, taken off the line, has 0x80 in its upper five bits and the number of the frame expected next in the lower three; the codec does not change |
| `AshCodec.Codec.ForgeDataFrame` | src/ezsp/ashv2-codec.cpp:89-108 | returns the stuffed DATA frame under the current numbers, and moves the frame number and the expected acknowledgement on by one modulo 8, nothing else |
| `AshCodec.Codec.ProcessInterFlagStream` | src/ezsp/ashv2-codec.cpp:110-237 | decodes the buffered frame: payload, new counters and notifications by kind of frame; a truncated RSTACK throws and changes nothing |
| `AshCodec.Codec.AppendIncoming` | src/ezsp/ashv2-codec.cpp:239-298 | the byte loop of the deframer, with the input error local to the call; what an exception leaves unread |
| `AshCodec.FrameArrives` | src/ezsp/ashv2-codec.cpp:262-292 | after a delimiter, a whole stuffed frame is processed if and only if it has at most 131 stuffed bytes; a longer one leaves no trace |
| `AshCodec.AckOnTheLine` | src/ezsp/ashv2-codec.cpp:75-87 | an acknowledgement on the line, unstuffed: 0x80 plus the number of the frame expected next, and its CRC as a remainder |
| `AshCodec.DataOnTheLine` | src/ezsp/ashv2-codec.cpp:89-108 | a DATA frame on the line, unstuffed: 16 times its number plus the number expected next, the payload whitened from 0x42, and its CRC |
| `AshCodec.ResetOnTheLine` | src/ezsp/ashv2-codec.cpp:48-73 | a reset on the line, unstuffed: 0xC0 and its CRC |
| `AshSegments.SegmentExactly` | src/ezsp/ashv2-codec.cpp:239-298 | bytes between two delimiters are processed, without XON and XOFF, if and only if a FLAG ends them, no SUBSTITUTE is among them and 1 to 131 are left; otherwise they leave no trace |
| `AshSegments.StreamIsFrames` | src/ezsp/ashv2-codec.cpp:239-298 | so appendIncoming, on any stream cut at its delimiters, processes just the frames of that reading, in order, until one throws |
| `AshSegments.EveryStream` | src/ezsp/ashv2-codec.cpp:239-298 | every stream that ends in a delimiter can be cut so |
| `AshCodec.AfterDelimiter` | src/ezsp/ashv2-codec.cpp:251-269 | any history ending in FLAG or CANCEL within the call leaves an empty buffer and no input error |
| `AshCodec.DataRoundTrip` | src/ezsp/ashv2-codec.cpp:89-160 | through CRC, stuffing, whitening and flags: a forged DATA frame delivers exactly its payload and moves the next acknowledgement to its number plus one, if it fits; otherwise the receiver is unchanged |
| `AshCodec.ShortPayloadsFit` | src/ezsp/ashv2-codec.cpp:32-32 | every payload of at most 62 bytes fits, whatever its bytes |
| `AshCodec.AckRoundTrip` | src/ezsp/ashv2-codec.cpp:161-172 | a forged ACK frame is recognised as one |
| `AshCodec.ResetRoundTrip` | src/ezsp/ashv2-codec.cpp:48-73 | a forged reset frame is recognised in any decoder state, also in an input error |
| `AshCodec.NakArrives` | src/ezsp/ashv2-codec.cpp:173-188 | a NAK frame cancels the timer, is reported, and makes its number the next DATA frame number |
| `AshCodec.ResetAckArrives` | src/ezsp/ashv2-codec.cpp:196-227 | a reset acknowledgement connects an unconnected codec if and only if its version is 2 and its code one of the three restarts; otherwise the codec is unchanged |
| `AshCodec.OtherArrives` | src/ezsp/ashv2-codec.cpp:228-236 | any other control byte above 0x7F, such as that of an ERROR frame, changes nothing |
| `AshCodec.BurstRejected` | src/ezsp/ashv2-codec.cpp:121-125 | a buffered frame that differs from a valid one within sixteen consecutive bits delivers nothing and leaves the codec as it was |
| `AshCodec.BodyArrives` | src/ezsp/ashv2-codec.cpp:251-292 | one byte or more, none a control byte, fed to an empty deframer with a FLAG behind them, are judged as one frame if and only if there are at most 131 of them |
| `AshBurst.BurstStaysShort` | src/ezsp/ashv2-codec.cpp:321-346 | taking out escapes keeps a difference within sixteen consecutive bits, whatever the escapes between |
| `AshBurst.BurstOnTheLine` | src/ezsp/ashv2-codec.cpp:239-298 | a forged frame whose stuffed bytes are damaged within sixteen consecutive bits, with escapes and control bytes left at their places, is taken off the line with nothing delivered, no counter moved and nobody notified |
| `AshCodec.OddErrorRejected` | src/ezsp/ashv2-codec.cpp:121-125 | a buffered frame that differs from a valid one in an odd number of bits delivers nothing and leaves the codec as it was |
| `AshStream.Split` | src/ezsp/ashv2-codec.cpp:239-298 | cutting a stream into two calls changes payloads, codec, event order or ending if and only if the first call ends in an input error and the next delimiter that would end it is a FLAG behind buffered bytes |
| `AshStream.ErrorForgottenBetweenCalls` | src/ezsp/ashv2-codec.cpp:243-274 | a concrete stream for which the cut matters: SUBSTITUTE in one call, the end of the frame in the next |
| `AshStream.ChunkingIsInvisible` | src/ezsp/ashv2-codec.cpp:239-298 | streams without SUBSTITUTE and with at most 131 ordinary bytes between delimiters: any two ways of cutting them into calls have the same payloads, events and final codec |
| `AshStream.CallsKeepBuffer` | src/ezsp/ashv2-codec.cpp:276-292 | on every stream the buffer has at most 131 bytes and no control byte, and the sequence numbers stay below 8 |
| `AshLink.ExactlyOnceInOrder` | src/ezsp/ashv2-codec.cpp:89-160 | two codecs on a lossless in-order line, DATA never in flight both ways, over all runs and wraps: each end has received a prefix of what the other submitted, all of it when the line is empty, and no DATA frame acknowledged an unexpected frame |
| `AshNumbers.EveryFrameNumbered` | src/ezsp/ashv2-codec.cpp:75-108 | in every such run, everything either end ever put on the line, decoded: each DATA frame carries the count of those before it, and each frame, ACKs included, the count of DATA frames received when it was forged, modulo 8 |
| `XmodemIo.Port.FlushInput` | src/spi/georges-menie-thuffir-xmodem/xmodem.c:115-119 | reads up to and including the first timeout |
| `XmodemIo.CheckBlock` | src/spi/georges-menie-thuffir-xmodem/xmodem.c:91-110 | CRC or checksum of the data compared with the trailer |
| `XmodemIo.WaitHeader` | src/spi/georges-menie-thuffir-xmodem/xmodem.c:135-161 | the retry loop: prompts, the first byte of a packet, EOT, CAN CAN, or sixteen attempts used up |
| `XmodemIo.ReceivePacket` | src/spi/georges-menie-thuffir-xmodem/xmodem.c:170-181 | reads a packet into the buffer; a timeout or an unacceptable packet ends in the state that flushes and sends NAK |
| `XmodemIo.XmodemReceive` | src/spi/georges-menie-thuffir-xmodem/xmodem.c:124-212 | for every input the call ends, and return value, stored bytes and bytes sent are those of the receiver machine fed with what was read |
| `XmodemSend.BuildPacket` | src/spi/georges-menie-thuffir-xmodem/xmodem.c:258-290 | the packet in the buffer is that of the block at the position: header, number and complement, chunk, fill bytes and trailer |
| `XmodemSend.Synchronize` | src/spi/georges-menie-thuffir-xmodem/xmodem.c:225-254 | the mode the receiver asked for, or cancellation, or no sync after sixteen attempts |
| `XmodemSend.SendPacket` | src/spi/georges-menie-thuffir-xmodem/xmodem.c:291-319 | one block until it is acknowledged, cancelled or sent 25 times |
| `XmodemSend.SendEots` | src/spi/georges-menie-thuffir-xmodem/xmodem.c:325-335 | EOT until it is acknowledged or sent 10 times |
| `XmodemSend.XmodemTransmit` | src/spi/georges-menie-thuffir-xmodem/xmodem.c:217-339 | for every input the call ends, and return value, bytes sent and bytes fetched are those of the sender machine fed with what was read |
| `XmodemPacing.EveryTransmission` | src/spi/georges-menie-thuffir-xmodem/xmodem.c:256-336 | in every run the fetches make up an initial piece of the source, every packet sent is that of the last fetch under its number, no more than 25 times, EOT no more than 10 times; a successful call has fetched the whole source and returns srcsz <= len < srcsz + 1024 |
| `XmodemWire.EveryPacket` | src/spi/georges-menie-thuffir-xmodem/xmodem.c:256-336 | in every run, in numbers: each transmission starts with STX and has 1024 data bytes if onek and more than 128 bytes are left at its place, else SOH and 128; then number and its difference to 255, the source bytes, 0x1A or 0x00 behind them, and the CRC remainder or the sum modulo 256; success takes ceil(srcsz/1024) or ceil(srcsz/128) fetches and returns the exact length; each error code goes with what was sent last |
| `XmodemWire.ChecksumIsTotal` | src/spi/georges-menie-thuffir-xmodem/xmodem.c:97-104 | the checksum is the sum of the bytes modulo 256 |
| `XmodemWire.CleanTransmission` | src/spi/georges-menie-thuffir-xmodem/xmodem.c:217-339 | prompted for CRC or checksums and always acknowledged, the sender puts each packet of the source on the line once and in order, then EOT, and returns the length |
| `XmodemAnswers.StreamTransmission` | src/spi/georges-menie-thuffir-xmodem/xmodem.c:299-299 | prompted for mode G, it does so without waiting; one ACK ends the call |
| `XmodemAnswers.RefusedBlock` | src/spi/georges-menie-thuffir-xmodem/xmodem.c:291-324 | a block answered n times by anything but ACK and two CANs is sent n more times, and given up with three CANs at the 25th refusal |
| `XmodemAnswers.RefusedEot` | src/spi/georges-menie-thuffir-xmodem/xmodem.c:328-338 | EOT not acknowledged n times is sent n more times, and given up at the tenth |
| `XmodemAnswers.NotPrompted` | src/spi/georges-menie-thuffir-xmodem/xmodem.c:225-254 | sixteen waits without a prompt or two CANs end in three CANs, nothing fetched |
| `XmodemAnswers.FlushEnds` | src/spi/georges-menie-thuffir-xmodem/xmodem.c:115-119 | a sender that gave up reads on until a silence and only then returns |
| `XmodemEnds.SenderCancelled` | src/spi/georges-menie-thuffir-xmodem/xmodem.c:238-246 | the sender returns -1 only after two CANs in a row |
| `XmodemEnds.SenderObeys` | src/spi/georges-menie-thuffir-xmodem/xmodem.c:302-310 | and always does when it reads them in a wait, with one ACK |
| `XmodemEnds.ReceiverEnds` | src/spi/georges-menie-thuffir-xmodem/xmodem.c:134-206 | the receiver returns -1 only after two CANs in a row, and the stored length only after EOT or a packet in mode 1 |
| `XmodemProtocol.FullIsPadded` | src/spi/georges-menie-thuffir-xmodem/xmodem.c:258-278 | the blocks put together are the source followed by fewer than 1024 fill bytes |
| `XmodemProtocol.PacketArrives` | src/spi/georges-menie-thuffir-xmodem/xmodem.c:170-211 | a packet fed byte by byte to a waiting receiver is judged as a whole |
| `XmodemReceipt.PacketReceived` | src/spi/georges-menie-thuffir-xmodem/xmodem.c:174-211 | an intact packet, in every mode and every field: the expected one is stored as far as it fits, counted and acknowledged unless in mode G, and ends a call in mode 1; a repetition is acknowledged and counted down; any other is refused |
| `XmodemReceipt.FlushEnds` | src/spi/georges-menie-thuffir-xmodem/xmodem.c:115-119 | whatever comes in, a flush goes on until a silence; then ACK and -1, three CANs and -2 or -3, or NAK and the next wait |
| `XmodemReceipt.NothingStarts` | src/spi/georges-menie-thuffir-xmodem/xmodem.c:135-168 | sixteen attempts without a packet, EOT or two CANs use up a mode: G falls back to CRC, CRC to checksums, checksums to the end |
| `XmodemReceipt.FallsBack` | src/spi/georges-menie-thuffir-xmodem/xmodem.c:162-163 | after these the receiver checks packets as the simpler mode has it |
| `XmodemProtocol.IntactPacket` | src/spi/georges-menie-thuffir-xmodem/xmodem.c:179-181 | an undamaged packet is acceptable if and only if its number is the expected one or the one before, where 0 has none before it |
| `XmodemProtocol.RepetitionAccepted` | src/spi/georges-menie-thuffir-xmodem/xmodem.c:180-180 | a repeated block is accepted if and only if the receiver does not expect number 0, against src/spi/georges-menie-thuffir-xmodem/ymodem.txt lines 1373-1378 |
| `XmodemSafety.NewBlock` | src/spi/georges-menie-thuffir-xmodem/xmodem.c:179-206 | the expected packet is stored, counted and acknowledged, from any waiting state |
| `XmodemSafety.OldBlock` | src/spi/georges-menie-thuffir-xmodem/xmodem.c:179-210 | a repeated packet stores nothing and keeps the expected number |
| `XmodemSafety.DamagedBlock` | src/spi/georges-menie-thuffir-xmodem/xmodem.c:174-210 | a packet that breaks off or fails the test of the receiver stores nothing and acknowledges nothing |
| `XmodemSafety.QuietRun` | src/spi/georges-menie-thuffir-xmodem/xmodem.c:135-211 | whatever harmless bytes and silences a receiver reads, it stores nothing, keeps the expected number and acknowledges nothing |
| `XmodemSafety.EveryTransfer` | src/spi/georges-menie-thuffir-xmodem/xmodem.c:124-339 | every run over a line that drops packets, puts any harmless bytes in their place or between them, and loses or garbles replies: stored bytes are a prefix of the padded source capped at destsz; the sender is on the expected block or the one before, over all wraps; a receiver that ends normally holds all of it; a sender ends normally only after such a receiver |
| `XmodemSuccess.CleanTransfer` | src/spi/georges-menie-thuffir-xmodem/xmodem.c:124-339 | every source that is not empty has a run without faults at whose end the sender returns a length and the receiver holds the whole padded source capped at destsz |
| `XmodemNoise.RefusedPacketHarmless` | src/spi/georges-menie-thuffir-xmodem/xmodem.c:170-181 | a packet start with anything behind it is harmless, as long as the whole packet is not acceptable |
| `XmodemNoise.PlainHarmless` | src/spi/georges-menie-thuffir-xmodem/xmodem.c:138-161 | so are any number of bytes other than SOH, STX, EOT and CAN, such as a packet with a damaged first byte |
| `XmodemNoise.LoneCanHarmless` | src/spi/georges-menie-thuffir-xmodem/xmodem.c:152-159 | a CAN is harmless if and only if no second one follows |
| `XmodemNoise.EotDeceives` | src/spi/georges-menie-thuffir-xmodem/xmodem.c:148-151 | one EOT where a packet is awaited ends the transfer normally, with whatever is stored |
| `XmodemNoise.DamagedHeaderDeceives` | src/spi/georges-menie-thuffir-xmodem/xmodem.c:138-161 | so does an EOT behind a damaged first byte |
| `XmodemProgress.NoProgress` | src/spi/georges-menie-thuffir-xmodem/xmodem.c:179-319 | the receiver has taken the block being sent, expects number 0, and no ACK of this transmission is under way: in no continuation does the sender get beyond its block or return a length |
| `XmodemProgress.ProgressExactly` | src/spi/georges-menie-thuffir-xmodem/xmodem.c:179-319 | an ACK was lost and both ends have attempts left: some continuation takes the sender beyond its block if and only if the receiver does not expect number 0 |
| `XmodemProgress.LongTransferCanStall` | src/spi/georges-menie-thuffir-xmodem/xmodem.c:124-339 | every transfer of at least 255 blocks has a run with one lost ACK after which no continuation succeeds |
| `XmodemLimits.NobodySends` | src/spi/georges-menie-thuffir-xmodem/xmodem.c:134-168 | on a silent line a receiver asks sixteen times for each mode from the one wanted down to checksums, cancels and returns -2, nothing stored |
| `XmodemLimits.RepetitionsBounded` | src/spi/georges-menie-thuffir-xmodem/xmodem.c:194-206 | repetitions of one block, unless number 0 is expected, are each acknowledged and stored nowhere; the 25th in a row makes the receiver give up |
| `XmodemLimits.RepetitionsRefused` | src/spi/georges-menie-thuffir-xmodem/xmodem.c:179-211 | while number 0 is expected each repetition is flushed and answered by NAK, any number of times: the receiver neither counts them nor gives up |
| `XmodemLimits.NobodyAsks` | src/spi/georges-menie-thuffir-xmodem/xmodem.c:225-254 | on a silent line a sender waits sixteen times, cancels and returns -2, nothing fetched |
| `GaloisField.GfMulAdd` | src/spi/custom-aes/custom-aes.cpp:54-71 | multiplication in GF(2^8) by a fixed byte is linear |
| `GaloisField.InverseUnique` | src/spi/custom-aes/custom-aes.cpp:85-117 | every byte has at most one multiplicative inverse |
| `AesTables.MacrosMultiply` | src/spi/custom-aes/custom-aes.cpp:59-67 | the macros behind the 2 and 3 tables multiply by 2 and 3 in GF(2^8) |
| `AesTables.SBoxIsAffineInverse` | src/spi/custom-aes/custom-aes.cpp:85-117 | every entry of the S-box table is the affine image of the inverse of its index |
| `AesTables.ISBoxUndoesSBox` | src/spi/custom-aes/custom-aes.cpp:119-151 | the second table undoes the first on all 256 bytes |
| `CustomAes.ShiftSubRows` | src/spi/custom-aes/custom-aes.cpp:225-251 | the in-place row shuffle is ShiftRows of SubBytes of section 5.1 of FIPS 197 |
| `CustomAes.InvShiftSubRows` | src/spi/custom-aes/custom-aes.cpp:253-279 | the in-place inverse shuffle |
| `CustomAes.MixSubColumns` | src/spi/custom-aes/custom-aes.cpp:281-304 | the fused table lookups are MixColumns of ShiftRows of SubBytes |
| `CustomAes.InvMixSubColumns` | src/spi/custom-aes/custom-aes.cpp:306-329 | the fused inverse lookups are the inverse S-box and row shift of InvMixColumns |
| `CustomAes.UnShiftSubUndoes` | src/spi/custom-aes/custom-aes.cpp:225-279 | inv_shift_sub_rows undoes shift_sub_rows on every state |
| `CustomAes.UnMixSubUndoes` | src/spi/custom-aes/custom-aes.cpp:281-329 | inv_mix_sub_columns undoes mix_sub_columns on every state |
| `CustomAes.Aes.SetKey` | src/spi/custom-aes/custom-aes.cpp:332-368 | the byte-indexed schedule loop leaves the 44 words of KeyExpansion and 10 rounds, for every key |
| `CustomAes.Aes.Encrypt` | src/spi/custom-aes/custom-aes.cpp:385-401 | the cipher of FIPS 197 for every key and block, also when output and input are one array; false and no change without a key |
| `CustomAes.Aes.CbcEncrypt` | src/spi/custom-aes/custom-aes.cpp:404-421 | CBC of NIST SP 800-38A for any number of blocks, in place or not; the IV becomes the last block; refused for a size that is no multiple of 16 or without a key |
| `GpMic.FlagsRecovered` | src/ezsp/zbmessage/green-power-frame.cpp:77-102 | each flag of the frame can be read back from the two frame control bytes |
| `GpMic.HeaderExactly` | src/ezsp/zbmessage/green-power-frame.cpp:77-129 | the authenticated data is the one sequence with frame type 0, protocol version 3, extension set, and every flag, the source ID, the counter, the command and the payload at its place; likewise the nonce |
| `GpMic.AuthDataDetermines` | src/ezsp/zbmessage/green-power-frame.cpp:188-207 | frames with the same authenticated data agree in every field that is acted upon |
| `GpMic.ComputeNonce` | src/ezsp/zbmessage/green-power-frame.cpp:104-129 | source ID twice, frame counter, all least significant byte first, and 0x05 |
| `GpMic.ChainIsMac` | src/ezsp/zbmessage/green-power-frame.cpp:131-172 | chaining from a zero block is the CBC-MAC recursion of section 2.2 of RFC 3610 |
| `GpMic.GetLastXi` | src/ezsp/zbmessage/green-power-frame.cpp:131-172 | the last chained block over B0 and B and its index; nothing when a size is wrong |
| `GpMic.ValidateMIC` | src/ezsp/zbmessage/green-power-frame.cpp:174-332 | true exactly for frames of security level 2 and application ID 0 whose code is the CCM tag of RFC 3610 with M = 4, L = 2 and no message over the data and under the nonce described field by field |
| `EzspQueue.HeaderRoundTrip` | src/ezsp/ezsp-dongle.cpp:210-263 | a message framed as the command it answers is parsed to that command and its parameters if and only if the protocol is 8 or higher, or known and the command not VERSION, or it has parameters and the identifier is not 0xFF |
| `EzspModes.ParseExactly` | src/ezsp/ezsp-dongle.cpp:199-263 | a message is understood as a command and parameters if and only if it is two bytes, the identifier in the form of the protocol version, and these parameters: one reading at most |
| `EzspQueue.EzspDongle.SendNextMsg` | src/ezsp/ezsp-dongle.cpp:297-342 | sends the head of the queue when none is awaited and the mode allows, moving the sequence number; a failed write leaves it awaited by none |
| `EzspQueue.EzspDongle.SendCommand` | src/ezsp/ezsp-dongle.cpp:277-288 | queues the command and sends it if none is outstanding |
| `EzspQueue.EzspDongle.HandleResponse` | src/ezsp/ezsp-dongle.cpp:432-458 | removes the head of the queue if the response is to it, and sends the next |
| `EzspQueue.EzspDongle.HandleInputData` | src/ezsp/ezsp-dongle.cpp:194-275 | parses, acknowledges, unqueues and notifies, with its exceptions |
| `EzspQueue.EzspDongle.AshNack` | src/ezsp/ezsp-dongle.cpp:165-170 | sends the outstanding command again |
| `EzspQueue.EzspDongle.AshConnected` | src/ezsp/ezsp-dongle.cpp:152-157 | EZSP mode, and nothing else changes |
| `EzspQueue.EzspDongle.ResetDongle` | src/ezsp/ezsp-dongle.cpp:108-131 | the sequence number starts over at 0; queue and wait stay |
| `EzspQueue.EzspDongle.SetDongleMode` | src/ezsp/ezsp-dongle.cpp:360-402 | leaves or enters the bootloader by known and requested mode, and what its prompt will do; other combinations change nothing |
| `EzspQueue.EzspDongle.HandleBootloaderPrompt` | src/ezsp/ezsp-dongle.cpp:366-396 | does what the last mode request registered: run the application and reset, or stay for the upgrade |
| `EzspRuns.EveryRunOrdered` | src/ezsp/ezsp-dongle.cpp:277-458 | in every run, whichever writes fail and whenever mode changes and resets come: commands gone and commands queued are those submitted, in order; the frames sent carry these commands in that order, each as often as it was transmitted; a response is awaited only for a transmitted head |
| `EzspFrames.EveryFrame` | src/ezsp/ezsp-dongle.cpp:297-342 | in every run each frame written has as its first byte the count of frames built since the last reset modulo 256, then 0x00, the identifier in the form of the version last made known, and the parameters |
| `EzspFrames.NumberedInTurn` | src/ezsp/ezsp-dongle.cpp:297-342 | with successful writes and no reset the i-th frame starts with i modulo 256 |
| `EzspFrames.NumberedSinceReset` | src/ezsp/ezsp-dongle.cpp:108-342 | with successful writes the numbers go up by one or start over at a reset |
| `EzspModes.BootloaderIsSilent` | src/ezsp/ezsp-dongle.cpp:360-402 | from the request of a firmware upgrade on, until something leads out, nothing is sent, acknowledged or passed on, and every command submitted is queued in order |
| `EzspModes.BootloaderIsLeft` | src/ezsp/ezsp-dongle.cpp:360-378 | a request to leave and the next prompt restore EZSP mode with sequence number 0 and the queue as it was; the next command makes the oldest be sent |
| `EzspModes.OtherRequestsRefused` | src/ezsp/ezsp-dongle.cpp:399-401 | exactly which mode requests change nothing |
| `EzspRuns.WaitMeansTransmitted` | src/ezsp/ezsp-dongle.cpp:297-342 | as long as no NACK came, a response is awaited exactly while the head of the queue has been transmitted |
| `EzspRuns.RemovesUnsentExactly` | src/ezsp/ezsp-dongle.cpp:432-458 | an event removes a command that was never sent if and only if it is a message with the identifier of the head and the head was never transmitted |
| `EzspRuns.GoneUnsentExactly` | src/ezsp/ezsp-dongle.cpp:432-458 | a run has lost a command unsent if and only if such a message came at some moment of it |
| `EzspRuns.GoneUnsentWithoutNack` | src/ezsp/ezsp-dongle.cpp:432-458 | without NACKs: if and only if a message with the identifier of the head came while no response was awaited, the case that the code only logs |
| `EzspRuns.GoneUnsentHappens` | src/ezsp/ezsp-dongle.cpp:337-458 | for every command there is such a run: its write fails, and a message with its identifier comes |
| `EzspRuns.EveryMessageAcknowledged` | src/ezsp/ezsp-dongle.cpp:268-274 | in every run each message passed on to observers was acknowledged once, except the one that starts the bootloader |
| `EzspRuns.CommandsInOrder` | src/ezsp/ezsp-dongle.cpp:108-342 | in EZSP mode with successful writes: a response is awaited exactly while a command is queued; each command gone or outstanding was transmitted at least once, in order; transmissions are these plus one for each NACK; the sequence number is the count of transmissions since the last reset modulo 256 |
| `GpSink.CGpSink.RegisterGpds` | src/ezsp/zigbee-tools/green-power-sink.cpp:134-167 | starts a registration from READY with a non-empty list, back to front; otherwise refuses |
| `GpSink.CGpSink.RemoveGpds` | src/ezsp/zigbee-tools/green-power-sink.cpp:189-226 | starts a removal from READY with a non-empty list, back to front; otherwise refuses |
| `GpSink.RefusedWhileBusy` | src/ezsp/zigbee-tools/green-power-sink.cpp:134-226 | a call changes nothing and sends nothing if and only if the sink is not ready, as while a list is in progress, or the new list is empty |
| `GpSink.BusyCallsChangeNothing` | src/ezsp/zigbee-tools/green-power-sink.cpp:134-226 | in every run, calls made while a list is in progress make no difference to it |
| `GpSink.CGpSink.HandleFindOrAllocateEntry` | src/ezsp/zigbee-tools/green-power-sink.cpp:388-404 | records the index and reads the entry, or fails on a full table |
| `GpSink.CGpSink.HandleSinkLookup` | src/ezsp/zigbee-tools/green-power-sink.cpp:406-421 | removes the entry found, then looks the device up in the proxy table |
| `GpSink.CGpSink.HandleSinkGetEntry` | src/ezsp/zigbee-tools/green-power-sink.cpp:423-481 | writes the entry of the device in hand |
| `GpSink.CGpSink.HandleSinkSetEntry` | src/ezsp/zigbee-tools/green-power-sink.cpp:483-503 | pairs the device, or gives up |
| `GpSink.CGpSink.HandleProxyLookup` | src/ezsp/zigbee-tools/green-power-sink.cpp:505-527 | unpairs the device if found, and goes on to the next or to READY |
| `GpSink.CGpSink.HandleProcessGpPairing` | src/ezsp/zigbee-tools/green-power-sink.cpp:554-567 | goes on to the next device to register or to READY |
| `GpRemoval.RemovalCompletes` | src/ezsp/zigbee-tools/green-power-sink.cpp:189-527 | removing any list, whatever frames come in, takes at most four exchanges a device plus one for each command queued before and each frame; when the queue is empty the sink is ready, neither table holds a listed ID, and every other entry is unchanged |
| `GpRegistration.RegistrationCompletes` | src/ezsp/zigbee-tools/green-power-sink.cpp:134-567 | registering any list with only Green Power sends queued ends; other devices are never touched; if the adapter does not fail, it takes exactly four exchanges a device and both tables map each ID to its first key in the list |
| `GpEarly.RemovalLeavesPairing` | src/ezsp/zigbee-tools/green-power-sink.cpp:189-527 | removing a device of the proxy table leads to a ready sink with its pairing command still queued |
| `GpEarly.StaleAnswerLosesDevice` | src/ezsp/zigbee-tools/green-power-sink.cpp:134-567 | registering any list with any number of such commands queued: the device registered first never becomes active in any run, whatever fails and whatever frames come |
| `GpEarly.ReadyWithoutDevice` | src/ezsp/zigbee-tools/green-power-sink.cpp:505-567 | and the sink reports READY, with nothing queued and nothing left to register |
| `GpEarly.CompletesExactly` | src/ezsp/zigbee-tools/green-power-sink.cpp:134-567 | a run that drains the queue without a failure has registered the list if and only if no pairing command was queued at the call |
| `LibStart.CLibEzspMain.HandleDongleReady` | src/ezsp/lib-ezsp-main.cpp:306-310 | asks for the expected version, once the dongle is awaited |
| `LibStart.CLibEzspMain.HandleVersion` | src/ezsp/lib-ezsp-main.cpp:472-539 | raises the expected version and starts again, goes on, or stops |
| `LibStart.CLibEzspMain.HandleXncpInfo` | src/ezsp/lib-ezsp-main.cpp:541-559 | initializes the stack whatever the payload |
| `LibStart.CLibEzspMain.HandleNetworkState` | src/ezsp/lib-ezsp-main.cpp:561-603 | forms, leaves, ends or fails by network state, request and library state |
| `LibStart.CLibEzspMain.HandleStackStatus` | src/ezsp/lib-ezsp-main.cpp:615-656 | starts the sink when the network is up and no reset is pending; else asks on |
| `LibStart.CLibEzspMain.HandleLeaveNetwork` | src/ezsp/lib-ezsp-main.cpp:708-715 | back to stack initialization |
| `LibStart.NetworkSafety` | src/ezsp/lib-ezsp-main.cpp:561-656 | over all orders of messages and calls: one network at most, on the requested channel; none left after that; with a request no sink before a form; with -1 no form and no sink; with 0 no form and no leave |
| `LibOutcome.FormsExactly` | src/ezsp/lib-ezsp-main.cpp:561-592 | with a requested channel, over every run: a network is formed on it if and only if at some moment the adapter reports, to an initialized stack, that it has none |
| `LibOutcome.LeavesExactly` | src/ezsp/lib-ezsp-main.cpp:561-602 | with any request: a network is left if and only if at some moment the adapter reports, to an initialized stack, that it has one, and none was formed before |
| `LibOutcome.StartsExactly` | src/ezsp/lib-ezsp-main.cpp:615-656 | the sink is started if and only if the network comes up, outside of leaving one, with nothing requested or after the form |
| `LibOutcome.LeavesFormsStarts` | src/ezsp/lib-ezsp-main.cpp:561-715 | an initialized library with a request, told of a network, of having left it, of none, and that it is up, ends READY with Leave, Form and InitSink in that order |
| `LibOutcome.WholeStart` | src/ezsp/lib-ezsp-main.cpp:306-715 | from nothing to READY for each version 6 to 8, every network and every channel: all commands in order |
| `LibReports.NoNetworkReported` | src/ezsp/lib-ezsp-main.cpp:561-592 | in every run, what a report of no network does: nothing while forming, the end after a request to leave only, failure with nothing left to form, else a form or nothing |
| `LibReports.NetworkReported` | src/ezsp/lib-ezsp-main.cpp:594-602 | and what a report of a network does |
| `LibReports.EveryStatusAnswered` | src/ezsp/lib-ezsp-main.cpp:615-656 | in every run each stack status is answered once and in order: sink start, parameters on status 155, else network state; none while leaving |
| `LibReports.SettlesExactly` | src/ezsp/lib-ezsp-main.cpp:472-539 | in every run the library goes on to the XNCP data if and only if some report is of the short form or repeats the greatest mesh version of 6 and those up to 8 reported before |
| `LibReports.ExpectsGreatest` | src/ezsp/lib-ezsp-main.cpp:489-506 | the expected version is always the greatest of 6 and the mesh versions up to 8 reported |
| `LibReports.OneScanAtATime` | src/ezsp/lib-ezsp-main.cpp:399-438 | in every run a scan is started unless the last one requested or reported is still on, and then nothing changes |
| `LibReports.SinkUsed` | src/ezsp/lib-ezsp-main.cpp:334-366 | in every run a library that has started its sink and is ready becomes busy when it is used, and ready with it, nothing else changed |
| `LibReports.FirmwareUpgraded` | src/ezsp/lib-ezsp-main.cpp:393-469 | in any state an upgrade launches the bootloader once, and the transfer starts when that is ready |
| `LibStart.NegotiationEnds` | src/ezsp/lib-ezsp-main.cpp:489-519 | the expected version stays within 6 to 8 and each repeated request raises it: at most two more than the dongle was ready |
| `LibStart.NegotiationOutcome` | src/ezsp/lib-ezsp-main.cpp:489-534 | in every run in which all version reports name one version and stack type, whatever else happens: the library goes on if and only if the version is 6, 7 or 8, the type mesh, and it was reported once (6) or twice; the expected version becomes it then, and stays 6 otherwise |
| `ClusterReport.ExtractClusterReport` | example/mainEzspStateMachine.h:333-445 | true exactly when a well-formed report is at the front; the count of used bytes is its length modulo 256 |
| `ClusterReport.ParseInvertsEncode` | example/mainEzspStateMachine.h:333-445 | on payloads of any length, cutting into reports and concatenating them are inverse: one reading at most |
| `ClusterReport.ExtractMultiClusterReport` | example/mainEzspStateMachine.h:454-465 | ends for payloads of at most 255 bytes, and returns true exactly for concatenations of well-formed reports |
| `ClusterReport.UsedBytesExact` | example/mainEzspStateMachine.h:355-364 | the count of used bytes is exact if and only if a string has fewer than 250 bytes, always so for payloads of at most 255 bytes; a string of 250 bytes counts as 0 |
| `AdapterVersion.EzspAdapterVersion.SetStackVersion` | src/ezsp/ezsp-adapter-version.cpp:30-35 | the four nibbles make up the packed stack version; nothing else changes |
| `AdapterVersion.EzspAdapterVersion.SetEzspVersionInfo` | src/ezsp/ezsp-adapter-version.cpp:37-41 | as above, with protocol and stack type |
| `AdapterVersion.EzspAdapterVersion.SetXncpData` | src/ezsp/ezsp-adapter-version.cpp:43-49 | the four nibbles make up the packed XNCP version; nothing else changes |
| `AdapterVersion.CmpAntisymmetric` | src/ezsp/ezsp-adapter-version.cpp:116-190 | swapping the arguments turns the sign, on all versions |
| `AdapterVersion.CmpIsKeyOrder` | src/ezsp/ezsp-adapter-version.cpp:116-190 | among known versions all from Legrand or all not, the comparison is the lexicographic order of protocol, stack type and the 12-bit XNCP or 16-bit stack word, and 0 exactly for equal keys |
| `AdapterVersion.CmpTransitive` | src/ezsp/ezsp-adapter-version.cpp:116-190 | the comparison is transitive on all known versions but those of one protocol and stack type of which exactly two are from Legrand |
| `AdapterVersion.TwoLegrandFail` | src/ezsp/ezsp-adapter-version.cpp:139-188 | for each of the three places of the other maker, and every protocol and stack type, there are versions on which it is not |
| `AdapterVersion.TransitiveExactly` | src/ezsp/ezsp-adapter-version.cpp:116-190 | so given protocols, stack types and makers, it is transitive for all version numbers if and only if these do not agree in protocol and stack type with exactly two from Legrand |
| `AdapterVersion.UnknownSkipped` | src/ezsp/ezsp-adapter-version.cpp:116-143 | a protocol or stack type unknown on one side does not count: the comparison is as if both sides had the same |
| `AdapterVersion.UnknownFails` | src/ezsp/ezsp-adapter-version.cpp:116-143 | so an unknown protocol between two known ones can close a circle |

## Left out

- AshFraming.DataRandomize: requires at most 255 bytes, because the source counts them in a `uint8_t` and would not leave its loop for more.
- AshCodec.Codec.ForgeDataFrame: requires at most 255 bytes of payload, for the same reason.
- AshLink.ExactlyOnceInOrder: does not cover NAK and reset frames, which a lossless line between two such codecs does not call for, nor loss: the codec has no retransmission of its own.
- AshBurst.BurstOnTheLine: bursts that make or unmake an escape or a control byte are not covered: what follows is then read as other bytes or another frame, and no burst remains.
- CustomAes.Aes.SetKey: takes 16 bytes; the branch of the source for longer keys is never reached because the key length is a constant.
- CustomAes.InvMixSubColumns: proved as a helper; the decryption that would use it is commented out in the source.
- GpMic.ValidateMIC: requires fewer than 65280 authenticated bytes, where the length prefix of RFC 3610 changes; a parsed frame has at most 266.
- XmodemIo.XmodemReceive: the destination is a sequence that grows, for the callback and the memory copy alike.
- XmodemSend.XmodemTransmit: requires srcsz bytes of source, and fetches by position, which is what the callback and the memory copy have in common; the transfer without acknowledgements is in the machine and in its pacing, not in the protocol result.
- GpSink.CGpSink.HandleSinkGetEntry: table entries are source ID, key and activity; alias, options, device ID and counters are not modelled.
- GpSink.CGpSink.HandleProcessGpPairing: on an empty list, which no run reaches, the source would pop from an empty vector; the model does nothing.
- LibStart.CLibEzspMain.HandleVersion: versions are numbers, and what the log prints is not modelled.
- ClusterReport.ExtractMultiClusterReport: requires at most 255 bytes, which the one-byte length of a frame ensures; a longer payload can make the loop run forever.
- Serial drivers, timers, loggers, builders, the mock UART and the main programs: input and output are parameters and logs.
- Mutexes and callbacks that call back into the library: every event is one atomic step.
- EzspQueue.EzspDongle.ResetDongle: the state of the queue and the mode only; which of the ASH and bootloader drivers is enabled, and the reset frame itself (AshCodec.ResetRoundTrip), are not part of the queue.
- The bootloader prompt parser: that it saw a prompt is an event.
- Commissioning over the air, clearing all tables, and the sink with its own MIC processing and device database.
- Fixed-layout structures (network parameters, table entries, APS and ZCL headers), scans, and everything that turns values into text.
- YMODEM file headers, and G mode between two ends.
