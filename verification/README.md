# Verification of the link stack and bus drivers

A Dafny model of the repository's communication code, with proofs.

The main part is the RS-485 link. `Crc16` holds both CRC loops, `Gf2` polynomial division over GF(2), and
`CrcDetection`, `ErrorPatterns` and `DoubleErrors` what the checksum detects. `Cobs` holds the byte stuffing in
the form of the code, `CobsTheorems` what it guarantees. `Frames` is the wire format, with one frame of each type
spelled out in `FrameExamples`; `Link` is the serial line, `Rs485Protocol` the stop-and-wait driver and `Reception`
what it accepts and sends on any byte stream. `Responder` is the peer node. `Round` puts driver and responder on a
link that loses nothing. `Segments` says what readers find in the bytes between two zeros when they come back to them.

`StopAndWait` is the protocol as a transition system, with the number of attempts as a parameter: its channels lose
frames and add noise, and a wait leaves on the line what does not fit its 16-byte buffer. `StopAndWaitSafety` has its
invariant, `StopAndWaitTheorems` and `StopAndWaitLimits` what callers may conclude and exactly when, `StopAndWaitRuns`
the runs that show it. `Network` is a network in bytes that loses, delays and adds frames as an arbitrary plan says;
`Simulation` and `DriverSimulation` show that the driver and the peer on it follow the moves of the system, and
`WireSafety` carries the theorems over. `WireRuns` and `WireCalls` go the other way and build plans for given results,
so that the exact conditions in `WireTheorems` are theorems about the driver. `EchoTails` has the payloads with which
the 16-byte buffer misleads.

The other part is three drivers against models of what they talk to: the bit-banged I2C master with any slave
(`I2cBus`, `BitbangI2c`, `I2cTransactions`; UM10204 sections 3.1.3 to 3.1.6, 3.1.9 and 3.1.10), the bit-banged SPI
master (`BitbangSpi`), and the MCP2515 driver with a register model of the chip (`Mcp2515Chip`, `Mcp2515`;
DS20001801K sections 8.1, 10 and 12).

Code that changes state step by step is modelled by classes and methods with loops, each proved against a
specification function; the theorems are lemmas about those functions. Loop bodies and statement groups that
the sources repeat inline are methods of their own here: `EncodeByte`, `EndBlock`, `CopyBlock`, `ReadChunk`,
`PollMode`, `Unpack`, `Seal`, `BuildWire`, `SendControl`, `AcceptPayload`, `OnChunk`, `Clock`, `WriteBit`,
`ExchangeBit`, `Exchange`, `Configure`, `StartupMicros`, `Compare` and the like.

## What does not hold

These stronger statements are false of the code. Each has a proof of exactly when the code does meet it.

- A successful `send_frame` need not mean that the peer has received a frame under its number. A wait reads at most
  16 bytes (src/drivers/rs485_protocol.cpp:148-165); of the echo of a payload of more than ten bytes it leaves the rest
  on the line, and the next wait looks for a start byte in there, that is, in the earlier payload and its checksum.
  After a first payload of eleven 0x41 followed by 2A 72 55 05 02 01, a second call succeeds although every frame of
  it is lost (`SecondCallMisled`). `GapIff` and, in bytes, `GapIffOnWire` have the exact condition on a log,
  `SecondWaitIff` that on one payload, and `CheckedBeforeSending` what a caller can check: at most ten bytes, or no
  start byte in the rest.
- A payload that `recv_frame` hands over need not have been submitted, for the same reason. Of the echo of eleven 0x41
  followed by 2A 72 55 05 01 01 the first wait leaves a data frame with an empty payload, which the next receive hands
  over (`LeakyLeaks`, `NobodySentIt`); `EchoesGenuineIff` and `SubmittedIffOnWire` have the exact condition.
- A successful `send_frame` need not have delivered its own payload even if an earlier one was delivered: after a
  failed call the number is reused (src/drivers/rs485_protocol.cpp:48,53), and a late ACK of the earlier payload
  satisfies the wait (`OwnPayloadIff`, `AnotherDelivered`; in bytes `OwnPayloadIffOnWire`, `AnotherOnNetwork`).
- Delivery is at least once, not exactly once: the receivers remove no duplicates, and any call can be delivered as
  often as it may be transmitted (`DuplicatesIff`, `DuplicatedSuccess`; in bytes `HeardFourTimesOnNetwork`).
- `recv_frame` acknowledges a frame and then drops it when the caller's buffer is too small
  (`AcknowledgedAnyway`).
- The responder answers any valid data frame with an echo from a buffer for 128 payload bytes, without a test
  (rp2040/protocol_responder.cpp:65-70): a byte that completes a longer one makes it write past the buffer. `EchoFits`
  is the exact condition on the byte, `WireFitsIff` that on a frame; the driver sends none that is longer.
- An `i2c` write-read of no bytes may end without a STOP (`StopIff`).
- Success of an `i2c` transfer need not mean that anything was acknowledged: the results of `scl_release_and_wait` are
  ignored (src/hal/lpc1768/bitbang_i2c_lpc1768.cpp:45-119), and on a bus where the slave holds both lines every write
  succeeds (`HoldingSucceeds`). `StuckStatusIff` and `StuckReadIff` say exactly when.
- The header of the MCP2515 driver says that `receive` returns true if RX0IF is set
  (src/drivers/mcp2515.hpp:69-71); the code does not test it, and the model follows the code (`FlagMatters`). In
  loopback mode a `send` while `has_message` is true loses its frame unless the same one is waiting
  (`SecondFrameIff`).
- A COBS result of 0 means an error or the valid empty frame 01 00 (`ZeroIsAmbiguous`).
- The delay count overflows at 1 and 2 Hz (`DelayExactIff`).
- Detection of up to three flipped bits ends at 4095 bytes (`FewErrorsIff`).

## Model

| member | source | states |
|---|---|---|
| `Crc16.Crc16Ccitt` | include/util/crc16.hpp:12-26 | The bit loop returns the checksum of the bytes; a null pointer gives 0xFFFF |
| `Crc16.Crc16Validator` | tools/crc_validator.py:6-16 | The loop on one unbounded integer, which doubles, tests bit 15 and is masked once a byte, ends with the same checksum: the bits that pile up above the sixteenth never come back |
| `Crc16.CheckValue` | include/util/crc16.hpp:9 | The checksum of the digits 1 to 9 is the published 0x29B1 |
| `CrcDetection.CrcIsTheRemainder` | include/util/crc16.hpp:14-25 | A word is the checksum if and only if it is the remainder of data(x)*x^16 + 0xFFFF*x^(8n) by x^16+x^12+x^5+1, for messages of any length |
| `Gf2.RunIsTheRemainder` | include/util/crc16.hpp:16-23 | A shift register with feedback ends in the one remainder of polynomial division over GF(2) |
| `CrcDetection.SealedChecks` | src/drivers/rs485_protocol.cpp:31-33 | A message with its checksum appended, high byte first, passes the receivers' check |
| `CrcDetection.CheckMeansSealed` | src/drivers/rs485_protocol.cpp:96-99 | Whatever passes the check is a message with its own checksum appended |
| `CrcDetection.CheckIsResidueZero` | src/drivers/rs485_protocol.cpp:96-99 | The check holds if and only if the whole frame leaves residue zero |
| `CrcDetection.UndetectedIff` | src/drivers/rs485_protocol.cpp:96-99 | A damaged frame passes if and only if the generator divides the error pattern |
| `CrcDetection.BurstDetected` | src/drivers/rs485_protocol.cpp:96-99 | Any damage confined to 16 consecutive bits is detected, at any length |
| `CrcDetection.OddDetected` | src/drivers/rs485_protocol.cpp:96-99 | Any odd number of flipped bits is detected |
| `CrcDetection.ByteChangeDetected` | src/drivers/rs485_protocol.cpp:96-99 | Any replacement of one byte is detected |
| `ErrorPatterns.Burst16` | include/util/crc16.hpp:16-23 | Among bursts of up to 16 bits only the empty one goes unnoticed |
| `ErrorPatterns.Burst17` | include/util/crc16.hpp:16-23 | Among bursts of up to 17 bits exactly one goes unnoticed, the generator itself |
| `DoubleErrors.PowerIsOne` | include/util/crc16.hpp:16-23 | x^d is 1 modulo the generator if and only if 32767 divides d |
| `DoubleErrors.DoubleErrorIff` | include/util/crc16.hpp:16-23 | Two flipped bits go unnoticed if and only if their distance is a multiple of 32767 |
| `DoubleErrors.FewErrorsIff` | src/drivers/rs485_protocol.cpp:96-99 | Errors of one to three bits are all detected if and only if frames have at most 4095 bytes |
| `Cobs.CobsEncode` | src/util/cobs.cpp:5-39 | Writes exactly the encoding and returns its length, or 0 when the entry guard fails; no byte outside the output is touched |
| `Cobs.EncodeByte` | src/util/cobs.cpp:17-33 | One pass of the encoder's loop advances its state by one input byte |
| `Cobs.ScannedEncodes` | src/util/cobs.cpp:11-36 | The loop's running state, closed with its last code and the delimiter, is the recursive encoding |
| `Cobs.CobsDecode` | src/util/cobs.cpp:41-71 | For arbitrary input it ends, returns the length of what the body stands for, or 0 for a malformed body or one that does not fit, and never writes past the output; input and output may be one buffer |
| `Cobs.CopyBlock` | src/util/cobs.cpp:54-62 | The inner loop copies one block, or finds a zero, the end or a full output |
| `CobsTheorems.RoundTrip` | src/util/cobs.cpp:5-71 | Decoding the encoding of any byte string gives it back, runs of 254 included |
| `CobsTheorems.NoZeroInside` | src/util/cobs.cpp:17-38 | No zero before the delimiter |
| `CobsTheorems.EncodedSize` | src/util/cobs.cpp:7-38 | The encoding has n + 2 + (full blocks) bytes |
| `CobsTheorems.RoomIsExact` | src/util/cobs.cpp:7-9 | The entry guard is enough for every input, and an input without zeros needs all of it |
| `CobsTheorems.Canonical` | src/util/cobs.cpp:17-36 | Encoding what a body decodes to gives the body back, with one 0x01 added exactly when its last block is a full one |
| `CobsTheorems.DecodingInjective` | src/util/cobs.cpp:50-68 | Bodies that do not end in a full block and decode alike are equal |
| `CobsTheorems.AcceptedLanguage` | src/util/cobs.cpp:50-68 | The decoder accepts exactly the concatenations of blocks |
| `CobsTheorems.DecodedSize` | src/util/cobs.cpp:50-70 | A chunk of n bytes decodes to at most n - 2 |
| `CobsTheorems.NoOverflow` | src/util/cobs.cpp:60-65 | The overflow exits cannot fire when the output has room for the chunk less two, as both receivers' buffers do |
| `CobsTheorems.ZeroIsAmbiguous` | src/util/cobs.cpp:41-44 | Among accepted chunks exactly 01 00 decodes to length 0, the error value |
| `CobsTheorems.DataByteChanged` | src/util/cobs.cpp:50-68 | Replacing a data byte of the body by another nonzero byte replaces one byte of the message |
| `CobsTheorems.DataByteCut` | src/util/cobs.cpp:50-68 | A zero in place of a data byte leaves a malformed chunk |
| `Frames.FrameRoundTrip` | src/drivers/rs485_protocol.cpp:18-40 | A receiver reads from a frame on the wire exactly the frame sent |
| `Frames.GoodMeansRaw` | src/drivers/rs485_protocol.cpp:92-116 | A receiver judges bytes to be frame f if and only if they are the raw bytes of f |
| `Frames.WireSize` | src/drivers/rs485_protocol.cpp:35-40 | Frames of the protocol never outgrow the transmit buffers, so encoding cannot fail |
| `Frames.WireLayout` | src/drivers/rs485_protocol.cpp:17-42 | On the wire: 0x55, stuffed bytes without a zero, and 0x00; unstuffed they are the type, the number, the payload and the checksum of these, high byte first |
| `FrameExamples.DataOnWire` | src/drivers/rs485_protocol.cpp:17-42 | Type 1, number 1, no payload: 55 05 01 01 3E 1F 00 |
| `FrameExamples.AckOnWire` | rp2040/protocol_responder.cpp:57-63 | ACK 1: 55 05 02 01 6B 4C 00 |
| `FrameExamples.NackOnWire` | rp2040/protocol_responder.cpp:57-63 | NACK 7: 55 05 03 07 38 BB 00 |
| `Link.Rs485Hal.Send` | src/hal/lpc1768/rs485_lpc1768.cpp:79-101 | Hands bytes to the line; the surroundings decide the status and what arrives because of it. What a failed send leaves on the line is the network's part: never a whole frame |
| `Link.Rs485Hal.Recv` | src/hal/lpc1768/rs485_lpc1768.cpp:103-129 | Takes the next byte or failure; a silent line times out |
| `Link.CollectFrame` | src/drivers/rs485_protocol.cpp:62-84 | A framed body is collected whole, whatever precedes it without a start byte |
| `Link.ChunkOrigin` | src/drivers/rs485_protocol.cpp:62-84 | A collected chunk that ends in zero is the first framed body of the stream |
| `Link.CollectFull` | src/drivers/rs485_protocol.cpp:62-84 | Bytes behind a start byte that fill the buffer without a zero are collected as they are |
| `Link.CollectHuntsInVain` | src/drivers/rs485_protocol.cpp:66-70 | A failed receive, or the end of what comes, ends the hunt for a start byte |
| `Link.CollectTimesOut` | src/drivers/rs485_protocol.cpp:66-70 | Within a frame it ends the call as well, and the bytes collected are gone |
| `Rs485Protocol.Protocol.ReadChunk` | src/drivers/rs485_protocol.cpp:57-84 | The byte loop hunts for the start byte and collects up to the zero or the buffer's end |
| `Rs485Protocol.Protocol.BuildFrame` | src/drivers/rs485_protocol.cpp:17-40 | The transmit buffer holds the wire form of the payload under the current number |
| `Rs485Protocol.Protocol.SendFrame` | src/drivers/rs485_protocol.cpp:14-54 | Payloads of up to 128 bytes are sent in up to four rounds of sending and waiting, longer ones and a null pointer are refused; the number advances by one modulo 256 if and only if the call succeeds |
| `Rs485Protocol.Protocol.WaitForAck` | src/drivers/rs485_protocol.cpp:147-181 | Succeeds if and only if the collected chunk is a valid ACK of the expected number |
| `Rs485Protocol.Protocol.RecvFrame` | src/drivers/rs485_protocol.cpp:56-137 | Delivers, acknowledges or refuses the collected chunk; nothing behind the payload is written, and a call that fails leaves the caller's buffer and length alone |
| `Rs485Protocol.Protocol.AcceptPayload` | src/drivers/rs485_protocol.cpp:117-134 | The acknowledgement goes out before the size test |
| `Rs485Protocol.Protocol.SendControl` | src/drivers/rs485_protocol.cpp:101-111 | ACK and NACK frames are built and sent, whether or not that succeeds |
| `Rs485Protocol.TooShort` | src/drivers/rs485_protocol.cpp:86-87 | The test for fewer than six bytes rejects nothing that decoding would pass |
| `Reception.ReceiveExact` | src/drivers/rs485_protocol.cpp:56-137 | Receiving succeeds with payload p if and only if the first framed chunk within 256 bytes decodes to DATA with p and a matching checksum, and p fits |
| `Reception.AwaitExact` | src/drivers/rs485_protocol.cpp:147-181 | Waiting succeeds if and only if the first framed chunk within 16 bytes is an ACK of that number |
| `Reception.ReceiveDecides` | src/drivers/rs485_protocol.cpp:86-136 | A collected chunk of less than four bytes, or that does not decode, is dropped; a checksum that does not match gets NACK under the second byte; type 1 gets ACK under it, and is handed over if it fits; other types are dropped |
| `Reception.AwaitDecides` | src/drivers/rs485_protocol.cpp:164-180 | A wait sends nothing and succeeds if and only if the chunk decodes to at least four bytes with a matching checksum, type 2 and its number |
| `Reception.NothingCollected` | src/drivers/rs485_protocol.cpp:69-71 | Both fail when their reader gives up, and send nothing |
| `Reception.AwaitLeaves` | src/drivers/rs485_protocol.cpp:147-181 | It then takes exactly that chunk from the line and sends nothing |
| `Reception.ReceiveAnswersOnce` | src/drivers/rs485_protocol.cpp:100-134 | Whatever arrives, one call sends at most one control frame, and delivers only after an ACK |
| `Reception.AcknowledgedAnyway` | src/drivers/rs485_protocol.cpp:117-129 | A data frame on the line is acknowledged in any case, and handed over if and only if it fits |
| `Reception.SendSound` | src/drivers/rs485_protocol.cpp:44-53 | A call sends one to four copies of one frame, and four before it fails; it succeeds only after a transmission that went out and a matching ACK |
| `Reception.RefusedSends` | src/drivers/rs485_protocol.cpp:45-46 | A send that fails skips its wait: if none succeeds the call makes four attempts and reads nothing |
| `Reception.StaleTolerance` | src/drivers/rs485_protocol.cpp:44-53 | With j stale frames ahead of the ACK the call succeeds if and only if j <= 3, after exactly j + 1 identical transmissions |
| `Reception.NumberCountsSuccesses` | src/drivers/rs485_protocol.cpp:48 | Over any history of calls the number is the count of successes modulo 256 |
| `Reception.ReplacedByteRejected` | src/drivers/rs485_protocol.cpp:86-111 | A frame with one COBS data byte replaced by another nonzero byte is never delivered and gets a NACK under its number, or under the replaced byte if that is the number |
| `Reception.ZeroedByteRejected` | src/drivers/rs485_protocol.cpp:86-92 | A frame with one COBS data byte zeroed is never delivered and gets no answer; the bytes behind the false delimiter stay on the line |
| `EchoTails.ZeroedByteLeft` | src/drivers/rs485_protocol.cpp:62-84 | The next calls pass over those bytes if they hold no start byte; otherwise a wait succeeds if and only if they hold an ACK of its number behind the first start byte, and a receive delivers p if and only if they hold a data frame of p there |
| `Responder.Node.OnByte` | rp2040/protocol_responder.cpp:93-138 | One byte moves the machine and sends the reply the specification says |
| `Responder.Node.OnChunk` | rp2040/protocol_responder.cpp:110-136 | A complete chunk is ignored, refused with a NACK, or acknowledged and echoed |
| `Responder.Node.Run` | rp2040/protocol_responder.cpp:93-138 | The loop over any bytes reacts as the machine fed with them |
| `Responder.Node.SendData` | rp2040/protocol_responder.cpp:65-74 | The echo carries the payload under the same number |
| `Responder.HuntsAfterZero` | rp2040/protocol_responder.cpp:97-108 | After any history ending in a zero the machine is hunting |
| `Responder.AnswersStream` | rp2040/protocol_responder.cpp:97-136 | Frames separated by garbage without start bytes get exactly their answers, in order |
| `Responder.SelfSynchronising` | rp2040/protocol_responder.cpp:97-136 | The same after any history that ends in a zero |
| `Responder.AnswerDecides` | rp2040/protocol_responder.cpp:113-137 | A chunk of less than four bytes, or that does not decode, gets no answer; a checksum that does not match gets NACK under the second byte; type 1 gets ACK and echo under it; other types get no answer |
| `Responder.DataAnswered` | rp2040/protocol_responder.cpp:127-137 | A whole frame of up to 300 stuffed bytes is answered if and only if it is a data frame, with ACK and the same frame |
| `Responder.ReplacedByteAnswered` | rp2040/protocol_responder.cpp:119-125 | A frame with one COBS data byte replaced by another nonzero byte gets a NACK under its number, or under the replaced byte if that is the number |
| `Responder.OverlongDropped` | rp2040/protocol_responder.cpp:106-108 | 300 bytes without a zero are dropped together with the next byte, whatever it is, and the machine hunts |
| `Responder.WireFitsIff` | rp2040/protocol_responder.cpp:65-70 | A frame the receive buffer can hold keeps the echo buffer intact if and only if it is no data frame of more than 128 payload bytes |
| `Responder.WireFits` | rp2040/protocol_responder.cpp:65-70 | Frames of this protocol never overflow the echo buffer |
| `Round.SendRound` | src/drivers/rs485_protocol.cpp:44-53 | On a lossless link a send succeeds at its first attempt and leaves the echo |
| `Round.ReceiveRound` | src/drivers/rs485_protocol.cpp:56-134 | Receiving then returns the payload, and the peer ignores the acknowledgement |
| `Round.SessionExact` | src/app/main_blinky.cpp:115-134 | For any list of payloads and any starting number: all sends succeed, exactly the payloads come back, nothing is left on the line, and the number has grown by one a round |
| `Round.PrintedAt` | src/app/main_blinky.cpp:116-129 | What is printed is five bytes a round: AA BB, the count, the count plus one, a line feed |
| `Round.Rs485Task` | src/app/main_blinky.cpp:107-137 | The application's RS-485 loop prints its own payloads, round after round |
| `Segments.CollectSegment` | src/drivers/rs485_protocol.cpp:57-84 | A reader passes over a body without a start byte; from one with a start byte it takes what follows, up to its buffer's size, and leaves the rest on the line |
| `Segments.FirstWait` | src/drivers/rs485_protocol.cpp:147-165 | The first wait on a data frame never succeeds; it leaves something exactly when the payload has more than ten bytes: the stuffed frame behind its sixteenth byte |
| `Segments.AckAtIff` | src/drivers/rs485_protocol.cpp:147-181 | A wait on what earlier waits left succeeds if and only if that holds, behind its first start byte, an ACK of the number that fits the buffer |
| `Segments.TailAcksIff` | src/drivers/rs485_protocol.cpp:147-181 | In bytes: a wait on a line that begins with such a rest succeeds if and only if the rest holds that ACK, whatever follows |
| `Segments.SecondWaitIff` | src/drivers/rs485_protocol.cpp:147-181 | For every payload: the second wait on its echo succeeds if and only if the stuffed frame holds such an ACK behind its sixteenth byte |
| `Segments.ShortOrStartFree` | src/drivers/rs485_protocol.cpp:147-181 | A payload of at most ten bytes, or a stuffed frame without a start byte behind its sixteenth byte, never misleads a later wait or receive |
| `EchoTails.LostCallIff` | src/drivers/rs485_protocol.cpp:44-53 | A call whose every frame is lost, with an earlier echo unread, succeeds if and only if one of its four waits finds an ACK of its number in that echo |
| `EchoTails.SecondCallMisled` | src/drivers/rs485_protocol.cpp:44-53 | A fresh driver whose first payload is eleven 0x41 and 2A 72 55 05 02 01, and whose further frames are all lost, reports success for its second call after two transmissions, whatever that was to send |
| `EchoTails.MisleadingLog` | src/drivers/rs485_protocol.cpp:44-53 | The system has a run with these two calls in which nothing is delivered under the second number |
| `EchoTails.LeakyLeaks` | src/drivers/rs485_protocol.cpp:62-84 | In what one wait leaves of the echo of eleven 0x41 and 2A 72 55 05 01 01 under number 0 a receive finds a valid data frame of number 1 with an empty payload |
| `StopAndWaitSafety.MoveKeeps` | src/drivers/rs485_protocol.cpp:44-53 | Every move of the two-node system with lossy channels keeps the invariant, tails of long echoes included |
| `StopAndWaitSafety.ReachableInv` | src/drivers/rs485_protocol.cpp:44-53 | The invariant holds in every reachable state |
| `StopAndWaitSafety.MatchMeansCurrent` | src/drivers/rs485_protocol.cpp:176 | An acknowledgement that matches in 8 bits matches in its logical number, unless an echo under the number before misleads the call |
| `StopAndWaitTheorems.NumbersNeverConfused` | src/drivers/rs485_protocol.cpp:45-51 | If no call was misled, frames under way carry the current number or the one before, sorted, so the 8-bit comparison is exact |
| `StopAndWaitTheorems.InOrderAtLeastOnce` | src/drivers/rs485_protocol.cpp:44-53 | On every run deliveries are in order and genuine, and no call is delivered more often than it was transmitted, which is at most its budget; if no call was misled nothing before the current number is missing |
| `StopAndWaitTheorems.SuccessMeansDelivered` | src/drivers/rs485_protocol.cpp:47-50 | A successful call, if none was misled: some payload submitted under its number has been delivered |
| `StopAndWaitTheorems.EchoesAreDelivered` | src/drivers/rs485_protocol.cpp:113-134 | What the driver receives comes in order from echoes of delivered frames; it is such a frame unless the echo leaks |
| `StopAndWaitTheorems.GapIff` | src/drivers/rs485_protocol.cpp:44-53 | For every log of calls and every budget: no run with that log misses a number if and only if no payload's echo can mislead a later call within the waits it may make |
| `StopAndWaitTheorems.Misled` | src/drivers/rs485_protocol.cpp:147-181 | If one can, a run exists in which that call succeeds and nothing is ever delivered under its number |
| `StopAndWaitTheorems.CheckedBeforeSending` | src/drivers/rs485_protocol.cpp:147-165 | Payloads of at most ten bytes, or without a start byte behind the sixteenth byte of their stuffed frames, rule this out |
| `StopAndWaitTheorems.OwnPayloadIff` | src/drivers/rs485_protocol.cpp:47-53 | On every run with a given log each successful call has had its own payload delivered if and only if no echo can mislead a later call and nothing else was submitted between two successes |
| `StopAndWaitTheorems.AnotherDelivered` | src/drivers/rs485_protocol.cpp:47-53 | If something else was submitted, a run exists in which that is delivered in place of the call's payload: every send goes out, and the answers to the first call come during the second |
| `StopAndWaitLimits.DuplicatesIff` | src/drivers/rs485_protocol.cpp:44-53 | With a given budget no call is ever delivered twice if and only if the budget is at most one attempt: the receivers remove no duplicates |
| `StopAndWaitLimits.DuplicatedSuccess` | src/drivers/rs485_protocol.cpp:44-53 | For every log and payload a run exists in which the call succeeds and has been delivered as often as its budget allows; every send goes out, and all but the last wait time out |
| `StopAndWaitLimits.EchoesGenuineIff` | src/drivers/rs485_protocol.cpp:56-134 | For every set of payloads: all that is ever received was submitted if and only if no echo of such a payload holds a data frame in what waits leave of it |
| `Network.DataHeard` | rp2040/protocol_responder.cpp:127-136 | The peer answers the bytes of a data frame with an acknowledgement and an echo |
| `Network.ControlRefused` | rp2040/protocol_responder.cpp:127-137 | It says nothing to an acknowledgement or a NACK |
| `Simulation.HappenSim` | rp2040/protocol_responder.cpp:93-138 | Whatever happens on the byte-level network is a sequence of moves of the system |
| `DriverSimulation.HandedSim` | src/hal/lpc1768/rs485_lpc1768.cpp:79-101 | After a send the network is still described by the system: a frame is on its way only if the send succeeds, and behind a failed one it joins what that has written and counts as noise or as lost |
| `DriverSimulation.AwaitSim` | src/drivers/rs485_protocol.cpp:147-181 | A wait on what has arrived is a sequence of moves: losses for bodies it passes over, then a take or a time-out; the states stay related, leftovers included |
| `DriverSimulation.SendSim` | src/drivers/rs485_protocol.cpp:14-54 | A call of send on any lossy network, from a related state, ends in one reached by moves |
| `DriverSimulation.ReceiveSim` | src/drivers/rs485_protocol.cpp:56-137 | So does a call of receive, which hands over the same payload |
| `WireSafety.EveryTraceReachable` | src/drivers/rs485_protocol.cpp:14-137 | For every list of calls of a fresh driver and whatever the network does: results, payloads received, frames heard and the number are those of a reachable state |
| `WireSafety.HeardIsGenuine` | src/drivers/rs485_protocol.cpp:14-54 | In bytes: every frame the peer hears came with a transmission of a call and carries that call's payload and number |
| `WireSafety.HeardInOrder` | src/drivers/rs485_protocol.cpp:44-53 | In bytes: the peer hears the calls in the order of their numbers, counted without wrapping |
| `WireSafety.FourCopiesAtMost` | src/drivers/rs485_protocol.cpp:44-53 | In bytes: the peer hears no call more than four times |
| `WireSafety.NumberIsHeard` | src/drivers/rs485_protocol.cpp:44-53 | In bytes: behind a call that returns success, if no echo misleads, the peer has heard a payload submitted under its number, by this call or a failed one before it |
| `WireSafety.SuccessIsHeard` | src/drivers/rs485_protocol.cpp:14-54 | If payloads are also repeated until they succeed, the peer has heard that very call's payload |
| `WireSafety.ShortPayloadsAreSafe` | src/drivers/rs485_protocol.cpp:147-165 | With payloads of at most ten bytes no echo misleads or leaks, so these hold on every network |
| `WireSafety.ReceivedIsHeard` | src/drivers/rs485_protocol.cpp:56-137 | In bytes: every payload handed over was heard by the peer, if no echo leaks |
| `WireTheorems.GapIffOnWire` | src/drivers/rs485_protocol.cpp:44-53 | In bytes, for every log of results: on every network that gives the driver this log the peer has heard a frame under the number of each call that returned success, if and only if no payload's echo can mislead a later call |
| `WireTheorems.MisledOnNetwork` | src/drivers/rs485_protocol.cpp:147-181 | If one can, there is a network on which the driver returns this log and the peer has heard nothing under that number |
| `WireTheorems.OwnPayloadIffOnWire` | src/drivers/rs485_protocol.cpp:47-53 | In bytes, for every log: on every network with it the peer has heard the own payload of each call that returned success, if and only if no echo can mislead and nothing else was submitted between two successes |
| `WireTheorems.AnotherOnNetwork` | src/drivers/rs485_protocol.cpp:47-53 | If something else was submitted, there is a network with this log on which under that number the peer hears only the other payload |
| `WireTheorems.HeardFourTimesOnNetwork` | src/drivers/rs485_protocol.cpp:44-53 | After any log and for any payload there is a network on which the next call returns success and is heard four times |
| `WireTheorems.SubmittedIffOnWire` | src/drivers/rs485_protocol.cpp:56-134 | In bytes, for every set of payloads: on every network all payloads handed over were submitted if and only if no echo of such a payload leaks |
| `WireTheorems.NobodySentIt` | src/drivers/rs485_protocol.cpp:56-137 | A network on which a fresh driver has that payload acknowledged and then, after a second call, is handed an empty payload that nobody sent |
| `BitbangI2c.Master.SclReleaseAndWait` | src/hal/lpc1768/bitbang_i2c_lpc1768.cpp:45-52 | Succeeds if and only if the slave holds SCL for fewer than 100000 polls, and then SCL is high; otherwise SCL is still low and a monitor has seen nothing |
| `BitbangI2c.Master.Start` | src/hal/lpc1768/bitbang_i2c_lpc1768.cpp:59-66 | From an idle bus a monitor sees one START; within a transaction a repeated one, a 0 if the slave pulls SDA in that cell, and nothing if it holds SCL for 100000 polls |
| `BitbangI2c.Master.Stop` | src/hal/lpc1768/bitbang_i2c_lpc1768.cpp:68-75 | A monitor sees a STOP, a 0 if the slave pulls SDA in that cell, and nothing if it holds SCL for 100000 polls; only a STOP leaves the bus idle |
| `BitbangI2c.Master.WriteByte` | src/hal/lpc1768/bitbang_i2c_lpc1768.cpp:77-95 | With any slave: in each cell the bus carries the wired AND of the bit and what the slave lets pass, and cells held for 100000 polls do not appear; the result is what SDA was in the ninth |
| `BitbangI2c.Master.ReadByte` | src/hal/lpc1768/bitbang_i2c_lpc1768.cpp:97-119 | With any slave: the result is what SDA was in eight cells, and a monitor sees those that were not held too long, and the master's answer |
| `BitbangI2c.Master.Init` | src/hal/lpc1768/bitbang_i2c_lpc1768.cpp:121-142 | Rejects impossible clocks and changes nothing, otherwise sets the delay and releases both lines in whatever state they are; an idle bus stays idle |
| `BitbangI2c.Master.Write` | src/hal/lpc1768/bitbang_i2c_lpc1768.cpp:144-163 | From any state of the bus and with any slave: symbols and status are those of the general transaction, which goes on when a wait for SCL has failed |
| `BitbangI2c.Master.WriteRead` | src/hal/lpc1768/bitbang_i2c_lpc1768.cpp:165-198 | The same for a write followed by a read, the bytes returned included; both may use one buffer |
| `I2cTransactions.WriteIsTransaction` | src/hal/lpc1768/bitbang_i2c_lpc1768.cpp:144-163 | With a compliant slave the general transaction is the one whose bits pass unchanged |
| `I2cTransactions.WriteReadIsTransaction` | src/hal/lpc1768/bitbang_i2c_lpc1768.cpp:165-198 | The same for a write followed by a read |
| `I2cTransactions.StuckStatusIff` | src/hal/lpc1768/bitbang_i2c_lpc1768.cpp:45-52 | A write whose slave has held SCL until the master gave up reports success if and only if all bytes had been acknowledged by then or the slave holds SDA too; no STOP appears |
| `I2cTransactions.StuckReadIff` | src/hal/lpc1768/bitbang_i2c_lpc1768.cpp:165-198 | A write-read that gets stuck in its first part reports success if and only if the slave holds SDA too; it then returns zeros |
| `I2cTransactions.StuckReadsConstant` | src/hal/lpc1768/bitbang_i2c_lpc1768.cpp:97-119 | A byte read from a stuck bus is 0x00 or 0xFF, as SDA is |
| `I2cTransactions.HoldingSucceeds` | src/hal/lpc1768/bitbang_i2c_lpc1768.cpp:144-163 | A slave that holds SCL and SDA from its first acknowledgement on: every write to it reports success and only the address has passed |
| `I2cTransactions.WriteReadsBack` | src/hal/lpc1768/bitbang_i2c_lpc1768.cpp:144-163 | For every compliant slave: START, the bytes up to the first not acknowledged, STOP, and success exactly when all were acknowledged |
| `I2cTransactions.WriteReadReadsBack` | src/hal/lpc1768/bitbang_i2c_lpc1768.cpp:165-198 | For every compliant slave: the write part, repeated START, address, the bytes returned with all but the last acknowledged, STOP |
| `I2cTransactions.StopIff` | src/hal/lpc1768/bitbang_i2c_lpc1768.cpp:190-197 | A write-read is sure to end in a STOP if and only if at least one byte is read |
| `I2cTransactions.StopMissing` | src/hal/lpc1768/bitbang_i2c_lpc1768.cpp:190-197 | The slave with which a read of no bytes shows no STOP |
| `Delay.HalfPeriodLoops` | src/hal/lpc1768/bitbang_spi_lpc1768.cpp:59-61 | From 3 Hz on the delay is the half period to within one iteration, and never longer unless it is the minimum of one iteration |
| `Delay.DelayExactIff` | src/hal/lpc1768/bitbang_spi_lpc1768.cpp:59-61 | The count is the intended one if and only if the clock is at least 3 Hz |
| `BitbangSpi.Master.Init` | src/hal/lpc1768/bitbang_spi_lpc1768.cpp:45-75 | The mode number splits into clock polarity and phase; SCK idles at the polarity, CS is high |
| `BitbangSpi.Master.ExchangeBit` | src/hal/lpc1768/bitbang_spi_lpc1768.cpp:87-106 | In all four modes one pulse carries one bit each way: MOSI holds the bit throughout, and MISO is read behind the leading edge with phase 0 and behind the trailing edge with phase 1 |
| `BitbangSpi.Master.ExchangeByte` | src/hal/lpc1768/bitbang_spi_lpc1768.cpp:84-109 | Eight bits each way, most significant first |
| `BitbangSpi.Master.Transfer` | src/hal/lpc1768/bitbang_spi_lpc1768.cpp:77-112 | The slave captures exactly the bits of tx, rx receives exactly the slave's bits, 8 pulses a byte, SCK back at idle; tx and rx may be one buffer |
| `Mcp2515.Driver.Exchange` | src/drivers/mcp2515.cpp:14-16 | Every successful select is followed by one transfer and one deselect, whether or not the transfer succeeds |
| `Mcp2515.SelectsMatched` | src/drivers/mcp2515.cpp:9-17 | When CS is high, selects and deselects are equally many |
| `Mcp2515.Driver.Reset` | src/drivers/mcp2515.cpp:9-17 | The byte C0 is sent, and the chip is in configuration mode |
| `Mcp2515.Driver.WriteReg` | src/drivers/mcp2515.cpp:19-26 | The bytes 02, register, value are sent; one register is written |
| `Mcp2515.Driver.ReadReg` | src/drivers/mcp2515.cpp:28-37 | The bytes 03, register, 00 are sent; one register is read |
| `Mcp2515.Driver.SetMode` | src/drivers/mcp2515.cpp:39-60 | On every path the transactions are those of its script: read 0F, write 0F with the mode in the upper three bits, then read 0E until the mode shows, at most 1000 times. Without bus errors it succeeds if and only if the chip changes mode within these polls; other control bits and registers are kept |
| `Mcp2515.Driver.Init` | src/drivers/mcp2515.cpp:62-83 | On every path bus and delay function see its script in order, up to the first failure: reset, the start-up wait, registers 28, 29 and 2A, the mode. Succeeds exactly if the mode can be set and the frequency is not zero, and leaves bit timing and mode set |
| `Mcp2515.WaitsBeforeUse` | src/drivers/mcp2515.cpp:69-79 | Whatever fails, no transaction behind the reset comes before a wait of at least 128 oscillator periods |
| `Mcp2515.OstIsCeiling` | src/drivers/mcp2515.cpp:75-77 | The wait covers 128 oscillator periods, and a microsecond less would not |
| `Mcp2515.Driver.Send` | src/drivers/mcp2515.cpp:85-127 | Refuses what is not a standard frame without a transaction; otherwise loads it and then sends the byte 81 |
| `Mcp2515.Driver.HasMessage` | src/drivers/mcp2515.cpp:129-133 | True if and only if the read of register 2C succeeds and its bit 0 is set |
| `Mcp2515.Driver.Receive` | src/drivers/mcp2515.cpp:135-161 | Sends 90 and thirteen zeros and returns whatever the receive buffer holds, RX0IF set or not, data padded with zeros |
| `Mcp2515Chip.LoadSpelled` | src/drivers/mcp2515.cpp:87-106 | The bytes loaded, in numbers: 40, id / 8, id mod 8 times 32, 00, 00, the length, the data |
| `Mcp2515Chip.LoadedSpelled` | src/drivers/mcp2515.cpp:96-107 | In loopback mode register 31 then holds id / 8, 32 id mod 8 times 32, 35 the length, and 36 on the data |
| `Mcp2515Chip.HeldSpelled` | src/drivers/mcp2515.cpp:147-158 | The frame received, in numbers: id is register 61 times 8 plus register 62 / 32, the length is register 65 mod 16 but at most 8, the data are registers 66 on, zero beyond the length |
| `Mcp2515Chip.IdSplit` | src/drivers/mcp2515.cpp:93-94 | SIDH is the identifier divided by 8, SIDL its remainder times 32 |
| `Mcp2515Chip.IdRoundTrip` | src/drivers/mcp2515.cpp:92-93 | An 11-bit identifier survives its split into two registers |
| `Mcp2515Chip.ArrivesIntact` | src/drivers/mcp2515.cpp:92-106 | A loaded frame that arrives is read back with identifier, length and data, padded whatever the buffer held before |
| `Mcp2515.FlagMatters` | src/drivers/mcp2515.cpp:135-161 | After a send, receiving gives the frame if RX0IF is set and the old content if it is not |
| `Mcp2515.SecondFrameIff` | src/drivers/mcp2515.cpp:85-127 | In loopback mode a frame sent is in the receive buffer when its transmission is over if and only if `has_message` was false before the send, or the buffer held that very frame |
| `Mcp2515.SecondFrameLost` | src/drivers/mcp2515.cpp:85-127 | While the receive buffer is full it keeps its frame for any time, whatever standard frame is sent |
| `Mcp2515.LoopbackRound` | tests/mcp2515_loopback_test.cpp:109-128 | The test passes only with the identifier, length and data it sent; without bus errors it passes if and only if the transmission is over within its polls |
| `Mcp2515.LoopbackTest` | tests/mcp2515_loopback_test.cpp:97-137 | After a loopback init every frame of any list comes back |
| `Bytes.ValueOfNth` | src/drivers/rs485_protocol.cpp:48 | Counting in a uint8_t is counting modulo 256 |
| `Bytes.CollectedBits` | src/hal/lpc1768/bitbang_spi_lpc1768.cpp:96 | Eight bits shifted in are the byte that shifts out as those bits |

## Left out

- The channels of the system and of the network lose, delay and add whole bodies between zeros. A body cut short by a
  lost byte or by a time-out in its middle, and noise in which a receiver finds an acknowledgement or a data frame, an
  undetected CRC collision among others, are not part of them. What a failed send has written joins the next frame; if
  the peer found a data frame in the two together, the network loses them. The error classes proved detected, and what
  becomes of a frame that a zeroed byte cuts in two, are in the table.
- `Link.Rs485Hal.Send`: whether the status is OK and what arrives afterwards is a function of what has been sent, not
  of time; how much of a failed transmission gets out is left to the surroundings, and `Network` lets any part but the
  last byte. Real time and baud error are not modelled.
- `Link.Rs485Hal.Recv`: one byte at a time, as the callers use it, and one failure status for all.
- Delays inside a bit and pin set-up are not modelled.
- `Cobs.CobsEncode`: input and output are different arrays; it could not encode in place. Overflow of the length
  arithmetic in `size_t` is not modelled.
- `Cobs.CobsDecode`: the one buffer is decoded from its start; buffers that overlap otherwise are not modelled.
- `Responder.Node.OnByte`: requires that a data frame completed by the byte carries at most 128 payload bytes; what
  the code does with longer ones is a write past a buffer.
- `Responder.Node.OnChunk`: the same for the chunk.
- `Responder.Node.Run`: the same for every byte; the endless loop runs for a given number of bytes.
- `Responder.Node.SendData`: the same for the payload.
- `BitbangI2c.Master.Write`: there is one slave, and how long it holds SCL is a function of the symbols so far: a cell
  that it has held too long is held in the next try as well. When the bus is not idle at the start, what the first
  START amounts to is given by the state of the lines (`Begun`).
- `BitbangI2c.Master.WriteRead`: the same.
- `BitbangSpi.Master.Transfer`: the slave is in the master's mode; one chip select.
- `Mcp2515.Driver.Receive` and the chip model: extended frames, filters, error counters, the second receive buffer,
  the other transmit buffers and the CAN bus itself are not part of this model; a transmission outside loopback
  mode brings nothing back.
- `Round.Rs485Task` and `Mcp2515.LoopbackTest`: the endless loops run for a given number of rounds or frames.
- The branch of `send_frame` for an encoding of length 0 is absent because `WireSize` shows it cannot be taken.
- The telemetry protocol, the circular buffer, the RP2040 copy of the SPI master, the hardware SPI and UART layers,
  start-up code, the LED and echo loops and the Python terminal: no property that the modelled code does
  not already show.
