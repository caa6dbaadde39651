# Verified model of the Direct Test Mode sample

Direct Test Mode (Bluetooth Core, Vol 6 Part F) lets a tester drive a radio: transmit test
packets, receive and count them, report the count. The firmware has a test engine
(`src/dtm.c`), an HCI transport over a UART carrying H4 packets, and two transports for
two-octet commands. This project models the four together and proves what holds of them
over every input, every interleaving and every run.

| file | module | what it is |
|---|---|---|
| `h4_stream.dfy` | `H4Stream` | the H4 packet stream as values: octet-at-a-time receiver, independent whole-stream parser, serialiser, and their laws |
| `hci_uart.dfy` | `HciUartTransport` | the framer and the frame writer in place, over a pool of receive buffers with owners |
| `dtm_hw.dfy`, `dtm_interval.dfy`, `dtm_pdu.dfy` | `DtmHw`, `DtmInterval`, `DtmPdu` | power table and nearest-power search, packet spacing, building and checking a PDU |
| `dtm_state.dfy`, `dtm.dfy` | `DtmState`, `DtmEngine` | the engine as values, and the engine itself, updated in place and proved to have those effects |
| `dtm_runs.dfy` | `DtmRuns` | invariants, exact counting and link safety over every run of the engine |
| `hci_commands.dfy`, `hci_host.dfy`, `hci_world.dfy`, `dtm_hci.dfy` | `HciCommands`, `HciHost`, `HciWorld`, `DtmHciTransport` | what a command should do and answer; a host that writes commands and reads events as the standard lays them out; the whole HCI tester as one state machine; the handlers and main loop in place, proved to take its steps |
| `dtm_link.dfy` | `DtmLink` | two testers, one transmitting to the other: the packet error measurement |
| `dtm_cmd_core.dfy`, `dtm_session.dfy` | `DtmCmdCore`, `DtmSession` | the two-octet command decoder; whole sessions of command words and radio events |
| `twowire_uart.dfy`, `twowire_rtt.dfy`, `twowire_main.dfy` | `TwoWireUart`, `TwoWireRtt`, `TwoWireMain` | the two timed octet decoders, and the loop that runs the engine from either |

The main results: `H4Stream.ChunkIndependence`, `RoundTrip`, `Lossless` and `HaltsExactly`
with `HciUart.H4Read`, which refines them in place; `DtmRuns.Isolation`, `CountedExactly`,
`EventConservation` and `LinkSafeRun` over every run of the engine;
`HciWorld.CommandRefines`, `EndToEnd`, `BufferConservation`, `StopsExactly`,
`PoliteNeverStops`, `EveryReply` and `LeftoversIgnored` over every run of the HCI tester,
with `DtmHci`, which takes its steps, and `HciHost.CommandRoundTrip`, which ties its commands
to what a host writes;
`DtmLink.Measurement` over two of them; `DtmSession.EveryResponse`, `LengthRoundTrip` and
`ReportedCount` over every session of commands and packets; `TwoWireUart.Resynchronised` and
`TwoWireRtt.SplitIndependence` over every timed stream, joined to the sessions by
`TwoWireMain.RttLoop`, `UartLoop` and their end-to-end lemmas.

## What is fixed

- One build: no front-end module, no direction finding, coded PHYs present, an event channel
  that is a set of publishers and subscribers (nRF5340), errata handlers empty.
- `CONFIG_ASSERT=y` (`prj.conf:8`): a failed assertion stops the device. The engine has a
  `panicked` flag and the framer a `halted` one; once set, nothing happens any more.
- A transmit power is one octet, compared as a signed 8-bit value. Any table works that is
  strictly ascending, holds 0 dBm, does not hold 127 dBm and has neighbours less than 128 dB
  apart; the nRF5340 table is shown to be one.
- The pseudo-random sequences are constants of 255 octets with unknown contents.
- Environment steps (UART chunks, a packet finishing on the radio, a transmit buffer coming
  back) interleave with whole calls of the main loop. A packet finishing carries one CRC
  verdict and what it left in memory. Clock readings and polls are inputs.
- Both two-octet transports use the decoder of `src/transport/dtm_cmd_core.c`. The second
  decoder in `src/transport/dtm_uart_twowire.c:339-717` is never called: the header included
  there defines `DTM_CMD_CORE_PRESENT` (`src/transport/dtm_cmd_core.h:10`).

## Where the code is not what its documentation, or a reader, would expect

Each is proved of the model, which follows the code.

- `src/main.c:66-83` only sleeps: it never calls the `dtm_tr_get` and `dtm_tr_process` that
  `src/transport/dtm_transport.h:45-63` describes. The loops modelled are the ones that
  interface prescribes.
- BLE 1M packets get no overhead in the interval (`src/dtm.c:1554` tests the proprietary
  1 Mbit mode), so some intervals are one 625 us step shorter than section 4.1.6 of Vol 6
  Part F asks: exactly when the missing 80 bits cross a multiple of 625 (`Shortfall1M`).
- Reset does not return to idle (`README.rst:277` says it ends a carrier). It silences the
  radio but keeps the test state and the timer's link to the transmitter (`ResetKeepsTest`, `ResetKeepsTestExample`),
  so over the two-octet transports a transmitter test after it is refused until a Test End
  (`TransmitRefused`); HCI test commands end the running test first.
- A receiver test started over a transmitter test leaves that link on; nothing else does
  (`LinkSafeExactly`, `LinkSafeRun`, `LinkUnsafeExample`). HCI never starts one that way.
- `hci_reset` answers twice if the radio fails to initialise (`HciReset`); that never happens
  (`SetupNeverFails`), so it is the engine's invariant that gives one answer per command.
- An HCI transmitter test that is good but for a channel above 39 is never answered: the
  power request asserts first (`TxTestRuns`, `StopsExactly`, `Channel40Example`), and the invalid-parameter answer
  after it is unreachable.
- A packet that is no command is refused and its receive buffer never returned
  (`BufferConservation`, `AclExample`), so that as many of them as there are buffers make the
  next type octet stop the device (`PoolExhausted`).
- The parameters of an HCI command are read without regard to its announced length, so a
  short command takes what an earlier packet left in its buffer (`LeftoversDecide`). A command
  decodes the same whatever was left exactly when it holds every octet its opcode makes the
  device read (`OwnOctetsExactly`), though not all of them always matter (`HarmlessExample`);
  if all commands do, leftovers change nothing at all (`LeftoversIgnored`).
- ISO data lengths are taken from all 16 bits of the header field; that is the standard's
  14-bit length exactly when the two reserved bits are clear (`IsoLength`).
- A two-octet carrier command on channels 40 to 63 while idle, such as 0xA803, passes no
  channel check: it stops the device and is not answered (`SessionStopsExactly`,
  `Carrier40Example`).
- A power sent in six bits comes back whole only from -48 to 15 dBm (`SixBitsExactly`), so a
  two-octet session can select those of a table's powers and no others (`SelectablePowers`);
  README.rst takes this to hold of all valid powers, which is so for the nRF5340's.
- The two-octet Test End report carries the count modulo 2^15 (`ReportedCount`,
  `ReportLosesCount`).
- The two-octet decoder has no PHY command, so its sessions never leave LE 1M and packet
  type 3 is always the vendor command (`SessionStaysOn1M`).
- The longest packet time reported, 2120 us, is shorter than the longest coded packet: the
  nRF5340 is not among the devices `src/dtm_hw_config.h:31-35` lists (`MaxTimeExactly`).
- Over RTT a second octet is accepted however late if no empty poll came after the deadline
  (`LoneFate`, `LateSecondOctetAccepted`); over the UART it starts a new command.

## Model

| member | source | states |
|---|---|---|
| H4Stream.FeedAllConcat | src/transport/hci_uart.c:114-183 | receiving two chunks one after the other equals receiving them joined, from any state |
| H4Stream.FeedRun | src/transport/hci_uart.c:144-176 | inside a packet, any run of octets up to what is still owed is one append, delivered exactly when it completes the packet and stopped exactly when it outgrows the buffer |
| H4Stream.FeedIsParse | src/transport/hci_uart.c:54-183 | the octet-at-a-time receiver computes the independent whole-stream parser, for every stream, pool and buffer size |
| H4Stream.ChunkIndependence | src/transport/hci_uart.c:114-183 | every way of cutting a stream into reads delivers the same packets and ends in the same state, that of the whole-stream parser |
| H4Stream.FrameIsWire | src/transport/hci_uart.c:287-309 | what the frame writer puts behind its private pointer is the wire form of a well-formed packet |
| H4Stream.RoundTrip | src/transport/hci_uart.c:54-183 | every sequence of packets and stray octets between them, zero-length payloads included, is received exactly; the receiver stops if and only if there are more packets than buffers or one is longer than a buffer |
| H4Stream.ChunkedRoundTrip | src/transport/hci_uart.c:114-183 | the same round trip however the encoded stream is cut into reads |
| H4Stream.Lossless | src/transport/hci_uart.c:114-183 | conversely every received stream is, octet for octet, an encoding of the packets delivered and the octets skipped, followed by the packet in progress |
| H4Stream.UniqueDecoding | src/transport/hci_uart.c:54-94 | two well-formed encodings with the same octets carry the same packets |
| H4Stream.PoolAccount | src/transport/hci_uart.c:129-180 | buffers left, held by the framer and delivered add up to the same number before and after any stream |
| H4Stream.PoolIrrelevant | src/transport/hci_uart.c:131-135 | spare buffers change nothing but how many are left |
| H4Stream.PacketsOfStream | src/transport/hci_uart.c:114-183 | what is delivered depends on the stream alone, not on the pool |
| H4Stream.OutGrows | src/transport/hci_uart.c:153-171 | a read only adds behind what was delivered before |
| H4Stream.HaltsExactly | src/transport/hci_uart.c:96-135 | from any state, a receiver stops on a stream if and only if unlimited resources would let it begin more packets than it has buffers for, or receive one longer than its buffers, the one in progress included |
| H4Stream.StreamHaltsExactly | src/transport/hci_uart.c:96-135 | the same from the start, in terms of the whole-stream parse alone; while it runs it has delivered that parse's packets |
| H4Stream.IsoLength | src/transport/hci_uart.c:83-84 | the length read from an ISO header is the 14-bit length if and only if the two reserved bits are clear |
| H4Stream.HostWellFormed | src/transport/hci_uart.c:54-89 | what a host writes for a command, ACL or ISO packet (indicator, header fields with low octets first, payload) is a well-formed packet with those octets |
| H4Stream.StrayExactly | src/transport/hci_uart.c:91-94 | the octets skipped between packets are all but 1, 2 and 5 |
| H4Stream.HeaderLengths | src/transport/hci_uart.c:54-72 | the header length of every indicator, by its number |
| HciUartTransport.HciUart.BufRead | src/transport/hci_uart.c:96-112 | appends the smaller of asked and available octets to the current buffer and touches no other; stops the device exactly if they do not fit, leaving every buffer as it was |
| HciUartTransport.HciUart.ReadType | src/transport/hci_uart.c:124-142 | the type octet starts a packet, is skipped, or finds the pool empty and stops, as one octet of the stream receiver does |
| HciUartTransport.HciUart.Alloc | src/transport/hci_uart.c:129-138 | an empty buffer labelled with the type moves from the pool to the framer; every buffer keeps exactly one owner |
| HciUartTransport.HciUart.ReadHeader | src/transport/hci_uart.c:144-161 | copying header octets has the effect of feeding them one by one; the completed header fixes what is owed and a packet without payload is delivered at once |
| HciUartTransport.HciUart.ReadPayload | src/transport/hci_uart.c:163-176 | the same for payload octets; the last one delivers the packet |
| HciUartTransport.HciUart.H4Read | src/transport/hci_uart.c:114-183 | terminates; one read of the DMA buffer takes the framer, its pool and its queue exactly to the state the stream receiver reaches; the framing invariant (something still owed, buffered plus owed is what the header announces) and the ownership invariant hold after it; buffers with the consumer are untouched |
| HciUartTransport.HciUart.Deliver | src/transport/hci_uart.c:153-158 | the packet leaves the framer for the end of the queue, contents unchanged |
| HciUartTransport.HciUart.Take | src/transport/dtm_hci.c:737-743 | the consumer gets the oldest delivered packet and its buffer |
| HciUartTransport.HciUart.Unref | src/transport/dtm_hci.c:764-766 | the consumer's buffer returns to the pool and can be received into again |
| HciUartTransport.OwnersAddUp | src/transport/hci_uart.c:44-48 | pool, queue, framer and consumer share out all buffers |
| HciUartTransport.ListsComplete | src/transport/hci_uart.c:129-180 | a buffer is in an owner's list if and only if that owner has it: none is mislaid, none is in two places |
| HciUartTransport.HciTx.HciUartWrite | src/transport/hci_uart.c:287-309 | queues the frame if and only if a buffer is free and it fits behind the private pointer; otherwise reports no memory and changes nothing |
| HciUartTransport.HciTx.TxDone | src/transport/hci_uart.c:205-217 | the buffer of a sent or aborted frame is free again |
| DtmHw.RadioValidate | src/dtm_hw.c:151-193 | accepts exactly the four BLE modes with a power of the table |
| DtmHw.NearestBeats | src/dtm.c:749-774 | the nearest entry is closer than any other, or as close and lower, for every ascending table |
| DtmHw.NearestIsNearest | src/dtm.c:749-774 | it is the only entry with that property |
| DtmHw.NearestMonotone | src/dtm.c:749-774 | a higher request never gives a lower power |
| DtmHw.NearestFixes | src/dtm.c:749-774 | a request for a table entry gives that entry |
| DtmHw.NearestClamps | src/dtm.c:1899-1906 | requests at or beyond either end of the table give that end |
| DtmHw.NearestPowerGet | src/dtm.c:749-774 | strictly inside the table's range the search never trips its assertion, its 8-bit difference never wraps, and it returns the nearest entry |
| DtmHw.Nrf5340TableIsValid | src/dtm_hw.c:12-65 | the nRF5340 table is -40, -30, -20, -16, -12, -8 and -7 to 3 dBm, and meets what is asked of a table |
| DtmHw.ValidatesExactly | src/dtm_hw.c:151-193 | validation accepts the four BLE modes and the powers of the table |
| DtmInterval.PacketIntervalCalculate | src/dtm.c:1532-1635 | the interval is the integer ceiling form of the packet's computed length |
| DtmInterval.CeilingLoop | src/dtm.c:1615-1634 | the counting loop ends, without wrapping 32 bits, at that ceiling |
| DtmInterval.SpacingIsLeast | src/dtm.c:1615-1634 | the ceiling is the least multiple of 625 leaving 249 us after the packet |
| DtmInterval.AirTimeExactly | src/dtm.c:1532-1608 | the computed length is the standard's, added up from preamble, address, coding, PDU, CRC and termination, on every PHY but LE 1M, where 80 us are missing |
| DtmInterval.GapBounds | src/dtm.c:1615-1634 | between 249 and 873 us lie between the end of a packet and the start of the next |
| DtmInterval.FitsTimer | src/dtm.c:645-664 | for 0 to 255 octets on every PHY the interval is at most 17500 and fits the 16-bit timer |
| DtmInterval.Shortfall1M | src/dtm.c:1545-1560 | for LE 1M the interval is that of the standard's packet length if and only if the missing 80 bits cross no multiple of 625, and one step short otherwise |
| DtmInterval.Shortfall1MExample | src/dtm.c:1554-1556 | 38 octets on LE 1M are such a case |
| DtmPdu.CheckPdu | src/dtm.c:1012-1126 | accepts exactly an admitted type code with that type's pattern in every announced octet |
| DtmPdu.FillPdu | src/dtm.c:2005-2094 | writes type, and pattern of the announced length, and leaves every octet behind it as it was |
| DtmPdu.Agreement | src/dtm.c:1012-1126 | for every length, pattern type and earlier buffer contents the receiver accepts what the transmitter built if and only if the receiver admits the type on its PHY |
| DtmPdu.AdmittedExactly | src/dtm.c:1036-1051 | LE 1M and 2M admit PRBS9, 0x0F and 0x55; coded PHYs also PRBS15 and 0xFF; neither anything else |
| DtmPdu.OctetOfStandard | src/dtm.c:1052-1085 | each fill octet has, in transmission order, the bits the standard gives for its type code |
| DtmPdu.BuiltToStandard | src/dtm.c:2005-2094 | every octet of a built packet: type code, length, then the named pseudo-random sequence or the standard's bits |
| DtmPdu.AcceptsOnlyBuilt | src/dtm.c:1012-1126 | conversely what it accepts is the transmitter's packet of that type and length, up to unused header bits |
| DtmPdu.TailIgnored | src/dtm.c:1086-1125 | octets behind the announced payload never matter |
| DtmEngine.DtmInstance.constructor | src/dtm.c:404-415 | the static initial state, both buffers zero |
| DtmEngine.DtmInstance.Init | src/dtm.c:901-961 | the engine is idle after initialisation, or unusable if a peripheral failed; the radio itself never refuses |
| DtmEngine.DtmInstance.DoRadioReset | src/dtm.c:823-841 | disables the radio interrupt and forgets the count, nothing else |
| DtmEngine.DtmInstance.DoRadioInit | src/dtm.c:843-899 | resets the radio, or fails and changes nothing, exactly on an invalid power or mode |
| DtmEngine.DtmInstance.RadioPpiClear | src/dtm.c:1232-1253 | takes the channel down and removes the endpoints of the running test, and only those |
| DtmEngine.DtmInstance.RadioPpiConfigureTx | src/dtm.c:1255-1269 | connects the software trigger, the transmitter and the timer start |
| DtmEngine.DtmInstance.RadioTxPpiReconfigure | src/dtm.c:1271-1286 | exchanges trigger and timer start for the timer's compare event |
| DtmEngine.DtmInstance.DoTestDone | src/dtm.c:1288-1313 | link down, radio off, count forgotten, idle |
| DtmEngine.DtmInstance.DoRadioPrepare | src/dtm.c:1326-1415 | gives the radio the current buffer and enables its interrupt; stops the device exactly on a channel above 39 |
| DtmEngine.DtmInstance.SetupPrepare | src/dtm.c:1637-1640 | ends whatever test ran |
| DtmEngine.DtmInstance.SetupReset | src/dtm.c:1642-1660 | LE 1M with its preamble, length 0, radio reset; test state and link stay |
| DtmEngine.DtmInstance.SetupSetPhy | src/dtm.c:1662-1712 | mode and preamble together for each PHY, radio reset |
| DtmEngine.DtmInstance.SetupSetTransmitPower | src/dtm.c:1878-1921 | stores the lowest, the highest or the nearest table entry for every request; stops the device exactly on a channel above 39 |
| DtmEngine.DtmInstance.SetTxPower | src/dtm.c:1418-1446 | restores the two bits a six-bit power lost and stores it if and only if the radio accepts it |
| DtmEngine.DtmInstance.VendorSpecificPkt | src/dtm.c:1449-1530 | carrier, power change or refusal, with the whole new state |
| DtmEngine.DtmInstance.TestReceive | src/dtm.c:1923-1961 | refuses a bad channel without effect; else zeroes both buffers and both counters and listens, whatever ran before |
| DtmEngine.DtmInstance.TestTransmit | src/dtm.c:1963-2146 | refuses unless idle; else stores the parameters, resolves packet type 3 by PHY, and runs the vendor command or starts transmitting the built packet at the computed interval over the timer link |
| DtmEngine.DtmInstance.TestEnd | src/dtm.c:2148-2172 | returns the count as it stood before the radio reset clears it |
| DtmEngine.DtmInstance.RadioBufferSwap | src/dtm.c:2174-2184 | the radio gets the other buffer, the caller the filled one |
| DtmEngine.DtmInstance.OnRadioEndEvent | src/dtm.c:2186-2318 | counts good CRC with accepted content, counts bad CRC, counts nothing for good CRC with bad content; swaps the buffers and zeroes the checked one; both counters at their widths |
| DtmEngine.DtmInstance.RadioHandlerEnd | src/dtm.c:2320-2366 | a packet finishing has that effect exactly while a receiver test has the radio interrupt enabled |
| DtmRuns.StepKeepsInv | src/dtm.c:823-2318 | every call and every event keeps the power in the table, mode and preamble matching, the radio on the current of two clean buffers while listening, the start-up endpoints disconnected, the timer value in range |
| DtmRuns.EveryRunIsSound | src/dtm.c:901-2318 | so does every run from boot |
| DtmRuns.SetupNeverFails | src/dtm.c:843-899 | after any run, radio initialisation, reset and every PHY choice succeed |
| DtmRuns.PreambleExactly | src/dtm.c:1662-1712 | 8 bits on 1M, 16 on 2M, the long-range preamble on coded PHYs |
| DtmRuns.ResolveExactly | src/dtm.c:1971-1978 | packet type 3 is the vendor command on uncoded PHYs and the 0xFF pattern on coded ones |
| DtmRuns.PowerRequested | src/dtm.c:1878-1906 | a power request on a channel up to 39 stores the lowest entry for a minimum, the highest for a maximum, and the nearest for a value, and changes nothing else |
| DtmRuns.ListensWhereAsked | src/dtm.c:1923-1961 | after every run a listening receiver is on the channel of the latest receiver start |
| DtmRuns.LinkExactly | src/dtm.c:1232-1313 | the event channel holds exactly timer and transmitter during a transmitter test and nothing otherwise, and one step breaks that if and only if it starts a receiver test over a transmitter test |
| DtmRuns.PanicExactly | src/dtm.c:777-785 | which single call stops the device, and when: a power request, or an idle carrier command, on a channel above 39 |
| DtmRuns.RunPanicsExactly | src/dtm.c:777-785 | a run stops the device if and only if the reference machine meets such a call |
| DtmRuns.Isolation | src/dtm.c:2174-2318 | at every packet of every run the checked buffer holds that packet followed by zeros, and the buffer given to the radio is the other one and all zero |
| DtmRuns.StepRefines | src/dtm.c:1637-2318 | each step of the engine is a step of a small machine with only the test, the PHY, whether it listens, and unbounded counts |
| DtmRuns.RunRefines | src/dtm.c:1637-2318 | so is each run |
| DtmRuns.ExactCounting | src/dtm.c:2148-2318 | after every run from boot the packet and CRC counters are that machine's counts modulo 2^16 and 2^32 |
| DtmRuns.SilentUntilReceiver | src/dtm.c:823-841 | after a Test End, reset, preparation or PHY change the count stays 0 until a receiver test starts, whatever is called and heard in between |
| DtmRuns.TallyIsTotal | src/dtm.c:2235-2310 | every finished packet of any run of steps is accepted, a CRC error or rejected, once |
| DtmRuns.EventConservation | src/dtm.c:1937-1938 | since a receiver test began after any run, and with no radio reset or new start since, whatever other calls were made or refused in between, the counters are the accepted packets and CRC errors at their widths, and with the rejected ones they make up all packets |
| DtmRuns.CountedExactly | src/dtm.c:823-2318 | after every run the count, modulo 2^16, can be read off its steps: the packets accepted since the last radio reset or receiver start, on the PHY then in force, if that was a start; else 0 |
| DtmRuns.LinkSafeExactly | src/dtm.c:1923-1961 | the timer drives the transmitter exactly during a transmitter test, and one step breaks that if and only if it starts a receiver test during a transmitter test |
| DtmRuns.LinkSafeRun | src/dtm.c:1232-1313 | at every point of a run the link is right if and only if no step of the run does so |
| DtmRuns.LinkUnsafeExample | src/dtm.c:1923-1961 | such a run, and that Test End repairs it |
| DtmRuns.ResetKeepsTest | src/dtm.c:1642-1660 | reset ends neither the test state nor the link, but stops listening |
| DtmRuns.ResetKeepsTestExample | src/dtm.c:1642-1660 | a transmitter test, then Reset: the timer still drives the transmitter and a new test is refused as busy |
| HciCommands.FrameExactly | src/transport/dtm_hci.c:221-291 | an answer's frame octet by octet: event indicator, Command Complete, length, one more command allowed, opcode with its low octet first, return parameters |
| HciCommands.RxStatusExactly | src/transport/dtm_hci.c:494-538 | which faults each status number of a receiver test stands for |
| HciCommands.TxStatusExactly | src/transport/dtm_hci.c:613-650 | which faults each status number of a transmitter test stands for |
| HciCommands.PhyNumbersExactly | src/transport/dtm_hci.c:123-141 | PHY numbers 1 to 4 are 1M, 2M, and coded with 8 and with 2 symbols a bit |
| HciCommands.FeatureBits | src/transport/dtm_hci.c:412-446 | the features answered have bits 5, 8 and 11 set and no other |
| HciCommands.ReturnsExactly | src/transport/dtm_hci.c:221-273 | the return parameters of the other commands, the count with its low octet first |
| HciHost.CommandRoundTrip | src/transport/dtm_hci.c:448-711 | every command a host writes, in each of seven test versions and with every field value, is decoded as meant, whatever lies behind it in its buffer |
| HciHost.WrittenIsComplete | src/transport/dtm_hci.c:448-606 | such a command holds every octet the device reads |
| HciHost.WrittenOnWire | src/transport/hci_uart.c:54-94 | and is a command packet on the wire |
| HciHost.EventRoundTrip | src/transport/dtm_hci.c:221-291 | a host that takes only Command Complete events of the right length, with one command allowed, reads back exactly the opcode and return parameters |
| HciCommands.RxAcceptedExactly | src/transport/dtm_hci.c:143-197 | modulation and tone extension requests as a caller sees them: a receiver test succeeds if and only if it asks for a known PHY, standard modulation, no tone extension and a channel up to 39 |
| HciCommands.TxAcceptedExactly | src/transport/dtm_hci.c:541-650 | a transmitter test has status success if and only if it asks for a known PHY and pattern, no tone extension and a power in range |
| HciCommands.OwnOctetsExactly | src/transport/dtm_hci.c:448-606 | a command decodes the same over everything its buffer may have held before if and only if it holds every octet its opcode makes the device read |
| HciCommands.HarmlessExample | src/transport/dtm_hci.c:448-539 | a command that lacks octets it is decoded from and yet makes the same calls and gives the same answer over every leftover |
| HciCommands.LeftoversDecide | src/transport/dtm_hci.c:541-560 | a transmitter test without parameters stops the device or is answered depending on an earlier packet |
| DtmHciTransport.CommandComplete | src/transport/dtm_hci.c:221-291 | appends exactly one such event if a transmit buffer is free |
| DtmHciTransport.HciToDtmPayload | src/transport/dtm_hci.c:77-121 | maps the eight HCI payload codes to the packet types with the same code on air and refuses the rest |
| DtmHciTransport.PhySet | src/transport/dtm_hci.c:123-141 | the four PHY codes select their PHY, the rest change nothing |
| DtmHciTransport.TxPowerSet | src/transport/dtm_hci.c:199-219 | the two extreme codes and -127 to 20 dBm reach the engine, the rest change nothing |
| DtmHciTransport.HciReset | src/transport/dtm_hci.c:395-405 | answers once, or twice exactly if the radio fails to initialise |
| DtmHciTransport.HciRxTest | src/transport/dtm_hci.c:448-539 | from three command versions: one answer with the status the parameters alone determine, and the engine calls they determine |
| DtmHciTransport.HciTxTest | src/transport/dtm_hci.c:541-650 | the same for four versions; without an answer exactly if the device stopped |
| DtmHciTransport.HciTestEnd | src/transport/dtm_hci.c:652-666 | reports the count and leaves the engine idle |
| DtmHciTransport.HciCmd | src/transport/dtm_hci.c:668-711 | every command packet has the effect and the answer of the command it decodes to; unknown opcodes are answered and change nothing |
| DtmHciTransport.DtmHci.OnUartRx | src/transport/hci_uart.c:219-222 | a UART chunk is a step of the tester's state machine |
| DtmHciTransport.DtmHci.DtmTrGet | src/transport/dtm_hci.c:737-743 | so is taking the oldest packet |
| DtmHciTransport.DtmHci.DtmTrProcess | src/transport/dtm_hci.c:745-772 | so is processing it: commands release their buffer, other packets do not |
| DtmHciTransport.DtmHci.OnTxDone | src/transport/hci_uart.c:205-217 | so is a transmit buffer coming back |
| DtmHciTransport.DtmHci.OnRadioEnd | src/dtm.c:2320-2366 | so is a packet finishing |
| HciWorld.RxTestRuns | src/transport/dtm_hci.c:448-539 | a receiver test command leaves the engine listening on its channel if its status is success and idle otherwise, on the PHY it names if there is one |
| HciWorld.TxTestRuns | src/transport/dtm_hci.c:541-650 | a transmitter test command leaves the engine transmitting if its status is success, idle otherwise, and stops the device if and only if its channel is its only fault |
| HciWorld.CommandRefines | src/transport/dtm_hci.c:395-711 | every command refines a three-state machine Idle/TX/RX in which reset keeps the state; the carrier state and a busy refusal never occur, every engine invariant and link safety are kept |
| HciWorld.HandledOnce | src/transport/dtm_hci.c:668-711 | a command is answered once, with its own opcode, unless it is one of the fatal ones |
| HciWorld.ProcessCommand | src/transport/dtm_hci.c:745-772 | a command anywhere in the stream is answered once with its own opcode, unless what its buffer holds, its own octets and those left behind them, is a fatal command |
| HciWorld.EndToEnd | src/transport/hci_uart.c:114-183 | for every interleaving of chunks, main-loop steps, transmit completions and radio events: the packets delivered are those of the octet stream, and with a transmit buffer free each time the log holds one Command Complete per processed command, same opcode, in stream order |
| HciWorld.BufferConservation | src/transport/dtm_hci.c:763-771 | at every point pool, framer, queue, processing and lost buffers add up to the pool's size, and those lost are one per processed packet that was no command |
| HciWorld.EngineStaysSound | src/transport/dtm_hci.c:395-711 | at every point the engine is in one of three states with its link on exactly in the transmitter test and every engine invariant |
| HciWorld.StopsExactly | src/transport/dtm_hci.c:745-772 | the device stops on an event if and only if the octets so far begin more packets than the pool has had buffers for or hold one too long for a buffer, as the whole-stream parse tells, or it processes a fatal command |
| HciWorld.PoolExhausted | src/transport/dtm_hci.c:768-771 | in any interleaving, once as many non-commands were processed as there are buffers, a read stops the device if and only if it holds a type octet |
| HciWorld.PoliteNeverStops | src/transport/dtm_hci.c:745-772 | a host whose packets fit a buffer, whose commands are not fatal, and that has never begun more packets than the answers it has seen and the buffers there are, never stops the device, whatever the interleaving |
| HciWorld.Channel40Example | src/transport/dtm_hci.c:637-643 | a transmitter test on channel 40 stops the device and is not answered |
| HciWorld.AclExample | src/transport/dtm_hci.c:768-771 | an empty ACL packet is not answered and costs a buffer |
| HciWorld.LeftoversIgnored | src/transport/dtm_hci.c:668-711 | two runs that differ only in what buffers held behind packets reach the same engine, buffers and transmit log, octet for octet, if every command processed holds the octets its opcode needs |
| HciWorld.EngineHistory | src/transport/dtm_hci.c:745-772 | the engine's state is that of running the calls of the processed commands and the radio events, in order |
| HciWorld.EveryReply | src/transport/dtm_hci.c:221-772 | the whole transmit log, octet for octet, of every run, stopped or not: one event per command that is processed with a transmit buffer free and is not fatal, with the parameters its buffer's octets determine (its own alone, by `LeftoversIgnored`, if it is long enough), each Test End carrying the count read off the run so far, and nothing else |
| HciWorld.TestEndCount | src/transport/dtm_hci.c:652-666 | so a Test End answer at any point carries the exact count of that history, modulo 2^16 |
| HciWorld.TransmitConservation | src/transport/hci_uart.c:205-217 | every answer takes one transmit buffer and every completion returns one, over every run whose completions are for buffers taken |
| DtmLink.SendsWhatWasAsked | src/dtm.c:1963-2146 | a started transmitter test sends the requested type, length and pattern on the requested channel at the interval of that length and PHY, whatever the buffers held |
| DtmLink.HeardRight | src/dtm.c:1012-1126 | a listening receiver accepts such a packet if and only if its PHY admits the type |
| DtmLink.TransmitterStarted | src/transport/dtm_hci.c:541-650 | the same from the HCI command, after any history, with the PHY of its number, the power of its octet (0x7E lowest, 0x7F highest, else nearest) and exactly the timer link |
| DtmLink.ReceiverStarted | src/transport/dtm_hci.c:448-539 | an HCI receiver test listens on its channel and PHY and counts from zero, after any history |
| DtmLink.CountsGood | src/dtm.c:2186-2318 | of any packets, corrupted ones among them, the count is the number with good CRC, or 0 for a type that is not admitted |
| DtmLink.Measurement | src/transport/dtm_hci.c:448-666 | one device told to transmit and one to receive: after any number of packets on either radio the receiver's Test End carries the number with good CRC, modulo 2^16, for payload types up to 2 on 1M and 2M and up to 4 on coded PHYs, else 0; the transmitter's carries 0 |
| DtmLink.WordsSend | src/transport/dtm_cmd_core.c:187-254 | after any session that left the device idle, the words for a length and a transmitter test put exactly that packet on its channel |
| DtmLink.WordsListen | src/transport/dtm_cmd_core.c:233-237 | after any session the receiver word listens on its channel, on LE 1M, from zero |
| DtmLink.WordsReceive | src/transport/dtm_cmd_core.c:219-231 | and Test End reports the packets with good CRC, modulo 2^15, for types up to 2, else 0 |
| DtmCmdCore.UpperShift | src/transport/dtm_cmd_core.c:187-191 | the shift and mask of an octet keep bits 3 and 2 of the parameter as bits 7 and 6 of the length |
| DtmCmdCore.CmdCore.DtmCmdPut | src/transport/dtm_cmd_core.c:155-177 | every 16-bit word has the engine calls, the response and the kept length bits of its bit fields |
| DtmCmdCore.CmdCore.OnTestSetupCmd | src/transport/dtm_cmd_core.c:193-217 | reset clears the kept bits and resets the engine; setting them, and reading features and maxima, leaves the engine alone |
| DtmCmdCore.CmdCore.OnTestTxCmd | src/transport/dtm_cmd_core.c:239-254 | transmits with the assembled length and answers with the engine's verdict |
| DtmCmdCore.CmdCore.OnTestEndCmd | src/transport/dtm_cmd_core.c:219-231 | ends the test and reports, or refuses without effect |
| DtmSession.UpperIsLatest | src/transport/dtm_cmd_core.c:180-191 | after any session the kept bits are those of its latest reset or upper-bits command |
| DtmCmdCore.TxWordDecodes | src/transport/dtm_cmd_core.c:155-162 | channel, length and type of every transmitter test word are read back exactly |
| DtmCmdCore.EveryWord | src/transport/dtm_cmd_core.c:155-254 | the engine calls and kept bits of each of the 65536 words, by its number |
| DtmCmdCore.MaxTimeExactly | src/dtm_hw_config.h:26-38 | the longest packet time reported covers the longest packet if and only if the PHY is uncoded |
| DtmSession.LengthRoundTrip | src/transport/dtm_cmd_core.c:187-254 | after any session every length 0 to 255 reaches the engine whole through its two commands, whatever commands and packets that leave the upper bits alone come between them |
| DtmSession.SessionIsRun | src/transport/dtm_cmd_core.c:155-177 | a session of command words and finishing packets acts on the engine as the run of its steps, so the engine's laws hold of sessions |
| DtmSession.SessionStaysOn1M | src/transport/dtm_cmd_core.c:193-217 | no session leaves LE 1M, and packet type 3 is always the vendor command |
| DtmSession.TransmitRefused | src/transport/dtm_cmd_core.c:239-254 | a transmitter test succeeds if and only if the engine is idle and the channel good, and has no effect unless idle |
| DtmSession.ReportedCount | src/transport/dtm_cmd_core.c:219-231 | after any session, packets included, the report is modulo 2^15 the number accepted since the last radio reset or receiver start, and equals the engine's count if and only if that is below 2^15 |
| DtmSession.ReportLosesCount | src/transport/dtm_cmd_core.c:219-231 | with 32768 to 65535 packets received and counted, Test End reports 32768 too few |
| DtmSession.ResponseRefines | src/transport/dtm_cmd_core.c:155-254 | one response is that of the reference machine, which has no radio, buffers or powers |
| DtmSession.EveryResponseWord | src/transport/dtm_cmd_core.c:102-254 | the reference machine's response to each of the 65536 words, by its number |
| DtmSession.EveryResponse | src/transport/dtm_cmd_core.c:155-254 | so is every response of every session, in order, none missing and none added, up to the word that stops the device, which is not answered |
| DtmSession.SessionStopsExactly | src/transport/dtm_cmd_core.c:239-254 | a session stops the device if and only if the reference machine meets a carrier command on a channel above 39 while idle |
| DtmSession.Carrier40Example | src/transport/dtm_cmd_core.c:239-254 | the word 0xA803 from boot stops the device unanswered |
| DtmSession.SixBitsExactly | src/dtm.c:1418-1432 | the six low bits of a power give it back if and only if it is between -48 and 15 dBm |
| DtmSession.SelectablePowers | src/dtm.c:1418-1446 | an idle session can select a power of the table if and only if it is in that range |
| TwoWireUart.Receiver.DtmTrGet | src/transport/dtm_uart_twowire.c:743-796 | returns the next command of the stream as the stream decoder reads it, and leaves the stream where the one after it is read |
| TwoWireUart.CallTakes | src/transport/dtm_uart_twowire.c:743-796 | a completed call takes its word off the front of the words to come, and its turns' radio events and the word off the front of all that the polls bring |
| TwoWireUart.OnePoll | src/transport/dtm_uart_twowire.c:754-795 | what one poll changes about the commands to come |
| TwoWireUart.EveryOctetOnce | src/transport/dtm_uart_twowire.c:743-796 | every octet is used in one command, dropped or pending, in order |
| TwoWireUart.JudgedRight | src/transport/dtm_uart_twowire.c:780-790 | the two octets of a command are at most 5 ms apart, and an octet is dropped only for one more than 5 ms later |
| TwoWireUart.ReadConcat | src/transport/dtm_uart_twowire.c:743-796 | a prefix acts on what follows only through its pending octet |
| TwoWireUart.Resynchronised | src/transport/dtm_uart_twowire.c:780-790 | after any garbage a gap over 5 ms makes the rest decode as from a fresh start |
| TwoWireUart.Misaligned | src/transport/dtm_uart_twowire.c:780-795 | without such a gap a pending octet pairs with the first of what follows |
| TwoWireUart.CleanCommands | src/transport/dtm_uart_twowire.c:743-796 | commands sent with inner gaps of at most 5 ms decode exactly, to their two-octet numbers with the upper octet first, and nothing is left over |
| TwoWireUart.IncomingWords | src/transport/dtm_uart_twowire.c:743-796 | the words the polls bring to repeated calls are those the stream decoder reads, in order |
| TwoWireUart.IncomingRadio | src/transport/dtm_uart_twowire.c:743-796 | no packet that finishes while the loop polls is lost or reordered |
| TwoWireRtt.Receiver.DtmTrGet | src/transport/dtm_rtt_twowire.c:89-140 | the polling loop returns the word, and leaves the ring and the next poll, of the call that the turns define |
| TwoWireRtt.RunAdds | src/transport/dtm_rtt_twowire.c:89-140 | a later call carries on where an earlier one stopped |
| TwoWireRtt.CallTakes | src/transport/dtm_rtt_twowire.c:89-140 | a completed call takes off the front of all that the polls bring exactly the radio events of its turns and its one word, and leaves the rest to the next call |
| TwoWireRtt.CallIsRun | src/transport/dtm_rtt_twowire.c:89-140 | a call's turns are those of a run of the stream decoder: octets dropped, then, with the last turn, the command's two, and none left behind |
| TwoWireRtt.RunToIsRun | src/transport/dtm_rtt_twowire.c:89-140 | turns counted by poll number are the run over those polls |
| TwoWireRtt.IncomingWords | src/transport/dtm_rtt_twowire.c:89-140 | the words the polls bring to repeated calls are the commands of one run over all polls, in order |
| TwoWireRtt.IncomingRadio | src/transport/dtm_rtt_twowire.c:89-140 | no packet that finishes while the loop polls is lost or reordered |
| TwoWireRtt.PairWords | src/transport/dtm_rtt_twowire.c:101-107 | the words of consecutive pairs are their numbers, upper octet first |
| TwoWireRtt.LoneFateFromRead | src/transport/dtm_rtt_twowire.c:108-139 | the fate of a first octet, judged from the clock of the poll that read it |
| TwoWireRtt.NothingLost | src/transport/dtm_rtt_twowire.c:89-140 | whatever the reads, octets used, dropped, waiting and still in the ring spell out the stream |
| TwoWireRtt.SplitIndependence | src/transport/dtm_rtt_twowire.c:99-139 | while no timeout fires the commands of a run are the first consecutive pairs of the flat stream, so two-octet and single reads agree; the remaining pairs are those of the octets not yet used |
| TwoWireRtt.TimeoutExactly | src/transport/dtm_rtt_twowire.c:118-131 | an octet is dropped if and only if a poll more than 5 ms after it finds nothing, and then it alone |
| TwoWireRtt.LoneFate | src/transport/dtm_rtt_twowire.c:116-139 | over any run of empty polls and then one with octets, a lone first octet joins the next one if and only if no empty poll read the clock more than 5 ms after it; otherwise it is dropped and decoding starts afresh |
| TwoWireRtt.LateSecondOctetAccepted | src/transport/dtm_rtt_twowire.c:118-139 | a late second octet is accepted if no poll came up empty after the deadline |
| TwoWireMain.Tester.DtmTrProcess | src/transport/dtm_rtt_twowire.c:142-156 | a command advances the session and its response goes out, upper octet first; none if the device stopped |
| TwoWireMain.OnWireReads | src/transport/dtm_rtt_twowire.c:142-156 | a host that reads two octets at a time, upper one first, gets the responses back |
| TwoWireMain.RttLoop | src/transport/dtm_transport.h:45-63 | repeated `dtm_tr_get` and `dtm_tr_process` over RTT make the session of all that the polls bring, radio events and words in their order, and send its responses |
| TwoWireMain.UartLoop | src/transport/dtm_transport.h:45-63 | the same over the UART |
| TwoWireMain.RttEndToEnd | src/transport/dtm_rtt_twowire.c:89-156 | polls and radio events in, octets out, for every sequence of polls: the words that come in are, while no octet timed out, the first two-octet numbers of the flat stream, every packet finishing meanwhile reaches the engine, and a host reads back the reference machine's responses, up to a word that stops the device |
| TwoWireMain.UartEndToEnd | src/transport/dtm_uart_twowire.c:743-816 | for every sequence of polls the words that come in are those of the stream decoder, every packet finishing meanwhile reaches the engine, and a host reads back the reference machine's responses, up to a word that stops the device |

## Left out

- `src/main.c`, `src/dtm_shell_commands.c`: user interface; its command words put the channel in other bits than the decoder reads.
- Direction finding, tone extension and antenna switching, IQ reports: they depend on sampled hardware values; requests for them are modelled as refused.
- Front-end module branches, errata register writes, the anomaly timer, and radio register settings other than channel, buffer pointer and interrupt.
- `hci_uart_remote.c`, `remote_hci`, the transmit thread, DMA buffers, UART and RTT drivers, logging, packet rate reports: I/O and remote-call plumbing.
- The contents of the pseudo-random tables.
- The on-air length of a packet beyond what the code computes, except for LE 1M (`Shortfall1M`).
- DtmEngine.DtmInstance.SetupSetTransmitPower: states the power stored, not the value returned for a direct request or the minimum and maximum flags, which only the callers left out read.
- DtmEngine.DtmInstance.RadioPpiClear: an event endpoint is a member of a set that is cleared by itself, as on the nRF5340; the older interconnect with one event and one fork per channel is not modelled.
- DtmEngine.DtmInstance.RadioHandlerEnd: an END event is one atomic step between calls; an interrupt in the middle of a call is not modelled.
- HciUartTransport.HciUart.H4Read: what the C code would do after a failed assertion in a build that compiles assertions out, and the branch for a missing delivery callback, are not modelled; buffers are at least 266 octets (the default is 1024).
- HciUartTransport.HciTx.HciUartWrite: the private buffer pointer in front of a frame counts towards its size but is not among the octets.
- TwoWireUart.Receiver.DtmTrGet: polls form a finite list, so a call may also end waiting. A packet finishing on the radio is ordered before or after a whole turn.
- TwoWireRtt.Receiver.DtmTrGet: the same.
- The second two-octet decoder of `src/transport/dtm_uart_twowire.c`, which is never called, and its opposite status codes.
