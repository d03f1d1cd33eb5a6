# A verified model of the radio's streams, buffers and packets

This project models the parts of the Zynq software radio that move data: the Verilog stream
and AXI cores, and the C programs that drain, repack and send what they produce. It states
what each is for and proves it, for every input, every run of clock cycles and every
interleaving of threads.

A Verilog core appears three times. A datatype of its registers with a `Next` function is the
synchronous machine; a class with the same registers as fields and a `Clock` method updates
them in place, as the `always` blocks do, and is proved equal to it; and a state that adds what
went in and out since the last reset carries the theorems, which are about every run (`Runs`).
A C program appears as classes and methods over the same buffers and pointers, proved against
functions whose properties are then proved: the ring of a client against a ledger of whole
chunks, the bitstream writer against a one-shot transform, the packet builders against parsers
that know nothing of them. Shared state between threads is a machine whose steps interleave in
any order.

| files | subject |
|---|---|
| `Runs`, `Arith`, `Bytes`, `Lists` | runs of a machine, division facts, bytes and memcpy, sequences of sequences |
| `Handshake` | input, output and inout buffers, the vendor FIFO |
| `BramPipe`, `BramReader`, `Keyer`, `Histogram` | cores around a block RAM |
| `RamRegion`, `RamReader`, `RamWriter` | 16-beat bursts to and from memory |
| `AxiMap`, `HubRams`, `HubWrite`, `HubRead`, `HubPorts`, `AxiHub`, `HubPace` | the AXI hub, what its RAMs hold, how fast it is |
| `HfdlLedger`, `HfdlDemux`, `HfdlClient`, `RoundRobin` | the HFDL server |
| `Si5351Calc`, `Si5351Regs`, `Si5351Frequency` | the clock synthesiser |
| `Xdevcfg` | the bitstream writer |
| `Ep6Framing`, `Ep6Handler`, `HpsdrThreads` | HPSDR packets, start and stop |
| `TransceiverSlots` | the socket table of the wide transceiver |
| `Ipfix`, `PskMessages`, `PskReporter` | an IPFIX collector, and the PSKReporter upload |

## Where the code and its comments part

- `si5351_Calc` promises less than 6 Hz (patches/red_pitaya_fsbl_hooks.c:339-340). Its low branch
  assumes a PLL at 900 MHz, 36 times 25 MHz; with the default reference of 24.576 MHz the promise
  holds if and only if the scaled frequency is at least 81 MHz (`DefaultReferenceClaim`). With
  25 MHz it first fails at 78000007 Hz (`SixHertzFrontier`, and `OutputFrontier` for the frequency
  that comes out), by less than one hertz; between there and 81 MHz `NominalReferenceExactly` says
  for each frequency whether it does, from the remainders of two divisions.
- `axis_ram_reader` delivers the words of a burst that was cut by too short a reset as the first
  ones after it (`NeverOverflows`, `StaleWordIsDelivered`).
- `axis_ram_writer` loses the address of every burst that starts while two earlier addresses are
  still waiting for AW, and of no other (`AddressPerBurst`); `StalledAddressMerges` shows it happen.
- The hub acknowledges every beat to an `m_axis` port, whether or not the port's buffer has room.
  What is written is delivered without loss if and only if every beat comes while fewer than two
  earlier words are untaken (`StreamWritesLossless`); a burst of three beats to a consumer that
  waits loses its third word (`ThirdWordIsLost`).
- CU8 samples with the lowest high byte wrap to 255 (`Cu8IsShift`).
- The bitstream header is kept, and the words stay unswapped, when the first write with any data
  in it does not reach a byte past the sync word (`UnreachedHeaderStays`); a file is written as
  intended exactly when it does, or has no header and needs no swap (`FileIsWrittenOneShot`).
- `pthread_create` returns positive error numbers, but both servers look for negative ones. One
  failure (`HpsdrThreads.FailureHappens`) leaves the HPSDR server waiting forever at the next
  command (`StuckAfterFailedCreate`), and another (`TransceiverSlots.FailureHappens`) takes a role
  of the wide transceiver out of service (`LostForGood`).
- The PSKReporter datagrams fit their 512-byte buffer for every file if and only if call sign,
  locator and antenna have at most 29 characters together (`StationsThatFit`); the program allows
  16, 6 and 64.
- The options template of the upload has a scope field count of zero, which section 3.4.2.2 of
  RFC 7011 forbids: a collector that is strict about it gets every spot, but no receiver
  (`ReceiverTemplateReads`, `CollectorReads`).
- With seven or eight receivers, which the HPSDR command accepts, what is sent as the channels above
  six are the first ones of the next sample (`SamplesKeepApart`, `NextSampleShows`).
- Rings of exactly two chunks work for CS16 but not for CU8 clients (`RingsThatKeepRoom`).

## Model

| member | source | states |
|---|---|---|
| `Handshake.InputBuffer.Clock` | modules/input_buffer.v:21-46 | one rising edge of the skid buffer in place: the registers become those of `InputRegs.Next`, reset included |
| `Handshake.InputIsQueue` | modules/input_buffer.v:24-46 | one clock is one `Advance` of a queue of at most one item: offers exactly what is held or arriving, oldest first, and the data path is a wire only while `ready` is set |
| `Handshake.OutputBuffer.Clock` | modules/output_buffer.v:21-46 | one rising edge of the register slice in place |
| `Handshake.OutputIsQueue` | modules/output_buffer.v:24-46 | one clock is one `Advance` of a queue of at most one item, and a stalled slice does not change at all |
| `Handshake.OutputConserves` | modules/output_buffer.v:24-46 | entered = left + held is kept by every clock |
| `Handshake.InoutBuffer.Clock` | modules/inout_buffer.v:21-38 | one rising edge of both stages, each seeing the other's wires from before the edge |
| `Handshake.InoutIsQueue` | modules/inout_buffer.v:21-38 | the registers refine a queue of at most two items that is ready exactly below two and valid exactly above none |
| `Handshake.InoutIsFifo` | modules/inout_buffer.v:21-38 | for every run of inputs and resets: accepted = delivered ++ held, at most two held |
| `Handshake.StalledOutputIsStable` | modules/inout_buffer.v:21-38 | however long the output is stalled and whatever the producer does meanwhile, it stays valid with the same data |
| `Handshake.InoutThroughput` | modules/inout_buffer.v:21-38 | both sides always willing: n cycles accept n items and deliver the first n - 1 |
| `Handshake.Fifo.Clock` | cores/axis_ram_writer.v:68-86 | the vendor FIFO as a bounded queue: writes to a full one and reads of an empty one do nothing |
| `BramPipe.ReadPipe.Clock` | cores/axis_bram_reader.v:116-149 | one rising edge of the flag stage, the RAM's output register and the two stages behind them |
| `BramPipe.PipeIsQueue` | cores/axis_bram_reader.v:116-142 | the three stages around the one-cycle RAM latency are one queue of at most three (flag, word) pairs; a flag is never paired with another cycle's word |
| `BramPipe.FlowConserves` | cores/axis_bram_reader.v:116-142 | issued = delivered ++ held, under any back-pressure and reset |
| `BramReader.AxisBramReader.Comb` | cores/axis_bram_reader.v:62-114 | the two always blocks, for both values of CONTINUOUS |
| `BramReader.AxisBramReader.Clock` | cores/axis_bram_reader.v:46-149 | one rising edge of the whole core in place |
| `BramReader.StepIsNext` | cores/axis_bram_reader.v:46-142 | the machine the runs are about is the one `Clock` is proved equal to |
| `BramReader.DeliversThePromisedStream` | cores/axis_bram_reader.v:62-149 | for every memory, constant cfg, mode and pattern of tready and resets: the words delivered are a prefix of mem[0..cfg], repeated forever when continuous and once when not, with tlast on exactly mem[cfg]; nothing at all when cfg is 0 |
| `BramReader.DeliversEverything` | cores/axis_bram_reader.v:62-149 | with a consumer that is always ready, n cycles deliver exactly n - 4 words of that stream, up to all cfg + 1 of a single pass |
| `Keyer.AxisKeyer.Comb` | cores/axis_keyer.v:60-88 | the always block that steps address and direction |
| `Keyer.AxisKeyer.Clock` | cores/axis_keyer.v:43-109 | one rising edge of the whole core in place |
| `Keyer.DeliversRamps` | cores/axis_keyer.v:60-109 | for every key pattern, back-pressure and constant cfg > 0 the words delivered are the envelope read along addresses that between 0 and cfg go on by one in the direction they came, never reversing or pausing strictly inside |
| `Keyer.PressedKeyRampsUp` | cores/axis_keyer.v:60-109 | a key pressed at address 0 at any time and held: two reads of address 0, then one address further a cycle up to cfg, and it stays there |
| `Keyer.HeldKeyRampsUp` | cores/axis_keyer.v:60-109 | the same for a key held from reset, with the cycles until it is seen |
| `Keyer.ReleasedKeyRampsDown` | cores/axis_keyer.v:60-109 | a key released at the top: the exact addresses read down to 0 |
| `Histogram.AxisHistogram.ClockControl` | cores/axis_histogram.v:37-94 | the three-state machine's registers after one edge |
| `Histogram.AxisHistogram.Clock` | cores/axis_histogram.v:37-103 | one rising edge of the machine and its block RAM, addressed by the sample or, while it is written, by the address register |
| `Histogram.BinsHoldTheirTallies` | cores/axis_histogram.v:63-103 | after every run, whatever the upstream presents while the core is busy and with resets at any time: in every state with tready bin b holds min(initial + the number of samples taken that are b modulo the depth, 2^width - 1); a sample is taken unless the core is reset in the next cycle |
| `Histogram.ThreeClocksASample` | cores/axis_histogram.v:63-103 | an offered sample is counted, once, after three clocks, and the core is ready again |
| `RamRegion.BlocksSucc` | cores/axis_ram_reader.v:90-113 | the address register goes through blocks 0 to cfg and starts over |
| `RamRegion.BlocksWalk` | cores/axis_ram_writer.v:125-131 | so the first address is min_addr modulo the address space, and each next one is a burst further, or min_addr again after cfg + 1 of them |
| `RamRegion.PassTiles` | cores/axis_ram_reader.v:103-110 | if min_addr + (cfg + 1) * burst is within the address space, any addresses that go like that tile the region: each of its bytes is in just one burst of every pass, and no burst leaves it |
| `RamReader.AxisRamReader.Clock` | cores/axis_ram_reader.v:44-123 | one rising edge of flags, address register, AR stage and FIFO in place |
| `RamReader.NeverOverflows` | cores/axis_ram_reader.v:51-123 | with a memory of any contents at any time that answers each request with its 16 beats and knows nothing of the core's resets, in every run: no beat arrives at a full FIFO although rready is constant 1; the addresses requested since the last reset start at min_addr, go on burst by burst and start over after cfg + 1; the words delivered are those at these addresses in order, each as the memory held it then; and the next request is made as soon as there is room - if since the last reset no beat of a burst from before it has come; if one has, the first word of the stream is such a beat |
| `RamReader.MixedMeans` | cores/axis_ram_reader.v:68-86 | when that is, told from the run alone |
| `RamReader.StaleWordIsDelivered` | cores/axis_ram_reader.v:68-94 | and it happens: after a reset of one cycle a word of the old burst is delivered |
| `RamWriter.AxisRamWriter.Control` | cores/axis_ram_writer.v:99-119 | what the clocked block assigns to the flags, the beat counter and the address register |
| `RamWriter.AxisRamWriter.Clock` | cores/axis_ram_writer.v:51-156 | one rising edge of the whole core in place |
| `RamWriter.WritesTheStreamInBursts` | cores/axis_ram_writer.v:61-141 | in every run, with resets at any time, the FIFO is never read empty, and the beats taken are the accepted words in order with wlast on exactly every 16th |
| `RamWriter.AddressPerBurst` | cores/axis_ram_writer.v:99-131 | the addresses issued start at min_addr, go on burst by burst and start over after cfg + 1; each burst that starts with two earlier addresses still waiting gets none, each other burst has one issued or pending - so all have if and only if none starts like that |
| `RamWriter.StalledAddressMerges` | cores/axis_ram_writer.v:99-109 | the loss is real: with AW stalled and W running, every burst after the second loses its address |
| `AxiMap.Decoded` | cores/axi_hub.v:245-273 | whatever its bits 31:28 and 1:0 are, byte address 0x1000000 p + 4 w belongs to port p and word w there, and beat k of a burst from it goes to word w + k, modulo the 2^22 words of a port |
| `AxiMap.WidthIsLeast` | cores/axi_hub.v:183-188 | CFG_WIDTH and STS_WIDTH are the fewest bits, at least one, that tell the words apart |
| `AxiMap.IndexIsOffset` | cores/axi_hub.v:183-188 | the register word selected is the word address modulo 2^WIDTH, so every existing one is selected by its own address |
| `AxiMap.MergeLanes` | cores/axi_hub.v:275-293 | a strobed byte lane takes the new byte, the others keep theirs |
| `HubRams.StoredIsLastWritten` | cores/axi_hub.v:395-402 | folding strobed stores into a RAM leaves in each byte what the last store with its strobe wrote, or what was there before |
| `HubWrite.WriteHalf.Control` | cores/axi_hub.v:316-340 | next write burst counter and config words |
| `HubWrite.WriteHalf.Clock` | cores/axi_hub.v:237-368 | one rising edge of AW, W and B stages, counter and config flip-flops in place |
| `HubWrite.TakeIsAtomic` | cores/axi_hub.v:237-249 | a beat leaves its buffer exactly when it is written; address and id go on with the last beat, in the same cycle |
| `HubWrite.OneResponsePerBurst` | cores/axi_hub.v:237-368 | in every run the responses are the ids of the accepted write addresses, in order, one per burst and only after its last beat is taken (section A3.3.1 of ARM IHI 0022E); all of them once drained |
| `HubWrite.ConfigHoldsTheWrites` | cores/axi_hub.v:245-293 | in every run, for bursts of any length, each byte of each word of cfg_data is the one written to that word last by the beats taken since the last reset, or zero |
| `HubWrite.StoresKept` | cores/axi_hub.v:245-273 | what goes to the ports in a cycle is the next write beat of its burst, to the port of the burst's address and the word address counting up from it; so what goes there in all are those beats, in order |
| `HubRead.ReadHalf.Control` | cores/axi_hub.v:316-340 | next read burst counter |
| `HubRead.ReadHalf.Clock` | cores/axi_hub.v:241-388 | one rising edge of the AR and R stages and the counter in place |
| `HubRead.StageAnswers` | cores/axi_hub.v:256-265 | or-ing the gated RAM outputs with the multiplexed word gives exactly the one word the beat stands for |
| `HubRead.StreamWord` | cores/axi_hub.v:256-273 | a stream's tready is high with its tvalid in just the cycles that put its word into an R beat |
| `HubRead.CleanMeans` | cores/axi_hub.v:395-399 | when a reply counts as undisturbed: in every cycle, exactly if it is not a RAM word served while any write beat takes over the address, or waiting while one goes to its own RAM |
| `HubRead.EveryReadIsAnswered` | cores/axi_hub.v:241-390 | in every run each accepted read address gets exactly arlen + 1 beats, in order, with its id, rlast on exactly the final one, and the word at address + k as of the cycle the beat entered the R stage (RAM words unless a write beat interferes); every stream word consumed is in exactly one beat |
| `HubRead.StalledReplyIsStable` | cores/axi_hub.v:380-398 | an R beat the master does not take keeps valid, id, last and data (section A3.2.1 of ARM IHI 0022E), unless it is a RAM word and a write beat goes to that RAM meanwhile |
| `HubPorts.Outputs.Clock` | cores/axi_hub.v:404-410 | one rising edge of the six m_axis buffers in place, each offered the write data and valid when selected |
| `HubPorts.OutputKept` | modules/inout_buffer.v:21-38 | a buffer whose producer does not look at ready keeps a subsequence of what is written, unaltered and in order, and goes on keeping all of it exactly when nothing is written on top of two untaken words |
| `AxiHub.Hub.Clock` | cores/axi_hub.v:237-410 | one rising edge of both halves and the six outputs; the read multiplexer, the BRAM ports and the outputs see the write half's wires from before it |
| `AxiHub.StepIsClock` | cores/axi_hub.v:237-410 | the machine the runs are about is the one `Hub.Clock` is proved equal to |
| `AxiHub.ReadsBackWhatWasWritten` | cores/axi_hub.v:248-293 | in every reachable state a config beat served next is the one at the word of its address plus its beat number, and has there, byte for byte, what the beats taken since the last reset wrote last, or zero |
| `AxiHub.ReadsTheStatus` | cores/axi_hub.v:254-298 | in every reachable state a status beat served next has the status word at its address plus its beat number, as sts_data is in that very cycle |
| `AxiHub.ReadsTheStream` | cores/axi_hub.v:256-273 | and a beat of a stream port takes a word exactly when that stream offers one in that cycle, and then it is that word |
| `AxiHub.RamsHoldTheWrites` | cores/axi_hub.v:395-402 | in every run, across resets, each byte of the six RAMs is the one written last by what went to its port, which since the last reset are just the write beats taken, at burst address plus place in the burst |
| `AxiHub.RepliesReadBack` | cores/axi_hub.v:255-265 | in every run each RAM reply that no write beat interfered with has, byte for byte, what was last written to its address before the cycle that served it |
| `AxiHub.StreamWritesLossless` | cores/axi_hub.v:257-273 | in every run of the hub and for each of the six ports: the words written are those of the write beats to its address, those delivered or held are a subsequence of them, and they are all of them if and only if each of these beats came while fewer than two earlier words were untaken |
| `AxiHub.ThirdWordIsLost` | cores/axi_hub.v:404-410 | the loss is real: one burst of three beats to a port whose consumer waits is answered, and the buffer holds its first two words only |
| `HubPace.ReadsStream` | cores/axi_hub.v:241-248 | with requests always waiting and a master that takes every beat, n cycles from reset serve n - 1 beats and answer n - 2, whatever the lengths of the bursts |
| `HubPace.ReadsDrain` | cores/axi_hub.v:241-248 | in every run, once no more requests are made: exactly one beat a cycle until all asked for are served, all answered one cycle later, nothing left in the buffers |
| `HubPace.WritesStream` | cores/axi_hub.v:237-245 | with addresses and beats always offered and a master that takes every response, n cycles from reset take n - 1 beats |
| `HubPace.WritesDrain` | cores/axi_hub.v:237-245 | in every run, three cycles after the last address and beat were offered exactly the bursts with both an address and a last beat are answered |
| `HfdlClient.Client.Allocate` | projects/hfdl_receiver/server/hfdl-receiver.c:154-171 | the ring is the largest whole number of chunks, empty and not connected |
| `HfdlClient.Client.Accept` | projects/hfdl_receiver/server/hfdl-receiver.c:248-267 | a connection starts with an empty ring and nothing dropped; a failed accept changes nothing else |
| `HfdlClient.Client.Close` | projects/hfdl_receiver/server/hfdl-receiver.c:269-279 | disconnects |
| `HfdlClient.Client.WrapPointers` | projects/hfdl_receiver/server/hfdl-receiver.c:284-298 | pointers at the end wrap; both fatal exits are unreachable; the bytes in the ring stay the same |
| `HfdlClient.Client.NormalizeSendq` | projects/hfdl_receiver/server/hfdl-receiver.c:282-316 | what the ledger calls normalizing: pointers inside, end on a chunk boundary, and bytes dropped from the tail just when and as much as `HalfIsDropped` says |
| `HfdlClient.Client.CopyCs16` | projects/hfdl_receiver/server/hfdl-receiver.c:595-602 | the loop leaves exactly the channel's block of the chunk behind the end pointer and touches nothing else |
| `HfdlClient.Client.CopyCu8` | projects/hfdl_receiver/server/hfdl-receiver.c:577-584 | the same for 8-bit samples |
| `HfdlClient.Client.WriteChunk` | projects/hfdl_receiver/server/hfdl-receiver.c:570-612 | a produced chunk becomes one whole chunk at the end of the ring, never over its end, then normalized |
| `HfdlClient.Client.FlushClient` | projects/hfdl_receiver/server/hfdl-receiver.c:318-365 | -2 exactly when enough is queued and the send would block, -1 when it fails; otherwise hands over the minimum of contiguous, limit and socket room, nothing below the threshold; the bytes handed to the socket are exactly the oldest queued ones, and a flush never drops |
| `HfdlLedger.RingsThatKeepRoom` | projects/hfdl_receiver/server/hfdl-receiver.c:302-309 | the drop policy never fills the ring, never drops more than is queued and settles below its own threshold if and only if the ring has at least three chunks (CU8) or two (CS16) |
| `HfdlLedger.HalfIsDropped` | projects/hfdl_receiver/server/hfdl-receiver.c:302-309 | nothing is dropped while there is room for more than two chunks behind what is queued; otherwise a whole number of chunks, at most half the ring and more than half the ring less a chunk, from the tail |
| `HfdlLedger.DropsAreFarApart` | projects/hfdl_receiver/server/hfdl-receiver.c:302-309 | over runs: after a drop nothing is dropped until half the ring less one chunk has been produced again, whatever the client takes |
| `HfdlLedger.NormalizedIsValid` | projects/hfdl_receiver/server/hfdl-receiver.c:300-316 | a drop takes whole chunks from the tail and no byte of one already sent in part |
| `HfdlLedger.SentIsPrefixOfWholeChunks` | projects/hfdl_receiver/server/hfdl-receiver.c:282-365 | over every interleaving of chunks produced and partial sends since a connection was accepted: the bytes sent are a prefix of a subsequence of whole chunks in order, and produced = sent + queued + dropped |
| `HfdlLedger.Conservation` | projects/hfdl_receiver/server/hfdl-receiver.c:282-365 | produced = sent + queued + dropped, in bytes, in every valid state |
| `HfdlDemux.Cu8IsShift` | projects/hfdl_receiver/server/hfdl-receiver.c:581-582 | the 8-bit conversion is a shift by 127 for every sample except those with the lowest high byte, which wrap to 255 |
| `HfdlDemux.Cs16Sample` | projects/hfdl_receiver/server/hfdl-receiver.c:595-600 | sample t of a channel's block is sample channel + 13 t of the chunk |
| `HfdlDemux.Cu8Sample` | projects/hfdl_receiver/server/hfdl-receiver.c:577-583 | and for CU8 its converted high bytes |
| `HfdlDemux.DemuxRoundTrip` | projects/hfdl_receiver/server/hfdl-receiver.c:589-607 | re-interleaving the 13 channel blocks restores the chunk |
| `HfdlDemux.InterleaveRoundTrip` | projects/hfdl_receiver/server/hfdl-receiver.c:589-607 | and every 13 blocks are the channels of some chunk: demultiplexing is a bijection |
| `RoundRobin.Phase` | projects/hfdl_receiver/server/hfdl-receiver.c:679-712 | one phase visits the clients from the static index on, goes on past every one that costs no system call, ends with the first that costs one or with the last client, and leaves the index behind it |
| `RoundRobin.TourIsCyclic` | projects/hfdl_receiver/server/hfdl-receiver.c:679-712 | over any phases clients follow each other in cyclic order without a gap, at least one a phase |
| `RoundRobin.EveryClientIsVisited` | projects/hfdl_receiver/server/hfdl-receiver.c:679-712 | any 26 consecutive phases visit every client, whatever each send returns |
| `RoundRobin.MaintenanceVisitsOneClient` | projects/hfdl_receiver/server/hfdl-receiver.c:625-667 | when every visit costs a system call, as in network maintenance, each phase visits exactly one |
| `Si5351Calc.CalcFits` | patches/red_pitaya_fsbl_hooks.c:341-410 | for every frequency and every 32-bit reference but 0 the intermediate values fit 32 bits, and the terms are within the ranges the registers take |
| `Si5351Calc.OutOfRange` | patches/red_pitaya_fsbl_hooks.c:341-343 | frequencies below 8 kHz and above 160 MHz are set as these |
| `Si5351Calc.PllAskedFor` | patches/red_pitaya_fsbl_hooks.c:385-394 | from 81 MHz on the divider is 4, 6 or 8 and the PLL is asked for 600 to 900 MHz |
| `Si5351Calc.LowBranchWithin7` | patches/red_pitaya_fsbl_hooks.c:374-384 | below 81 MHz the ratio is within 7 Hz of a 900 MHz PLL's exact division |
| `Si5351Calc.LowBranchWithin6` | patches/red_pitaya_fsbl_hooks.c:374-384 | and within 6 Hz up to 75 MHz |
| `Si5351Calc.SixHertzFrontier` | patches/red_pitaya_fsbl_hooks.c:339-384 | 78000007 Hz is the lowest frequency at which the promised 6 Hz fail |
| `Si5351Calc.WithinExactly` | patches/red_pitaya_fsbl_hooks.c:374-384 | for every frequency of the low branch: less than e Hz off if and only if the remainders by (f >> 20) + 1 balance |
| `Si5351Calc.SixHertzInGap` | patches/red_pitaya_fsbl_hooks.c:374-384 | from 78000007 Hz to 81 MHz, with t = (f >> 20) + 1, h = f mod t and g = (900 MHz - 11 f) mod t: 6 Hz hold if and only if (f + 6)(11 h + g) < 900 MHz (h + 6) |
| `Si5351Regs.PackRoundTrip` | patches/red_pitaya_fsbl_hooks.c:160-187 | unpacking the eight bytes recovers P1, P2, P3, the divide-by-4 bits and the R divider |
| `Si5351Regs.FieldsDoNotOverlap` | patches/red_pitaya_fsbl_hooks.c:168-177 | the fields or-ed into one register byte do not overlap, so or is plus |
| `Si5351Regs.StageIsExact` | patches/red_pitaya_fsbl_hooks.c:245-248 | P3 (P1 + 512) + P2 = 128 (int denom + num): the registers stand for exactly the fraction |
| `Si5351Regs.StagesFit` | patches/red_pitaya_fsbl_hooks.c:238-292 | for references from 2^20 to 150 MHz everything si5351_Calc can emit fits the bit fields |
| `Si5351Regs.Si5351.WriteBulk` | patches/red_pitaya_fsbl_hooks.c:160-187 | the eight registers hold the packed stage, unless a transfer fails; no other changes |
| `Si5351Regs.Si5351.SetupPLL` | patches/red_pitaya_fsbl_hooks.c:238-260 | for any configuration the PLL's eight registers hold the stage of its parameters, which wrap at 32 bits as in the source, and both PLLs are reset; no other register changes |
| `Si5351Regs.Si5351.ClkControl` | patches/red_pitaya_fsbl_hooks.c:317-319 | the control register reads back, bit by bit, as powered up, integer mode or not, the PLL, not inverted, its own divider and the drive strength |
| `Si5351Regs.Si5351.SetupOutput` | patches/red_pitaya_fsbl_hooks.c:264-337 | both error returns and exactly when they happen, writing nothing; after success the divider's registers hold its stage, the control register reads back as asked for, and the phase offset is set; no other register changes |
| `Si5351Regs.Si5351.SetupClk` | patches/red_pitaya_fsbl_hooks.c:414-443 | for every reference but 0, after success the two stages computed for the frequency are in the output's divider and in the PLL that its control register names, A for output 0 and B for output 2, with the drive strength asked for and no phase offset; the chip reads back exactly these stages for references from 2^20 to 150 MHz; nothing of the other output or its PLL changes, success or not |
| `Si5351Regs.OtherClockStays` | patches/red_pitaya_fsbl_hooks.c:414-443 | so a frequency set on one of the two outputs stays set when the other is |
| `Si5351Frequency.HighBranchIsExact` | patches/red_pitaya_fsbl_hooks.c:385-402 | with the default 24.576 MHz reference every frequency in [81 MHz, 160 MHz] comes out as Fclk - Fclk mod (24/x), less than 6 Hz off |
| `Si5351Frequency.HighBranchWithin6` | patches/red_pitaya_fsbl_hooks.c:385-402 | and less than 6 Hz off with any reference between 2^20 and 24 * 2^20 Hz |
| `Si5351Frequency.PllInRange` | patches/red_pitaya_fsbl_hooks.c:385-402 | in the high branch, with a reference between 2^20 and 24 * 2^20 Hz, the PLL runs within 24 Hz of the 600 to 900 MHz it is made for |
| `Si5351Frequency.NominalReferenceClaim` | patches/red_pitaya_fsbl_hooks.c:339-402 | with a 25 MHz reference, over the whole promised range including R division: less than 7 Hz off, and less than 6 below 78000007 Hz and from 81 MHz |
| `Si5351Frequency.OutputFrontier` | patches/red_pitaya_fsbl_hooks.c:339-384 | the promised 6 Hz hold for all outputs from 8 kHz up to a limit if and only if the limit is below 78000007 Hz |
| `Si5351Frequency.NominalReferenceExactly` | patches/red_pitaya_fsbl_hooks.c:339-402 | with a 25 MHz reference the output is within the promised 6 Hz if and only if the frequency is below 78000007 Hz, at least 81 MHz, or meets that condition |
| `Si5351Frequency.DefaultReferenceClaim` | patches/red_pitaya_fsbl_hooks.c:339-402 | with the default reference the promised 6 Hz hold if and only if the scaled frequency is at least 81 MHz |
| `Si5351Frequency.ProgrammedFrequency` | patches/red_pitaya_fsbl_hooks.c:414-443 | the same, read back from nothing but the register bytes, with the PLL chosen by bit 5 of the control register: within 6 Hz if and only if the scaled frequency is at least 81 MHz, and from 81 MHz on exactly Fclk - Fclk mod (24/x) |
| `Xdevcfg.Driver.Open` | patches/xilinx_devcfg.c:571-574 | word order and residue are reset |
| `Xdevcfg.Driver.Search` | patches/xilinx_devcfg.c:333-344 | stops at the first sync word that has a byte behind it, or four bytes before the end |
| `Xdevcfg.Driver.Strip` | patches/xilinx_devcfg.c:330-350 | removes what is in front of it, in a first write only |
| `Xdevcfg.Driver.Fixup` | patches/xilinx_devcfg.c:357-363 | reverses each word in place |
| `Xdevcfg.Driver.Transfer` | patches/xilinx_devcfg.c:352-393 | residue is the exact tail of under 4 bytes, and the branch for an odd number of bytes is unreachable |
| `Xdevcfg.Driver.Write` | patches/xilinx_devcfg.c:311-393 | state and DMA bytes after a successful write are those of `AfterWrite` |
| `Xdevcfg.SwapIsInvolution` | patches/xilinx_devcfg.c:357-363 | swapping twice restores the whole words |
| `Xdevcfg.SplitsDoNotMatter` | patches/xilinx_devcfg.c:318-393 | for every sequence of writes, empty ones included, the DMA output and the residue are the one-shot transform of the stream stripped as its first non-empty write is |
| `Xdevcfg.FileIsWrittenOneShot` | patches/xilinx_devcfg.c:318-393 | for a file whose first sync word is at p, a sequence of writes gives the file from p on, swapped if that word is the swapped one, if and only if the first non-empty write reaches one byte past it - or p is 0 and nothing is to be swapped |
| `Xdevcfg.SyncComesFirst` | patches/xilinx_devcfg.c:330-363 | and then the first word the DMA gets is 66 55 99 AA, in whichever order the file has it |
| `Xdevcfg.UnreachedHeaderStays` | patches/xilinx_devcfg.c:330-350 | if the first non-empty write does not reach that far the header is never removed and nothing is swapped |
| `Ep6Framing.Shape` | projects/sdr_receiver_hpsdr/server/sdr-receiver-hpsdr.c:374-376 | for 1 to 8 receivers the samples of a frame, the frames of a block and what is copied out of the array fit their buffers, and no further sample fits a frame |
| `Ep6Framing.ParseInvertsPass` | projects/sdr_receiver_hpsdr/server/sdr-receiver-hpsdr.c:374-410 | parsing the datagrams of a pass yields all 2 m n samples of the block in order, number k with bytes 36 k to 36 k + 6 r of the block |
| `Ep6Framing.SamplesKeepApart` | projects/sdr_receiver_hpsdr/server/sdr-receiver-hpsdr.c:403-409 | these bytes are the sample's own if and only if there are at most six receivers, though the command accepts eight |
| `Ep6Framing.NextSampleShows` | projects/sdr_receiver_hpsdr/server/sdr-receiver-hpsdr.c:403-409 | with seven or eight the further channels sent are the first ones of the next sample |
| `Ep6Framing.DatagramCarries` | projects/sdr_receiver_hpsdr/server/sdr-receiver-hpsdr.c:390-410 | each datagram carries EF FE 01 06, its sequence number and two consecutive headers, each 7F 7F 7F and the five bytes of its own register |
| `Ep6Framing.SequenceIsContinuous` | projects/sdr_receiver_hpsdr/server/sdr-receiver-hpsdr.c:366-413 | over all passes, however the number of receivers changes, datagram k has sequence number k mod 2^32 and headers 2k and 2k + 1 mod 5 |
| `Ep6Handler.PlacesTile` | projects/sdr_receiver_hpsdr/server/sdr-receiver-hpsdr.c:396-400 | the frames of datagram k are exactly its bytes 8 to 1032 |
| `Ep6Handler.Handler.constructor` | projects/sdr_receiver_hpsdr/server/sdr-receiver-hpsdr.c:355-367 | all 25 sync words in place, counter and header offset zero |
| `Ep6Handler.Handler.FillFrame` | projects/sdr_receiver_hpsdr/server/sdr-receiver-hpsdr.c:398-409 | one frame written in place, every other byte of the buffer unchanged |
| `Ep6Handler.Handler.Number` | projects/sdr_receiver_hpsdr/server/sdr-receiver-hpsdr.c:389-394 | the sequence numbers, sync words untouched |
| `Ep6Handler.Handler.Pack` | projects/sdr_receiver_hpsdr/server/sdr-receiver-hpsdr.c:374-410 | after a pass the buffer holds its m datagrams, and counter and header offset are ready for the next |
| `HpsdrThreads.AtMostOneHandler` | projects/sdr_receiver_hpsdr/server/sdr-receiver-hpsdr.c:187-212 | in every interleaving at most one handler is live, and none while main readdresses it or creates the next |
| `HpsdrThreads.NoneLiveAfterStop` | projects/sdr_receiver_hpsdr/server/sdr-receiver-hpsdr.c:187-192 | when a Stop completes no handler is live, and none will be until another Start |
| `HpsdrThreads.StartCompletes` | projects/sdr_receiver_hpsdr/server/sdr-receiver-hpsdr.c:194-212 | once a Start has waited, five steps of main leave it receiving, with a handler that is enabled and live |
| `HpsdrThreads.HandlerKeepsPassing` | projects/sdr_receiver_hpsdr/server/sdr-receiver-hpsdr.c:372-417 | and until the next command that handler goes round its loop: it is in a pass after every other of its steps, whatever else happens |
| `HpsdrThreads.WaitProgresses` | projects/sdr_receiver_hpsdr/server/sdr-receiver-hpsdr.c:372-417 | every step of a disabled handler brings the end of the wait closer, no other event changes anything, and the wait is over with its last step |
| `HpsdrThreads.WaitIsOver` | projects/sdr_receiver_hpsdr/server/sdr-receiver-hpsdr.c:372-417 | so, unless a pthread_create failed before, a Start or Stop that waits gets on after at most three steps of the handler, whatever events come between |
| `HpsdrThreads.FailureHappens` | projects/sdr_receiver_hpsdr/server/sdr-receiver-hpsdr.c:205-210 | a run of seven events in which pthread_create fails with a positive error number, which the code does not look for |
| `HpsdrThreads.BarrenMeans` | projects/sdr_receiver_hpsdr/server/sdr-receiver-hpsdr.c:205-210 | in every interleaving active_thread is left without a handler if and only if some earlier event was such a failure of a create |
| `HpsdrThreads.DiscoveryTellsTheTruth` | projects/sdr_receiver_hpsdr/server/sdr-receiver-hpsdr.c:178-186 | outside a Start the Discovery reply says busy exactly when a handler is live, if and only if no earlier pthread_create failed with a positive number |
| `HpsdrThreads.StuckAfterFailedCreate` | projects/sdr_receiver_hpsdr/server/sdr-receiver-hpsdr.c:205-210 | in every run after such a failure active_thread stays set with no handler live, and a Start or Stop that begins never completes |
| `TransceiverSlots.OneOwnerPerRole` | projects/sdr_transceiver_wide/server/sdr-transceiver-wide.c:117-140 | in every interleaving each role has at most one handler, and none while main is giving it away |
| `TransceiverSlots.CommandIsJudged` | projects/sdr_transceiver_wide/server/sdr-transceiver-wide.c:117-131 | in every interleaving a connection gets the role its command names if and only if there is such a role, no handler has it and no create for it failed unseen; otherwise it is rejected |
| `TransceiverSlots.FailureHappens` | projects/sdr_transceiver_wide/server/sdr-transceiver-wide.c:132-138 | a run of four events in which pthread_create fails with a positive error number, for any role |
| `TransceiverSlots.OrphanedMeans` | projects/sdr_transceiver_wide/server/sdr-transceiver-wide.c:132-138 | in every interleaving a role is given out without a handler if and only if some earlier event was such a failure for it |
| `TransceiverSlots.FullSlotHasAnOwner` | projects/sdr_transceiver_wide/server/sdr-transceiver-wide.c:126-139 | a slot is full exactly while main or a handler owns the role, or once a pthread_create for it failed with a positive number |
| `TransceiverSlots.LostForGood` | projects/sdr_transceiver_wide/server/sdr-transceiver-wide.c:132-138 | in every run after such a failure the slot stays full, no handler has the role, and each connection that asks for it is rejected |
| `TransceiverSlots.SlotIsStable` | projects/sdr_transceiver_wide/server/sdr-transceiver-wide.c:147-218 | until a handler closes, its slot keeps the open socket of the connection it was created for, whatever anybody does |
| `TransceiverSlots.DoneIsOver` | projects/sdr_transceiver_wide/server/sdr-transceiver-wide.c:147-218 | once its client is done, four steps of a handler close its connection and end it, whatever comes between |
| `TransceiverSlots.LastStepFreesSlot` | projects/sdr_transceiver_wide/server/sdr-transceiver-wide.c:147-218 | and with the last of them its slot is empty again, and no other changes |
| `TransceiverSlots.ClosedOnce` | projects/sdr_transceiver_wide/server/sdr-transceiver-wide.c:125-139 | every accepted connection is open on its own socket or was closed exactly once, though the system reuses socket numbers, and no open socket is without an owner |
| `PskMessages.ReceiverTemplateReads` | projects/sdr_transceiver_ft8/app/upload-to-pskreporter.c:79-85 | a collector takes the options template of `header` for elements 2, 4, 8 and 9 of enterprise 30351, each of variable length, unless it is strict about the scope field count, which is zero (section 3.4.2.2 of RFC 7011): then it takes no template at all |
| `PskMessages.SenderTemplateReads` | projects/sdr_transceiver_ft8/app/upload-to-pskreporter.c:87-94 | and, strict or not, the other template for elements 1, 3, 5, 6, 10 and 11 of enterprise 30351 and element 150 of IANA, with the lengths the loop writes |
| `PskMessages.ReportReads` | projects/sdr_transceiver_ft8/app/upload-to-pskreporter.c:191-197 | a record written for a spot is read as its fields, whatever follows (sections 3.3 and 7 of RFC 7011) |
| `PskMessages.ReportsRead` | projects/sdr_transceiver_ft8/app/upload-to-pskreporter.c:191-209 | a whole set is read as its spots in order, and its padding, shorter than any record, as none |
| `PskMessages.SetsAreWholeWords` | projects/sdr_transceiver_ft8/app/upload-to-pskreporter.c:160-213 | all set lengths are multiples of 4 |
| `PskMessages.CollectorReads` | projects/sdr_transceiver_ft8/app/upload-to-pskreporter.c:150-221 | a datagram is as long as its header says, made of whole sets, and yields, looked up by enterprise and element number, exactly the spots put in - call sign 1, frequency 5, SNR 6, mode 10, locator 3, source 11, time 150 - and, to a collector that is not strict about the scope count, the receiver (section 3.1 of RFC 7011) |
| `PskMessages.SpotBack` | projects/sdr_transceiver_ft8/app/upload-to-pskreporter.c:193-197 | a spot looked up by element is the one put in if and only if its numbers fit the fields |
| `PskReporter.BatchesPartition` | projects/sdr_transceiver_ft8/app/upload-to-pskreporter.c:174-226 | the batches are the spots of the file in order |
| `PskReporter.BatchSizes` | projects/sdr_transceiver_ft8/app/upload-to-pskreporter.c:199-204 | of exactly ten each, but for the last, which has one to ten |
| `PskReporter.EverySpotArrives` | projects/sdr_transceiver_ft8/app/upload-to-pskreporter.c:150-229 | for every file whose datagrams fit the buffer, what a collector, strict or not, reads by element out of all of them is exactly the valid spots, in order |
| `PskReporter.StationsThatFit` | projects/sdr_transceiver_ft8/app/upload-to-pskreporter.c:73-119 | over all files the program can read, the datagrams fit the 512 bytes if and only if call sign, locator and antenna have at most 29 characters together; for any longer ones ten spots with the longest call signs and locators do not fit |
| `PskReporter.Uploader.constructor` | projects/sdr_transceiver_ft8/app/upload-to-pskreporter.c:147-173 | header, receiver set and pointers before the loop |
| `PskReporter.Uploader.CopyChar` | projects/sdr_transceiver_ft8/app/upload-to-pskreporter.c:34-41 | length byte and text at the cursor, which moves behind them; nothing behind it changes |
| `PskReporter.Uploader.AddSpot` | projects/sdr_transceiver_ft8/app/upload-to-pskreporter.c:191-199 | one more report in the buffer |
| `PskReporter.Uploader.Flush` | projects/sdr_transceiver_ft8/app/upload-to-pskreporter.c:204-226 | the bytes sent are the assembled datagram, and the buffer is ready for the next batch |
| `PskReporter.Uploader.Run` | projects/sdr_transceiver_ft8/app/upload-to-pskreporter.c:174-229 | the datagrams sent for a file are those of its batches, numbered from 0 |

## Left out

- Vendor blocks: `xpm_fifo_sync` is a queue with an exact count and equal port widths; CIC, FIR, DDS and DSP blocks, `cfg_slicer.v`, `dds.v` and `dsp48.v` are not part of this model.
- Status outputs of the cores (`sts_data`), constant AXI attributes and one-register cores.
- RamReader.NeverOverflows: the minimum depth of 16 is that of the FIFO primitive.
- Histogram.BinsHoldTheirTallies: a sample whose bin is being read when the core is reset is not counted, neither by the core nor as taken; the word the RAM outputs while it is written or reset is an arbitrary input, so nothing depends on its mode.
- HubRead.EveryReadIsAnswered: ports above 7 and register words that do not exist read as 0 where the source leaves them unknown; a RAM beat during which a write beat takes over the address or writes the same RAM promises its id and last flag but not its word.
- Keyer.DeliversRamps: cfg is constant and positive; with cfg 0 the address never moves.
- HfdlClient.Client.Allocate: rings of fewer than three chunks, which the program never allocates and for which `RingsThatKeepRoom` says how the policy fails.
- HfdlClient.Client.FlushClient: pointers are offsets into the ring; `bytesDropped` and the lengths are unbounded where the program has 64 and 32 bits.
- RoundRobin.Phase: which clients cost a system call is an input; what a visit does to the client is in `HfdlClient`.
- Si5351Calc.CalcFits: a reference of 0, by which the source divides; the correction term, which is floating point, is 0, and `si5351_Init` and the output enable register are left out.
- Si5351Regs.Si5351.SetupPLL: denominators of 0, by which the source would divide; how far the writing got when a transfer fails.
- Si5351Regs.Si5351.SetupOutput: the same, where the source gets to the division; drive strengths are the four of its enumeration.
- Xdevcfg.Driver.Write: writes that fail or time out, the bit of the DMA address that depends on the length, and counts beyond 32 bits; interrupt registers, attributes, probe and remove.
- Ep6Framing.ParseInvertsPass: the FIFO counter, its reset on overrun and the waiting.
- HpsdrThreads.AtMostOneHandler: reads and writes of the flags are steps of one memory; the C program declares them without `volatile` or atomics.
- TransceiverSlots.ClosedOnce: the same for `sock_thread`; what the handlers do with their sockets between start and close is left out.
- PskReporter.EverySpotArrives: what the program does when a datagram does not fit the 512-byte buffer, which `StationsThatFit` says can happen; the parsing of a line is an input, and a line on which `sscanf` meets the end is a spot with an empty call sign, as in the program.
- PskReporter.Uploader.Run: files with datagrams that do not fit; the meaning RFC 7011 gives the sequence number (records, not messages); the random domain and the clock, which are inputs.
- PskReporter.Uploader.CopyChar: texts of 128 bytes and more, which the limits on the arguments and the line rule out.
- Sockets, mmap, GPIO, timers, logging, frequency and level commands, Python clients, Tcl and shell scripts, kernel patches and notebooks.
