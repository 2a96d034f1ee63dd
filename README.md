# libsd in SPI mode: transport and card bring-up

A Dafny model of the core of libsd, an SD-card driver that talks to the card
in SPI mode as described in the SD Association's Physical Layer Simplified
Specification (chapter 7 for SPI mode, section 7.3.1 for the command format,
section 7.3.2 for the R1/R2/R3/R7 responses, section 5.1 for the OCR register).
It has two parts that belong together.

- **The SPI transport** (`src/sd_spi.c`, module `SdSpi`).
  - It builds the 6-byte command frame for a request.
  - It polls for the R1 byte with a bounded count-down loop (`wait_r1`).
  - It decodes the trailing response bytes into the four response words,
    according to the response kind.
  - It drives chip-select around every command.
  - It binds itself to a host through one static context.
  - The platform's SPI primitives (`xchg1`, `write`, `read_ff`, `select_cs`,
    `set_baud`) and the host's `delay_ms` hook are the class `SpiBus`. It
    answers from a scripted queue of bytes driven by the card. Once that
    queue is exhausted, the line reads 0xFF. It also appends every primitive
    call to a trace.
  - Each method that drives the bus is proved equal to a pure function of
    the byte script (`Poll`, `SubmitOnWire`). The transport's promises are
    lemmas about those functions: frame layout, the poll bound, R1 bit 7
    clear on success, the decoding per kind, and chip-select balance.
- **The bring-up engine** (`src/sd_core.c`, module `SdCore`, properties in
  `SdCoreProps`).
  - It holds the two R1 predicates, the five command helpers, and `sd_init`.
    `sd_init` runs CMD0, CMD8, a loop of CMD55/ACMD41 (at most 1000
    iterations), a loop of CMD58 (at most 10), and CMD16.
  - The bus's `submit` is an oracle, `Host.Submit`. It answers each request
    with the next scripted `Reply` and logs the request on the host trace.
    A `Reply` is a status, an R1 byte and the words stored from `r[0]` on.
  - Every helper, each loop and `sd_init` itself is a method over `Host`,
    `Card` and the caller's `Response`. Each is proved equal to a pure
    function of the reply script (`GoIdle`, `IfCond`, `OcrRead`, `OpCond`,
    `BlockLen`, `OpCondLoop`, `OcrLoop`, `LeftIdle`, `Ready`, `Commands`,
    `BringUp`).
  - The properties of the bring-up are lemmas about those functions: the
    command order, the bound on the number of submits, the classification
    of every outcome, and the card record on success.
  - A few lemmas connect the two parts. They show how the engine reads the
    replies the SPI transport can give.

The constants of `include/sd_defines.h` are module `SdDefines`. The shared
records of `sd_types.h`, `sd_host.h` and `sd.h` are modules `SdTypes` and
`SdHost`. They carry the fields the `.c` files use:
- `bus_kind` and `bus_ctx` of the host, which `sd_host.h` does not declare, and `bus`, which `sd_host.h` declares as the bus-kind enum but the `.c` files use as the bus operations table (src/sd_core.c:63, 250, 267; the kind itself goes to `bus_kind`, src/sd_spi.c:191);
- the `v2` flag of the card, which `sd.h` does not declare.

Two behaviours of the source are worth knowing.
- `r1_in_idle` reads the idle bit from `r[0]` and not from the R1 byte.
- `sd_init` ignores the status of `sd_send_op_cond`. A CMD55 that times out
  leaves `r[0]` unchanged. In the first ACMD41 iteration, `r[0]` still holds
  the CMD8 echo 0x1AA, whose bit 0 is clear. The loop therefore ends as if
  the card had left idle. A bring-up can then succeed without any ACMD41
  being sent (`SdCoreProps.StaleEchoEndsOpCondLoop`).

## Model

| member | source | states |
|---|---|---|
| SdTypes.Deliver | src/sd_spi.c:126-158 | storing a reply sets R1, puts its words into r[0], r[1], ... (at most four), and leaves every later word as it was |
| SdDefines.OcrPowerUpStatus | include/sd_defines.h:42 | the mask is nonzero exactly when bit 31 is set, and is then 0x80000000 |
| SdDefines.OcrHighCapacity | include/sd_defines.h:43 | the mask is nonzero exactly when bit 30 (CCS) is set, and is then 0x40000000 |
| SdDefines.PoweredHighCapacityOcr | include/sd_defines.h:42-43 | for the OCR 0xC0FF8000 both the power-up and the capacity masks are nonzero |
| SdDefines.CommandIndicesFitSixBits | include/sd_defines.h:15-22 | every command index (0, 8, 16, 55, 58, 41) is below 64, so masking with 0x3F keeps it |
| SdDefines.CommandTimeoutsPositive | include/sd_defines.h:28-35 | every per-command timeout is nonzero, so the default of 200 ms is never substituted for them |
| SdHost.Card.Zero | src/sd_core.c:254 | memset leaves every field of the card record zero and no host bound |
| SdSpi.WordBytes | src/sd_spi.c:93-96 | the four argument bytes, most significant first, reassemble big-endian to the word |
| SdSpi.FrameLayout | src/sd_spi.c:91-103 | frame byte 0 is 01 over the masked index, bytes 1-4 the argument big-endian, byte 5 is 0x95 for CMD0, 0x87 for CMD8 and 0x01 otherwise |
| SdSpi.FrameKeepsDriverIndices | src/sd_spi.c:91-92 | every command the driver issues is framed as 0x40 or its own index |
| SdSpi.BuildFrame | src/sd_spi.c:91-103 | filling f[6] (the literal, then the CRC patches for CMD0 and CMD8) yields the frame |
| SdSpi.PollShape | src/sd_spi.c:24-40 | the poll returns 0xFF or a byte with bit 7 clear, makes at most t exchanges and consumes one byte per exchange |
| SdSpi.PollOnlyPollEvents | src/sd_spi.c:26-38 | every call of the poll sends 0xFF or is a 1 ms delay |
| SdSpi.PollTimeout | src/sd_spi.c:26-39 | the poll returns 0xFF exactly when none of the first t bytes has bit 7 clear, after exactly t exchanges and, with a delay hook, t delays |
| SdSpi.PollFound | src/sd_spi.c:26-37 | a found R1 is the n-th byte after n-1 busy bytes, with one delay per failed poll when there is a delay hook |
| SdSpi.WaitR1 | src/sd_spi.c:24-40 | wait_r1 returns the poll's byte, leaves the script after it and appends the poll's calls (the delay hook checked on the context's host) |
| SdSpi.PollBus | src/sd_spi.c:26-39 | the count-down loop equals the poll function: its byte, script and calls |
| SdSpi.PollOnce | src/sd_spi.c:29-37 | one iteration exchanges 0xFF for the next byte, then delays 1 ms when it is not R1 and there is a hook |
| SdSpi.DecodedWords | src/sd_spi.c:128-158 | R2 stores four words, every other kind one |
| SdSpi.R2RoundTrip | src/sd_spi.c:145-153 | decoding the 16 bytes of a register sent word r[3] first recovers all four words |
| SdSpi.R3R7RoundTrip | src/sd_spi.c:137-143 | decoding the four bytes of an R3/R7 word recovers the word |
| SdSpi.DecodeInto | src/sd_spi.c:126-159 | the switch stores exactly the decoded words, reads exactly the kind's trailing bytes and makes one read_ff for R2/R3/R7 and none otherwise |
| SdSpi.StoreFirst | src/sd_spi.c:130-136 | only r[0] is written |
| SdSpi.ReadWordInto | src/sd_spi.c:137-143 | four bytes are read and stored big-endian in r[0], the other words kept |
| SdSpi.ReadRegisterInto | src/sd_spi.c:145-153 | sixteen bytes are read and stored as four big-endian words, bytes 12-15 into r[0] |
| SdSpi.SendCommand | src/sd_spi.c:109-117 | one draining 0xFF exchange, chip-select asserted, the frame written, then the poll with the request's timeout or 200 when it is 0 |
| SdSpi.FinishOk | src/sd_spi.c:126-169 | after R1 has arrived: decode into out, release chip-select, status Ok |
| SdSpi.SubmitBus | src/sd_spi.c:109-169 | the submit body equals SubmitOnWire: status, stored response, script left and bus calls |
| SdSpi.GuardAsWrittenLetsMissingThrough | src/sd_spi.c:87-88 | the check as written refuses neither a call with only the request missing nor one with only the response missing |
| SdSpi.GuardRejectsSound | src/sd_spi.c:87-88 | the corrected check lets a call through exactly when both are present and refuses all the original refuses |
| SdSpi.Submit | src/sd_spi.c:82-170 | a refused call is Param with no bus traffic and the response untouched; otherwise the submit on the context's bus and its host's delay hook |
| SdSpi.SubmitFraming | src/sd_spi.c:109-167 | every submit starts with the drain, select, frame write, ends with deselect, and touches chip-select nowhere else |
| SdSpi.SubmitTimeout | src/sd_spi.c:117-123 | the status is Ok or Timeout; Timeout exactly when all budget bytes are busy, and then R1 is 0xFF, no word is stored, no byte is read and 1 + budget exchanges were made |
| SdSpi.TimeoutTrace | src/sd_spi.c:117-123 | a timed-out submit makes 1 + budget exchanges and no block read |
| SdSpi.SubmitOk | src/sd_spi.c:117-158 | an Ok submit has R1 with bit 7 clear, found within the budget after busy bytes, and stores the decoding of the bytes right after it |
| SdSpi.SubmitShaped | src/sd_spi.c:117-123 | every reply is the timeout reply or an Ok with bit 7 clear and at least r[0] stored |
| SdSpi.SubmitExchangeBound | src/sd_spi.c:26 | a submit makes at most one exchange more than its poll budget |
| SdSpi.SubmitDelivers | src/sd_spi.c:109-158 | a card answering after busy bytes within the budget, with R1 and the kind's bytes, is reported Ok with that R1 and their decoding |
| SdSpi.SetClock | src/sd_spi.c:52-58 | hz is forwarded unchanged to set_baud, status Ok |
| SdSpi.SetWidth | src/sd_spi.c:67-71 | Ok with no effect |
| SdSpi.BindSpiTransport | src/sd_spi.c:180-196 | the context names host and primitives; the host gets bus kind SPI, the SPI vtable, the context, and no 4-bit or 1.8 V support |
| SdSpi.RebindOverwrites | src/sd_spi.c:185-193 | binding a second host through the one static context re-targets the first host's context to the second host |
| SdCore.R1IsError | src/sd_core.c:26-29 | true exactly when bit 7 of the R1 byte is set |
| SdCore.R1InIdle | src/sd_core.c:37-40 | true exactly when bit 0 of word r[0] (not of R1) is set |
| SdCore.IfCondArg | src/sd_core.c:92 | the CMD8 argument has the check pattern 0xAA in its low byte, the voltage nibble in bits 8-11, nothing above |
| SdCore.OpCondArg | src/sd_core.c:183 | the ACMD41 argument has bits 20 and 21, bit 30 exactly for a v2 card, nothing else |
| SdCore.GoIdle | src/sd_core.c:50-74 | CMD0 only; a failed submit's status unchanged; Ok exactly when accepted and r[0] shows idle; Io otherwise |
| SdCore.IfCond | src/sd_core.c:84-116 | CMD8 only, the response delivered to the caller; a failed submit's status unchanged; Ok exactly when accepted with the pattern echoed; Io otherwise |
| SdCore.OcrRead | src/sd_core.c:125-151 | CMD58 only; a failed submit's status unchanged, an R1 error Io, Ok otherwise, and then the OCR is the first word and the capacity flag its bit 30; on any error both are unchanged |
| SdCore.OpCond | src/sd_core.c:161-201 | CMD55 first; without ACMD41 the status is the failed CMD55 submit's, or Io on its R1 error; ACMD41 is sent exactly when CMD55 was accepted, and then a failed submit's status is unchanged, an R1 error Io, Ok otherwise; both answers land in the caller's response |
| SdCore.BlockLen | src/sd_core.c:211-236 | CMD16 only; a failed submit's status unchanged; Ok exactly when accepted |
| SdCore.GoIdleState | src/sd_core.c:50-74 | the method equals GoIdle on the reply script |
| SdCore.SendIfCond | src/sd_core.c:84-116 | the method equals IfCond, including the response it leaves |
| SdCore.ReadOcr | src/sd_core.c:125-151 | the method equals OcrRead and writes only the OCR and capacity fields |
| SdCore.SendOpCond | src/sd_core.c:161-201 | the method equals OpCond |
| SdCore.SetBlockLen | src/sd_core.c:211-236 | the method equals BlockLen and leaves the card untouched |
| SdCore.OpCondFromLoop | src/sd_core.c:293-301 | the accumulated form the loop keeps equals the ACMD41 loop function with the earlier events prefixed |
| SdCore.OcrFromLoop | src/sd_core.c:308-319 | the accumulated form equals the OCR loop function with the earlier events prefixed |
| SdCore.OpCondLoopCount | src/sd_core.c:293-301 | the ACMD41 loop ignores statuses, runs 1 to n iterations (its CMD55 count) with at most two requests each, starts with CMD55, and ends still idle only after all n iterations, with exactly n CMD55 |
| SdCore.OpCondLoopBound | src/sd_core.c:293-301 | the ACMD41 loop ends Ok, with at most 2n requests, the first CMD55 |
| SdCore.OpCondLoopIterations | src/sd_core.c:293-301 | the ACMD41 loop runs at most n iterations, and at least one when n > 0, counting one CMD55 per iteration |
| SdCore.OpCondLoopTwoPerIteration | src/sd_core.c:293-301 | the ACMD41 loop sends at most two requests per iteration |
| SdCore.OpCondLoopStillIdle | src/sd_core.c:293-301 | a loop that ends with r[0] still idle has run all n iterations: it sent exactly n CMD55 |
| SdCore.AppCountAppend | src/sd_core.c:293-301 | the CMD55 count of two runs one after the other is the sum of their counts |
| SdCore.OpCondAppCount | src/sd_core.c:161-201 | one call of sd_send_op_cond sends exactly one CMD55 |
| SdCore.RoundsAppend | src/sd_core.c:293-301 | two runs of CMD55-then-optional-ACMD41 rounds, one after the other, are again such a run |
| SdCore.RoundsTwoPer | src/sd_core.c:161-201 | a run of such rounds holds at most two requests per CMD55 |
| SdCore.RoundsPaired | src/sd_core.c:161-201 | in a run of such rounds every ACMD41 comes right after a CMD55 |
| SdCore.OpCondRounds | src/sd_core.c:161-201 | one call of sd_send_op_cond is one round: CMD55, then ACMD41 or nothing |
| SdCore.OpCondLoopRounds | src/sd_core.c:293-301 | the ACMD41 loop sends a run of such rounds |
| SdCore.OpCondLoopPaired | src/sd_core.c:161-201 | every ACMD41 of the loop comes right after a CMD55 |
| SdCore.OpCondOnlyAppend | src/sd_core.c:293-301 | two runs of CMD55/ACMD41 only, one after the other, are again CMD55/ACMD41 only |
| SdCoreProps.ReadyLeftIdle | src/sd_core.c:293-304 | a successful run after CMD8 left the ACMD41 loop out of idle, and its events are the loop's followed by those after it |
| SdCore.OpCondLoopSends | src/sd_core.c:293-301 | the ACMD41 loop sends nothing but CMD55 and ACMD41 |
| SdCore.OcrLoopCount | src/sd_core.c:308-319 | the OCR loop reads at least once and at most n times, and ends Ok without power-up only after all n |
| SdCore.OcrLoopEarlierReads | src/sd_core.c:308-319 | every CMD58 of the OCR loop but the last was accepted with no R1 error and without the power-up bit |
| SdCore.OcrLoopLastFailed | src/sd_core.c:308-313 | a failed OCR loop whose last submit failed returns that submit's status |
| SdCore.OcrLoopLastRejected | src/sd_core.c:308-313 | a failed OCR loop whose last submit was answered saw an R1 error there and returns Io |
| SdCore.OcrLoopLastPowered | src/sd_core.c:308-319 | an OCR loop that ends on power-up keeps the OCR of its last, accepted read |
| SdCore.OcrLoopSends | src/sd_core.c:308-319 | the OCR loop sends nothing but CMD58 |
| SdCore.OcrLoopAgrees | src/sd_core.c:147-148 | the OCR loop keeps the capacity flag equal to bit 30 of the OCR |
| SdCore.Configured | src/sd_core.c:254-283 | the zeroed record with the generation flag, OCR and capacity flag written |
| SdCore.CommandsCard | src/sd_core.c:254-331 | the command sequence writes no card field but v2, the OCR and the capacity flag |
| SdCore.OpCondAttempt | src/sd_core.c:295-300 | one iteration: the pending outcome is reached now when r[0] left idle, otherwise after one fewer iteration |
| SdCore.OpCondPhase | src/sd_core.c:293-301 | the for loop with break equals the ACMD41 loop function on 1000 iterations |
| SdCore.OpCondIterate | src/sd_core.c:293-301 | the loop reaches the accumulated outcome of 1000 iterations |
| SdCore.OcrAttempt | src/sd_core.c:310-318 | one iteration: the loop stops here on an error or the power-up bit, otherwise one fewer iteration is left |
| SdCore.OcrPhase | src/sd_core.c:308-319 | the for loop equals the OCR loop function on 10 iterations: status, OCR, capacity flag, events |
| SdCore.LeftIdleCard | src/sd_core.c:306-331 | once the card left idle, the method equals LeftIdle |
| SdCore.ReadyCard | src/sd_core.c:293-331 | after CMD8, the method equals Ready and writes only the OCR and capacity fields |
| SdCore.RunCommands | src/sd_core.c:270-331 | CMD0 to CMD16 on a zeroed card equal the Commands function: status, v2, OCR, capacity flag, events |
| SdCore.ConfigureCard | src/sd_core.c:270-331 | the card record after the command sequence is the one Commands gives |
| SdCore.ResetCard | src/sd_core.c:254-268 | the card is zeroed and bound to the host, and the prelude hooks ran |
| SdCore.PowerUp | src/sd_core.c:258-268 | power on if the hook exists, delay 1 ms, 400 kHz if the clock hook exists, in that order |
| SdCore.BringUpCard | src/sd_core.c:254-331 | past the parameter checks, sd_init equals BringUp on the reply script, with the card bound to the host |
| SdCore.Init | src/sd_core.c:240-332 | a missing host or card, or a missing ops or bus table, is Param with nothing touched (a present card or host is unchanged); otherwise BringUp decides status, card record and events; the host's configuration fields are never written |
| SdCoreProps.ReadyStillIdle | src/sd_core.c:293-304 | still idle after the loop is Timeout after exactly 1000 iterations (1000 CMD55) of at most two requests each, each ACMD41 right after a CMD55, the card untouched |
| SdCoreProps.LeftIdleOutcome | src/sd_core.c:306-331 | every CMD58 but the last was accepted without power-up; a CMD58 error is the last read's failed status, or Io on its R1 error, after CMD58s only; ten reads without power-up are Timeout; otherwise CMD16(512) is last and its status is the result, a failed submit's unchanged; Ok implies bit 31 |
| SdCoreProps.LeftIdleAgrees | src/sd_core.c:306-331 | after the card left idle, the capacity flag still equals bit 30 of the OCR |
| SdCoreProps.ReadyAgrees | src/sd_core.c:293-331 | after CMD8, the capacity flag still equals bit 30 of the OCR |
| SdCoreProps.LeftIdleSends | src/sd_core.c:306-331 | after the card left idle, 1 to 11 submits, the first CMD58 |
| SdCoreProps.ReadyIterations | src/sd_core.c:293-301 | after CMD8 the requests begin with the ACMD41 loop's, from 1 to 1000 iterations of at most two requests each |
| SdCoreProps.ReadySends | src/sd_core.c:293-331 | after CMD8, 1 to 2011 submits, the first CMD55 |
| SdCoreProps.LeftIdleOrder | src/sd_core.c:306-331 | a successful run after idle is one to ten CMD58 and then CMD16(512) |
| SdCoreProps.ReadyOrder | src/sd_core.c:293-331 | a successful run after CMD8 is CMD55/ACMD41 starting with CMD55, each ACMD41 right after a CMD55, one to ten CMD58, then CMD16(512) |
| SdCoreProps.CommandsGoIdleFailure | src/sd_core.c:270-272 | a failed CMD0 ends the run with its status (Io when accepted but not idle), one request, the card zeroed |
| SdCoreProps.CommandsIfCond | src/sd_core.c:274-287 | CMD8: Io is returned, another failure is Unsupported with v2 false, after two requests; an accepted echo makes a v2 card and goes on with CMD55 |
| SdCoreProps.CommandsPassedIfCond | src/sd_core.c:274-331 | after an accepted CMD8 the status, card record and events are those of Ready after CMD0 and CMD8 |
| SdCoreProps.CommandsSubmitBound | src/sd_core.c:270-331 | at most 1 + 1 + 2·1000 + 10 + 1 submits, the first CMD0 |
| SdCoreProps.CommandsOrder | src/sd_core.c:270-331 | a successful run is CMD0, CMD8, CMD55/ACMD41 starting with CMD55, each ACMD41 right after a CMD55, one to ten CMD58, then CMD16(512) |
| SdCoreProps.CommandsSuccess | src/sd_core.c:283-331 | a successful run leaves a v2 card with bit 31 in the OCR, the capacity flag equal to bit 30, the block length and every other field zero |
| SdCoreProps.BringUpHooks | src/sd_core.c:254-271 | power on exactly with a power hook, then 1 ms, then 400 kHz exactly with a clock hook, before the first submit, which is CMD0; everything after is a submit |
| SdCoreProps.SpiOkNeverRejected | src/sd_spi.c:117-118 | an Ok SPI submit never carries an R1 error, so r1_is_error is false after it |
| SdCoreProps.SpiIdleIsR1Idle | src/sd_spi.c:133-136 | for an R1 request r1_in_idle after an Ok SPI submit is bit 0 of the R1 byte |
| SdCoreProps.SpiTimeoutKeepsWords | src/sd_spi.c:118-123 | a failed SPI submit is a Timeout that stores R1 0xFF and keeps every word |
| SdCoreProps.GoIdleOverSpi | src/sd_core.c:50-74 | CMD0 over SPI is Ok exactly when R1 shows idle (0x01 is Ok, 0x00 is Io), else Timeout or Io |
| SdCoreProps.HappyPath | src/sd_core.c:240-332 | a card answering as powered-up SDHC (OCR 0xC0FF8000) is brought up in six submits with v2, that OCR and the capacity flag set |
| SdCoreProps.HappyReady | src/sd_core.c:293-331 | after CMD8 the powered-up SDHC card is ready in CMD55, ACMD41, CMD58 and CMD16(512) |
| SdCoreProps.HappyOpCondLoop | src/sd_core.c:293-301 | that card leaves idle on the first ACMD41 |
| SdCoreProps.HappyLeftIdle | src/sd_core.c:306-331 | its first OCR read shows power-up and CCS, then CMD16(512) succeeds |
| SdCoreProps.StaleEchoEndsOpCondLoop | src/sd_core.c:293-301 | a CMD55 timeout after CMD8 ends the ACMD41 loop on the stale echo, and the run can end Ok with no ACMD41 sent |

## Left out

- RP2040 port, demo program and CI scripts: platform wiring and tooling; the platform is the abstract `SpiBus` and the host hooks.
- Block I/O, `sd_set_bus_width`, `sd_set_speed`, `sd_status_str`, `sd_dump_info`: declared in `include/sd.h` but not implemented in the modelled files.
- The R1b busy tail, the data phase and CMD12: not implemented in `spi_submit` (TODOs); R1b is decoded like R1.
- CRC7/CRC16 computation: not implemented; only the fixed bytes 0x95, 0x87 and 0x01 are modelled.
- Real time: `delay_ms` is a trace event, and the poll budget counts polls, not milliseconds.
- Host operations never called (`init_bus`, `send_cmd`, `xfer_data`, `lock`, `unlock`). Function pointers and `void *` contexts become typed presence flags and typed references.
- The bound submit is an oracle in the bring-up engine: `Host.Submit` is not proved to be `SdSpi.Submit`. The SpiOkNeverRejected, SpiIdleIsR1Idle, SpiTimeoutKeepsWords and GoIdleOverSpi lemmas relate the two through the replies the SPI transport can give.
- Uninitialised `sd_response_t` locals are modelled as all-zero (`Blank`). With the SPI transport, every Ok submit writes `r[0]` before it is read.
- The definition of `sd_cmd8_voltage` is not part of this model. `SD_CMD8_VOLTAGE_2_7__3_6` is taken as 1, the VHS code for 2.7-3.6 V in section 4.3.13 of the SD Physical Layer Simplified Specification.
- The static `spi_ctx` of `sd_bind_spi_transport` is passed in as a parameter. RebindOverwrites shows the effect of passing the same storage every time.
- SdSpi.WaitR1: the C code makes its `xchg1` calls with `spi_ctx->host` (src/sd_spi.c:29), and spi_submit's with its own `host` argument (src/sd_spi.c:109). After a rebind these are different hosts. The model has one `SpiBus`, and its exchange events name no host, so the two calls cannot be told apart.
- SdCore.Init: requires a delay hook when host, card, operations table and bus are all present, because on that path the C code calls `delay_ms` without checking it (src/sd_core.c:264); a call the parameter checks at src/sd_core.c:246-251 refuse needs no hook; the model does not represent a call through a null pointer.
- SdSpi.Submit: implements the corrected parameter check (see Findings). It does not model the null dereference the check as written permits.

## Findings

| source | as written | input that shows it | evidently intended | confidence | as-written member | corrected member |
|---|---|---|---|---|---|---|
| src/sd_spi.c:87-88 | `if (!rq && !out) return SD_ERR_PARAM;` refuses a call only when both pointers are missing | `rq == NULL`, `out` present: the check passes and `rq->cmd` is read through a null pointer (symmetrically `out == NULL` reaches `out->r1 = r1`) | `!rq \|\| !out`: refuse a call when either is missing | high (not executed) | SdSpi.GuardAsWrittenLetsMissingThrough | SdSpi.GuardRejectsSound |
