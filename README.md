# ADV7481 bridge driver and MSM BA input registry, in Dafny

This project models the control plane of a video-capture bridge. It has two layers.

The **ADV7481 driver** (`drivers/media/video/adv7481.c`) covers:
- translating a bridge-abstraction input into a chip input;
- routing a chip input to one of the two CSI transmitters (`set_op_src`, `s_routing`);
- reprogramming the chip's mode (`set_ip_mode` and the HDMI and CVBS sequences);
- powering up a CSI transmitter (`csi_powerup`, `set_op_stream`);
- loading the EDID;
- reading HDMI timings, with two bounded lock polls that share one counter;
- debouncing the SD status (`get_sd_timings`);
- the two queries built on these, and the fixed frame interval.

The **MSM BA layer** (`drivers/video/msm/ba/msm_ba_common.c`) covers:
- the catalogue of bridge inputs;
- the list of registered inputs, which a bridge's probe adds to (prefix match on the device name, then one batch) and its removal deletes from;
- the first-match lookups;
- the frame-rate query with its Q16 conversion;
- the node-address control;
- the two control-cluster callbacks.

Modules:

- `CInt` (`cint.dfy`) holds the C integer semantics the drivers rely on:
  - `ret |= rc` as a two's-complement OR;
  - field extraction;
  - truncating stores;
  - `u32` read back as `int`.
- `Adv7481Types`, `MsmBaTypes`: the input and output enumerations shared by the layers.
- `Adv7481Bus`: register transactions, the `ret |= ...` result of a batch of writes, and the fixed register sequences.
  - The bus is an outcome sequence. The transaction at log position `j` gets `Answer(bus, j)`.
- `Adv7481Routing`: the routing state machine, as pure functions of the state, the bus and the log position.
- `Adv7481Timing`: the lock polls, the SD debounce, the timing decoding and the two queries.
- `Adv7481Device`: the device record as two classes.
  - `I2cBus` holds the outcome sequence and the append-only transaction log.
  - `Adv7481State` holds `csia_src`, `csib_src`, `mode`, `tx_lanes` and the mutex.
  - Every driver operation is a method proved against the function of the same operation, applied at the log position where it starts.
- `MsmBaRegistry`: the catalogue, the specification of add and delete over a table, the lookups, and the `BaDev` context class.
  - `BaDev` holds the list (a sequence) and the `num_inputs` counter. Its add and delete loops are proved against that specification.
- `MsmBaControls`: the Q16 conversion, `g_fps`, the control get and set, and the cluster callbacks.

Behaviour kept as the code has it:
- CSIA records the requested source even when `set_op_src` returns `-EINVAL`.
- The result of the CSIA read-modify-write is not checked.
- `set_analog_mux` computes a selector, never writes it, and returns 0.
- The pixel clock is scaled from the caller's value and never from the TMDS frequency.
- A lock poll that times out is not an error.
- `query_dv_timings` returns with the mutex held in an unsupported mode.
- `del_inputs` never decrements `num_inputs`.
- The Q16 conversion rounds the denominator down to a power of two and yields the interval, not its reciprocal. The ADV7481's 1/60 interval gives 2048, which is 1/32 in Q16.

## Model

| member | source | states |
|---|---|---|
| CInt.OrErr | drivers/media/video/adv7481.c:494-511 | `ret \|= rc` on C ints is zero exactly when both codes are zero; a negative code keeps the result negative; OR-ing 0 changes nothing |
| CInt.OrLowBits | drivers/media/video/adv7481.c:872-875 | OR-ing a value below 2^n into a multiple of 2^n adds it, so the high and low register bytes join without overlap |
| CInt.GetField | drivers/media/video/adv7481.c:804-805 | a register field read is below 2 to the power of the field's width |
| Adv7481Bus.WritesResultMeaning | drivers/media/video/adv7481.c:226-239 | the accumulated code of a batch is 0 exactly when every write in it returned 0, and negative when any write failed |
| Adv7481Bus.HdmiMode | drivers/media/video/adv7481.c:514-589 | set_hdmi_mode issues the 33 fixed transactions (one read, 32 writes) and returns 0 exactly when every write succeeded |
| Adv7481Bus.CvbsMode | drivers/media/video/adv7481.c:488-512 | set_cvbs_mode issues 13 transactions, returns 0 exactly when every write succeeded, and writes CSI_PIX_EN_SEL as the read-back value with the CSI4 input selector set |
| Adv7481Bus.CsiPowerupTxns | drivers/media/video/adv7481.c:1067-1138 | csi_powerup issues 14 writes: the selector to the IO map, all others to the transmitter's map, and TX_CFG1 goes powered-down, then auto-params, then powered-up, always with the current lane count |
| Adv7481Bus.CsiSequenceShape | drivers/media/video/adv7481.c:1098-1135 | the power-up sequence has 14 writes, the second is the pixel-enable selector, and every other write goes to the chosen CSI map |
| Adv7481Bus.CsiSequenceCfg1 | drivers/media/video/adv7481.c:1100-1129 | the values written to TX_CFG1 are exactly: power-down with the lane count, then plus auto D-PHY params, then powered up with auto params |
| Adv7481Bus.EdidTxns | drivers/media/video/adv7481.c:220-240 | set_edid writes the three HDMI set-up registers, then byte i of the EDID table to EDID address i for every i, then enables port A |
| Adv7481Routing.BaInpToAdv | drivers/media/video/adv7481.c:723-760 | BA CVBS 0..5 map to chip CVBS 1..6, TTL to TTL, and every other input (HDMI, MHL, unknown) to HDMI |
| Adv7481Routing.AnalogMuxSel | drivers/media/video/adv7481.c:591-630 | the mux selector is the CVBS channel minus one for CVBS and simultaneous inputs, else 0, always below 8 |
| Adv7481Routing.OpSrcSpec | drivers/media/video/adv7481.c:669-721 | CSIA does a read-modify-write of IO 0x00 and records the source even for an unknown input (then -EINVAL); CSIB refuses HDMI and TTL without touching state and records any other input with no register access; other outputs return -EINVAL and change nothing |
| Adv7481Routing.IpModeSpec | drivers/media/video/adv7481.c:632-667 | HDMI runs the HDMI sequence, CVBS the CVBS sequence, simultaneous inputs both in order; unsupported inputs issue nothing and return -EINVAL; otherwise 0 exactly when all writes succeeded |
| Adv7481Routing.SimMode | drivers/media/video/adv7481.c:651-662 | a simultaneous input programs HDMI then CVBS and succeeds exactly when every write of both succeeded |
| Adv7481Routing.AllWritesOkAppend | drivers/media/video/adv7481.c:659-661 | two batches issued one after the other all succeed exactly when each batch succeeds at its own log position |
| Adv7481Routing.Route | drivers/media/video/adv7481.c:762-790 | s_routing returns -EINTR with nothing changed when the mutex is not acquired, stops at a failing set_op_src, reprograms only when the mode differs, and otherwise returns set_ip_mode's code after set_op_src's and set_ip_mode's transactions, recording the new mode exactly when that code is 0; CSIA's recorded source becomes the mapped input whatever the result and CSIB's does on success, the other output's source is kept |
| Adv7481Routing.StreamPolicy | drivers/media/video/adv7481.c:1140-1163 | streaming on uses CSIA when it has a source (two lanes only for HDMI), else CSIB when it has one, else CSIA with one lane |
| Adv7481Routing.CsibRefusesHdmiAndTtl | drivers/media/video/adv7481.c:711-716 | routing HDMI or TTL to CSIB returns -EINVAL with no register access and no state change |
| Adv7481Routing.TtlOnCsiaKeepsMode | drivers/media/video/adv7481.c:700-709 | routing TTL to CSIA records TTL as CSIA's source but the mode change fails with -EINVAL and the mode is kept |
| Adv7481Routing.SameModeNoReprogram | drivers/media/video/adv7481.c:778-784 | when the chip is already in the requested mode, routing only sets the output source |
| Adv7481Routing.RouteIdempotent | drivers/media/video/adv7481.c:762-790 | repeating a successful routing succeeds, changes no state and issues at most the two CSIA transactions |
| Adv7481Routing.FailedModeChangeKeepsMode | drivers/media/video/adv7481.c:779-783 | when reprogramming fails, the error is returned and the mode stays as before while the source change is kept |
| Adv7481Timing.StdOf | drivers/media/video/adv7481.c:456-484 | the SD autodetect result maps to a V4L2 standard: unknown exactly for unlisted codes, SECAM for both SECAM codes, PAL-Nc plus PAL-N for PAL combination |
| Adv7481Timing.HiLo | drivers/media/video/adv7481.c:870-905 | a joined register pair splits back into the low register and the high register's masked bits, so it is below 0x2000 for the active width and 0x4000 for the other sizes |
| Adv7481Timing.ScalePixClk | drivers/media/video/adv7481.c:907-921 | the pixel clock is scaled by 4/5, 2/3 or 1/2 for 10-, 12- and 16-bit colour (rounded down) and kept otherwise |
| Adv7481Timing.FrameRate | drivers/media/video/adv7481.c:923-928 | the frame rate is left as it was when either total is zero; otherwise, while the first quotient fits 16 bits, it is the clock times the field factor divided by lines times pixels times (repetition + 1); a zero clock gives 0 |
| Adv7481Timing.FieldFactor | drivers/media/video/adv7481.c:865-867 | the field factor is 2 exactly for an interlaced signal, else 1 |
| Adv7481Timing.Poll | drivers/media/video/adv7481.c:823-836 | a lock poll takes at least one and at most the remaining tries' samples, ends at the first locked sample, and otherwise ends with the shared counter at the limit |
| Adv7481Timing.PollFrom | drivers/media/video/adv7481.c:823-849 | a poll whose first n-1 samples are unlocked and whose n-th is locked, or reaches the limit, ends after exactly n samples |
| Adv7481Timing.LockPollsBounded | drivers/media/video/adv7481.c:823-854 | the two polls share one counter, so together they read at most LOCK_NUM_TRIES+1 samples, and exactly that many when either times out |
| Adv7481Timing.DecodeParams | drivers/media/video/adv7481.c:857-928 | decoding the parameter reads builds each size from its register pair (low byte from the low register, high bits from the high register under the 0x1F00 or 0x3F00 mask), takes the interlace flag, pixel repetition and colour depth from their fields, scales the caller's pixel clock by ScalePixClk of that colour depth (so never raises it), and computes the frame rate by FrameRate from the decoded clock, field factor, totals and repetition (the caller's value when a total is zero) |
| Adv7481Timing.HdmiTimings | drivers/media/video/adv7481.c:792-935 | get_hdmi_timings returns -EBUSY after one read exactly when the PLL-lock field is 0, else 0 after 15 to 34 reads; a zero pixel clock stays zero |
| Adv7481Timing.HdmiLockedRun | drivers/media/video/adv7481.c:806-935 | after the PLL lock the run succeeds after 14 to 33 reads, keeps the lock flag and takes the TMDS frequency from the next two reads |
| Adv7481Timing.LockedReadsAt | drivers/media/video/adv7481.c:807-905 | the reads after the PLL lock are the two frequency reads, both polls and the ten parameter reads |
| Adv7481Timing.AfterLock | drivers/media/video/adv7481.c:811-928 | from those reads the run issues exactly the frequency reads, the polls and the parameter reads, and decodes the TMDS frequency from the first two |
| Adv7481Timing.SdPoll | drivers/media/video/adv7481.c:437-442 | the debounce reads pairs until a pair agrees or the tries run out; every earlier pair differed and the result is the last pair |
| Adv7481Timing.SdPollFrom | drivers/media/video/adv7481.c:437-442 | a debounce whose first n-1 pairs differ and whose n-th agrees, or uses the last try, ends after exactly n pairs with that pair |
| Adv7481Timing.SdTimings | drivers/media/video/adv7481.c:428-486 | get_sd_timings: -EINVAL for a null output; -ETIMEDOUT exactly when the last pair differs (after all 30 tries); -EBUSY exactly when it agrees without the lock bit; 0 exactly when it agrees with the lock bit, and then the standard of the autodetect field |
| Adv7481Timing.SdOutcome | drivers/media/video/adv7481.c:444-486 | the outcome of a debounce is decided by its last pair alone: -ETIMEDOUT exactly when it differs, -EBUSY exactly when it agrees with bit 0 clear, and 0 with the decoded standard exactly when it agrees with bit 0 set |
| Adv7481Timing.QuerySdStd | drivers/media/video/adv7481.c:977-1020 | query_sd_std always reads the lock status first; outside CVBS modes or for a null output it returns -EINVAL; otherwise a standard is always written: the decoded standard of get_sd_timings when the lock status read was zero and the debounce succeeded, UNKNOWN in every other case, with get_sd_timings' code |
| Adv7481Timing.QueryDv | drivers/media/video/adv7481.c:937-975 | query_dv_timings gives -EINVAL for a null output and -EINTR when the lock is interrupted; otherwise it succeeds exactly in HDMI or CVBS-1 simultaneous mode, reporting as BT.656/1120 the active width, the interlace flag and the active lines (halved when interlaced) that get_hdmi_timings read into a zeroed record, with a zero pixel clock and get_hdmi_timings' transactions; in other modes -EINVAL with zeroed timings and the mutex left held |
| Adv7481Timing.GFrameInterval | drivers/media/video/adv7481.c:1022-1029 | the frame interval is always 1/60 and the call succeeds |
| Adv7481Device.I2cBus.WrByte | drivers/media/video/adv7481.c:199-208 | a write appends itself to the log and returns the outcome at its position |
| Adv7481Device.I2cBus.RdByte | drivers/media/video/adv7481.c:210-218 | a read appends itself to the log and returns the outcome at its position |
| Adv7481Device.I2cBus.RdPair | drivers/media/video/adv7481.c:438-441 | two reads of one register append two log entries and return the outcomes at the two positions |
| Adv7481Device.I2cBus.Program | drivers/media/video/adv7481.c:226-239 | a batch appends its transactions in order and returns the OR of the write codes |
| Adv7481Device.I2cBus.ReadAll | drivers/media/video/adv7481.c:857-905 | a batch of reads appends them in order and returns the outcomes at their positions |
| Adv7481Device.Adv7481State.SetEdid | drivers/media/video/adv7481.c:220-240 | the EDID load appends the set-up, table and enable writes and returns their OR |
| Adv7481Device.Adv7481State.SetHdmiMode | drivers/media/video/adv7481.c:514-589 | the device issues the HDMI sequence and returns its code |
| Adv7481Device.Adv7481State.SetCvbsMode | drivers/media/video/adv7481.c:488-512 | the device issues the CVBS sequence, with the read-back value, and returns its code |
| Adv7481Device.Adv7481State.SetAnalogMux | drivers/media/video/adv7481.c:591-630 | the mux call returns 0 and issues no transaction |
| Adv7481Device.Adv7481State.SetIpMode | drivers/media/video/adv7481.c:632-667 | the device issues the mode sequence of IpMode and returns its code |
| Adv7481Device.Adv7481State.SetOpSrc | drivers/media/video/adv7481.c:669-721 | the device's sources, mode and log change exactly as OpSrc says; lanes and the mutex are untouched |
| Adv7481Device.Adv7481State.SRouting | drivers/media/video/adv7481.c:762-790 | s_routing changes sources, mode and log exactly as Route says, given whether the mutex was acquired, and releases the mutex |
| Adv7481Device.Adv7481State.RouteLocked | drivers/media/video/adv7481.c:772-784 | under the mutex, routing sets the source and then, if the mode differs, reprograms it, as RouteChip says |
| Adv7481Device.Adv7481State.ChangeMode | drivers/media/video/adv7481.c:778-784 | reprogramming issues IpMode's transactions and records the new mode only when it returned 0 |
| Adv7481Device.Adv7481State.CsiPowerup | drivers/media/video/adv7481.c:1067-1138 | the power-up issues the sequence for the output with the current lane count and returns its code |
| Adv7481Device.Adv7481State.SetOpStream | drivers/media/video/adv7481.c:1140-1163 | set_op_stream stores the lane count StreamPolicy chooses and powers up the chosen transmitter; sources and mode are untouched |
| Adv7481Device.Adv7481State.PollLock | drivers/media/video/adv7481.c:823-836 | one lock-poll loop reads the status register as often as Poll says and returns Poll's end |
| Adv7481Device.Adv7481State.PollBoth | drivers/media/video/adv7481.c:823-854 | the two lock-poll loops, sharing one counter, read as LockPolls says |
| Adv7481Device.Adv7481State.ReadLocked | drivers/media/video/adv7481.c:807-905 | after the PLL lock the device issues LockedTxns and returns the values LockedReadsAt gives |
| Adv7481Device.Adv7481State.GetHdmiTimings | drivers/media/video/adv7481.c:792-935 | the device's HDMI timing read returns and logs exactly what HdmiTimings says |
| Adv7481Device.Adv7481State.Debounce | drivers/media/video/adv7481.c:437-442 | the debounce loop reads status pairs as SdPoll says and returns its end |
| Adv7481Device.Adv7481State.GetSdTimings | drivers/media/video/adv7481.c:428-486 | the device's SD timing read returns and logs exactly what SdTimings says |
| Adv7481Device.Adv7481State.QuerySdStd | drivers/media/video/adv7481.c:977-1020 | the device's standard query returns and logs what QuerySdStd says for its current mode |
| Adv7481Device.Adv7481State.QueryDvTimings | drivers/media/video/adv7481.c:937-975 | the device's timing query returns what QueryDv says and keeps the mutex held exactly on the unsupported-mode path |
| MsmBaRegistry.NewEntry | drivers/video/msm/ba/msm_ba_common.c:129-151 | a new entry copies its catalogue row, records the row number and subdevice, has node address 0, and takes the signal status only when g_input_status succeeded |
| MsmBaRegistry.BatchOrdinal | drivers/video/msm/ba/msm_ba_common.c:120-124 | the batch ordinal is read from the starting row, which exists exactly when the start is inside the catalogue |
| MsmBaRegistry.ScanBound | drivers/video/msm/ba/msm_ba_common.c:125-156 | the scan adds at most one entry per successful allocation and per remaining row |
| MsmBaRegistry.ScanRows | drivers/video/msm/ba/msm_ba_common.c:125-143 | every added entry is built from a row at or after the start whose subdevice name prefixes the device's name and whose ordinal is the batch's |
| MsmBaRegistry.ScanOrdered | drivers/video/msm/ba/msm_ba_common.c:125-153 | added entries are in increasing row order, so no row is registered twice by one probe |
| MsmBaRegistry.ScanComplete | drivers/video/msm/ba/msm_ba_common.c:129-133 | if fewer entries were added than allocations were available, every matching row got its entry |
| MsmBaRegistry.AddAppends | drivers/video/msm/ba/msm_ba_common.c:107-157 | add_inputs keeps the existing entries in order, raises the counter by the number of entries added, and adds nothing from a start past the catalogue |
| MsmBaRegistry.AddEntry | drivers/video/msm/ba/msm_ba_common.c:125-153 | each appended entry comes from a matching row of the batch the starting row names, after the previous entry's row |
| MsmBaRegistry.AddComplete | drivers/video/msm/ba/msm_ba_common.c:125-156 | with enough successful allocations every matching row of the batch from the start on is registered |
| MsmBaRegistry.ReprobeReadsPastCatalogue | drivers/video/msm/ba/msm_ba_common.c:119-123 | probing two ADV7180s and the ADV7481, removing the ADV7481 and probing it again starts at row 7, past the 7-row catalogue, because the counter stayed at 7 |
| MsmBaRegistry.RemoveSdExact | drivers/video/msm/ba/msm_ba_common.c:159-175 | del_inputs keeps exactly the entries of other subdevices and removes every entry of the given one |
| MsmBaRegistry.RemoveSdAbsent | drivers/video/msm/ba/msm_ba_common.c:165-172 | removing a subdevice with no entries leaves the list unchanged |
| MsmBaRegistry.RemoveSdAppend | drivers/video/msm/ba/msm_ba_common.c:165-172 | removal from a concatenation is the concatenation of the removals, so order is kept |
| MsmBaRegistry.FindInput | drivers/video/msm/ba/msm_ba_common.c:177-193 | find_input gives the first entry with the row number, or none exactly when no entry has it |
| MsmBaRegistry.FindOutput | drivers/video/msm/ba/msm_ba_common.c:195-212 | find_output gives the first entry with the output ordinal, or none exactly when no entry has it |
| MsmBaRegistry.SdFind | drivers/video/msm/ba/msm_ba_common.c:90-105 | sd_find gives the first subdevice whose name is exactly the given one, or none exactly when there is none |
| MsmBaRegistry.BaDev.AddInputs | drivers/video/msm/ba/msm_ba_common.c:107-157 | the add loop leaves the list and counter as AfterAdd says, stopping at the first failed allocation |
| MsmBaRegistry.BaDev.DelInputs | drivers/video/msm/ba/msm_ba_common.c:159-175 | the removal loop leaves the list as RemoveSd says and the counter unchanged |
| MsmBaControls.Ilog2 | drivers/video/msm/ba/msm_ba_common.c:62-67 | ilog2 is the exponent of the largest power of two not above its argument |
| MsmBaControls.GFpsOutcomes | drivers/video/msm/ba/msm_ba_common.c:214-244 | g_fps returns -EINVAL without instance, output or subdevice, returns the subdevice's code otherwise, and stores a value exactly when it returns 0 |
| MsmBaControls.Q16Bounds | drivers/video/msm/ba/msm_ba_common.c:62-67 | for den below 2^17 and 0 < num < 2^15 the Q16 value q satisfies num/den <= q/2^16 < 2 num/den |
| MsmBaControls.Adv7481Fps | drivers/video/msm/ba/msm_ba_common.c:234-237 | with the ADV7481's 1/60 interval g_fps returns 0 and stores 2048 |
| MsmBaControls.ZeroDenominator | drivers/video/msm/ba/msm_ba_common.c:238-241 | with a zero denominator the stored u32 has low half 1 and high half the numerator's low 16 bits |
| MsmBaControls.TryGetOutcomes | drivers/video/msm/ba/msm_ba_common.c:246-283 | try_get_ctrl fails with -EINVAL without an instance or for an unknown id; the node address is read exactly when find_input finds the input; a failed read leaves the value |
| MsmBaControls.TryGetFresh | drivers/video/msm/ba/msm_ba_common.c:246-283 | a successful read does not depend on the previous value, and reading again gives the same answer |
| MsmBaControls.TrySetOutcomes | drivers/video/msm/ba/msm_ba_common.c:285-319 | try_set_ctrl succeeds exactly for the node address of a registered input and then changes only that entry's node address; otherwise -EINVAL and nothing changes (the frame rate is read-only) |
| MsmBaControls.SetKeepsFind | drivers/video/msm/ba/msm_ba_common.c:298-301 | writing a node address keeps every row number, so find_input finds the same entry |
| MsmBaControls.NodeAddrRoundTrip | drivers/video/msm/ba/msm_ba_common.c:246-319 | after a successful set of v, a get of the node address returns 0 and v |
| MsmBaControls.TrySetCtrl | drivers/video/msm/ba/msm_ba_common.c:285-319 | the set on the context's list changes it as TrySet says and leaves the counter |
| MsmBaControls.UnflaggedIgnored | drivers/video/msm/ba/msm_ba_common.c:331-333 | members not marked new are never applied: the cluster acts as its flagged members alone |
| MsmBaControls.ClusterSplit | drivers/video/msm/ba/msm_ba_common.c:331-340 | a cluster applies in order and stops at the first failure: a later part is applied only if the earlier part succeeded |
| MsmBaControls.ClusterSucceeds | drivers/video/msm/ba/msm_ba_common.c:321-343 | setting a cluster succeeds exactly when every flagged member is the node address of a registered input; a failure is -EINVAL |
| MsmBaControls.OpSCtrl | drivers/video/msm/ba/msm_ba_common.c:321-343 | the s_ctrl loop leaves the list and returns the code as OpSCtrlSpec says |
| MsmBaControls.OpGVolatileCtrl | drivers/video/msm/ba/msm_ba_common.c:345-364 | g_volatile_ctrl gives the result of one try_get when the id is in the cluster, however often it appears, and 0 with the value untouched otherwise |

## Left out

- Register field positions and code values of `adv7481_reg.h` are not part of this model. A `RegLayout` parameter gives each field's bit position and width within its register, and the values of the colour-depth and autodetect codes. Every field is assumed to be a run of contiguous bits.
- The I2C transport (`i2c_smbus_read_byte_data`, `i2c_smbus_write_byte_data`) is an outcome sequence indexed by log position. A position past the end of the sequence answers 0. Write values are logged as the symbolic expression the driver computes where they depend on a header constant.
- The delays (`usleep`, `usleep_range`, `msleep`) do not change any state and are not modelled.
- Adv7481Device.Adv7481State.constructor: starts with no source on either transmitter and mode `IpNone`. The driver zero-fills the record and never assigns these fields at probe. So the model assumes `ADV7481_IP_NONE` is the zero value of its enumeration, which `<media/adv7481.h>` declares. That header is not part of this model. If another input were the zero value, a fresh device would behave differently: its first routing to that input would skip reprogramming, and `query_sd_std` would run the debounce.
- The mutex is a `held` flag. Whether `mutex_lock_interruptible` is interrupted is a parameter.
- `Adv7481Device.Adv7481State.SRouting` and `Adv7481Device.Adv7481State.QueryDvTimings` return -EINTR at once when they find the mutex held. The driver instead sleeps until the mutex is released or a signal arrives. So the model hides the wait that follows the mutex left held by `query_dv_timings`: every later `s_routing` or `query_dv_timings` blocks until a signal arrives.
- The platform glue of `adv7481.c` is not modelled. This covers probe and remove, `hw_init`, `dev_init`, `s_power`/`powerup`, `s_ctrl`, `g_mbus_fmt`, `g_input_status`, `s_stream`, control initialisation, media entities and module tables.
- Of `msm_ba_common.c`, the following are not modelled: `get_ba_dev` (the context is the `BaDev` object), `queue_v4l2_event`, control init and deinit, the super-cluster and the ctrl-ops getter.
- `MsmBaRegistry.BaDev.AddInputs` assumes every `g_input_status` call of one probe gives the same answer. It takes that answer as a parameter. It also takes as a parameter how many allocations succeed.
- `MsmBaRegistry.NewEntry` copies the catalogue name whole. The size of `msm_ba_input`'s name field, which `strlcpy` truncates to, is not part of this model.
- Subdevices are identities with names, and control ids are a datatype. Unknown ids are assumed to differ from the two private ones.
- List nodes are sequence entries, so freeing a node is not modelled.
- `MsmBaControls.TryGet` assumes the subdevice gives the same frame interval on every call.
- `MsmBaControls.FracToQ16` does not give a value when `ilog2(den)` exceeds 16. There the shift count wraps past the word width, which C leaves undefined.
- Concurrency is not modelled: there is no interleaving of driver calls, and the BA context lock is not modelled.

## Findings

| source | as written | input that shows it | evidently intended | confidence | as-written member | corrected member |
|---|---|---|---|---|---|---|
| drivers/video/msm/ba/msm_ba_common.c:120-123 | the batch ordinal is read from `msm_ba_inp_cfg[start_index]` with `start_index = num_inputs`, without checking that the row exists | probe the two ADV7180s (rows 0-2 and 3-5) and the ADV7481 (row 6), remove the ADV7481 (6 entries left, `num_inputs` stays 7), then probe the ADV7481 again: row 7 of a 7-row table is read | no read outside the catalogue; a start past its end adds nothing | high, not executed | MsmBaRegistry.BatchOrdinalAsWritten, MsmBaRegistry.ReprobeReadsPastCatalogue | MsmBaRegistry.BatchOrdinal, MsmBaRegistry.AddAppends |
