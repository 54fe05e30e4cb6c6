/**
 * The ADV7481 device record and the driver operations that change it.
 *
 * The record keeps the routing fields (csia_src, csib_src, mode), the lane
 * count of the CSI transmitters and the device mutex, together with the log
 * of every register transaction issued so far.  Each method is specified by
 * the function of the same operation in Adv7481Bus, Adv7481Routing or
 * Adv7481Timing, applied at the log position where the method starts.
 */
module Adv7481Device {
  import opened CInt
  import opened MsmBaTypes
  import opened Adv7481Types
  import opened Adv7481Bus
  import opened Adv7481Routing
  import opened Adv7481Timing

  /** Appending two batches to the log one after the other appends both at once. */
  lemma LogAppend(log: seq<Txn>, xs: seq<Txn>, ys: seq<Txn>)
    ensures log + xs + ys == log + (xs + ys)
  {
  }

  /** The log of the HDMI timing reads after the PLL-lock read, regrouped. */
  lemma HdmiLog(log: seq<Txn>, a: Txn, b: Txn, r1: seq<Txn>, r2: seq<Txn>, p: seq<Txn>)
    ensures log + [a] + [b] + r1 + r2 + p == log + ([a, b] + r1 + r2 + p)
  {
  }

  /**
   * The I2C side of the device: the outcome oracle and the log of every
   * transaction issued through any of the chip's clients.
   */
  class I2cBus {
    /** The outcome of the transaction at each log position. */
    const outcome: Replies
    var log: seq<Txn>

    constructor(outcome: Replies)
      ensures this.outcome == outcome && log == []
    {
      this.outcome := outcome;
      log := [];
    }

    /** adv7481_wr_byte: one write, whose code is the outcome at its position. */
    method WrByte(t: Target, r: Reg, v: Val) returns (rc: Int32)
      modifies this
      ensures log == old(log) + [Write(t, r, v)]
      ensures rc == Answer(outcome, |old(log)|)
    {
      rc := Answer(outcome, |log|);
      log := log + [Write(t, r, v)];
    }

    /** adv7481_rd_byte: one read, returning the outcome at its position. */
    method RdByte(t: Target, r: Reg) returns (x: Int32)
      modifies this
      ensures log == old(log) + [Read(t, r)]
      ensures x == Answer(outcome, |old(log)|)
    {
      x := Answer(outcome, |log|);
      log := log + [Read(t, r)];
    }

    /** Two reads of one register in a row; `at` names the current log position. */
    method RdPair(t: Target, r: Reg, ghost at: nat) returns (x: Int32, y: Int32)
      requires at == |log|
      modifies this
      ensures log == old(log) + [Read(t, r), Read(t, r)]
      ensures x == Answer(outcome, at) && y == Answer(outcome, at + 1)
    {
      x := RdByte(t, r);
      y := RdByte(t, r);
    }

    /**
     * Issues a fixed register sequence in order, OR-ing every write's code
     * into the result and carrying on after a failure.
     */
    method Program(txns: seq<Txn>) returns (ret: Int32)
      modifies this
      ensures log == old(log) + txns
      ensures ret == WritesResult(outcome, |old(log)|, txns)
    {
      var k := |log|;
      ret := 0;
      var i := 0;
      while i < |txns|
        invariant 0 <= i <= |txns|
        invariant log == old(log) + txns[..i]
        invariant ret == WritesResult(outcome, k, txns[..i])
      {
        var x := txns[i];
        var rc: Int32 := 0;
        if x.Write? {
          rc := WrByte(x.t, x.r, x.v);
        } else {
          var _ := RdByte(x.t, x.r);
        }
        WritesResultTake(outcome, k, old(log), txns, i);
        ret := OrErr(ret, rc);
        i := i + 1;
      }
      assert txns[..|txns|] == txns;
    }

    /**
     * Issues a list of reads in order and returns what each one read; `at`
     * names the current log position.
     */
    method ReadAll(txns: seq<Txn>, ghost at: nat) returns (vals: seq<Int32>)
      requires forall i :: 0 <= i < |txns| ==> txns[i].Read?
      requires at == |log|
      modifies this
      ensures log == old(log) + txns
      ensures vals == Samples(outcome, at, |txns|)
    {
      var k := |log|;
      vals := [];
      var i := 0;
      while i < |txns|
        invariant 0 <= i <= |txns|
        invariant log == old(log) + txns[..i]
        invariant vals == Samples(outcome, k, i)
      {
        var x := RdByte(txns[i].t, txns[i].r);
        TakeStep(old(log), txns, i);
        vals := vals + [x];
        i := i + 1;
      }
      assert txns[..|txns|] == txns;
    }
  }

  class Adv7481State {
    /** The chip's I2C clients. */
    const i2c: I2cBus
    /** The field layout of adv7481_reg.h. */
    const layout: RegLayout

    var csiaSrc: AdvInput
    var csibSrc: AdvInput
    var mode: AdvInput
    var txLanes: Lanes
    /** Whether the device mutex is held. */
    var held: bool

    function Routing(): Routing
      reads this
    {
      Adv7481Routing.Routing(csiaSrc, csibSrc, mode)
    }

    /**
     * The state after probe: a zeroed record (no source, no mode), one
     * lane and the mutex free.
     */
    constructor(i2c: I2cBus, layout: RegLayout)
      ensures this.i2c == i2c && this.layout == layout
      ensures !held && txLanes == OneLane
      ensures Routing() == Adv7481Routing.Routing(IpNone, IpNone, IpNone)
    {
      this.i2c := i2c;
      this.layout := layout;
      csiaSrc := IpNone;
      csibSrc := IpNone;
      mode := IpNone;
      txLanes := OneLane;
      held := false;
    }

    /**
     * adv7481_set_edid: the three HDMI-map writes, the driver's default
     * table byte by byte, and the port enable, codes OR-ed.
     */
    method SetEdid() returns (ret: Int32)
      modifies i2c
      ensures i2c.log == old(i2c.log) + EdidTxns(EdidData)
      ensures ret == WritesResult(i2c.outcome, |old(i2c.log)|, EdidTxns(EdidData))
    {
      ret := i2c.Program(EdidTxns(EdidData));
    }

    /** adv7481_set_hdmi_mode. */
    method SetHdmiMode() returns (ret: Int32)
      modifies i2c
      ensures var o := HdmiMode(i2c.outcome, |old(i2c.log)|); ret == o.ret && i2c.log == old(i2c.log) + o.txns
    {
      ret := i2c.Program(HdmiModeTxns);
    }

    /**
     * adv7481_set_cvbs_mode: the setup writes, then a read-modify-write of
     * the pixel-select register routing the SD core to the 4-lane
     * transmitter, then the autodetect enable.
     */
    method SetCvbsMode() returns (ret: Int32)
      modifies i2c
      ensures var o := CvbsMode(i2c.outcome, |old(i2c.log)|); ret == o.ret && i2c.log == old(i2c.log) + o.txns
    {
      var k := |i2c.log|;
      ret := i2c.Program(CvbsSetupTxns);
      var x := i2c.RdByte(Io, CsiPixEnSel);
      var readBack := Low8(x);
      var sel := Write(Io, CsiPixEnSel, SdToCsi4(readBack));
      var rc := i2c.WrByte(Io, CsiPixEnSel, SdToCsi4(readBack));
      WritesResultSnoc(i2c.outcome, k, CvbsSetupTxns, Read(Io, CsiPixEnSel));
      WritesResultSnoc(i2c.outcome, k, CvbsSetupTxns + [Read(Io, CsiPixEnSel)], sel);
      ret := OrErr(OrErr(ret, 0), rc);
      var autodetect := W(Sdp, 0x0e, 0x81);
      rc := i2c.WrByte(Sdp, At(0x0e), Lit(0x81));
      WritesResultSnoc(i2c.outcome, k, CvbsSetupTxns + [Read(Io, CsiPixEnSel)] + [sel], autodetect);
      ret := OrErr(ret, rc);
      assert CvbsModeTxns(readBack) == CvbsSetupTxns + [Read(Io, CsiPixEnSel)] + [sel] + [autodetect];
    }

    /** adv7481_set_analog_mux: the selector is computed but never written. */
    method SetAnalogMux(input: AdvInput) returns (ret: Int32)
      ensures ret == 0
    {
      var ainSel := AnalogMuxSel(input);
      ret := 0;
    }

    /** adv7481_set_ip_mode. */
    method SetIpMode(input: AdvInput) returns (ret: Int32)
      modifies i2c
      ensures var o := IpMode(i2c.outcome, |old(i2c.log)|, input); ret == o.ret && i2c.log == old(i2c.log) + o.txns
    {
      match input {
        case IpHdmi =>
          ret := SetHdmiMode();
        case IpCvbs(_) =>
          ret := SetCvbsMode();
          var mux := SetAnalogMux(input);
          ret := OrErr(ret, mux);
        case IpCvbsHdmiSim(_) =>
          ret := SetHdmiMode();
          var c := SetCvbsMode();
          ret := OrErr(ret, c);
          var mux := SetAnalogMux(input);
          ret := OrErr(ret, mux);
        case _ =>
          ret := -EINVAL;
      }
    }

    /** adv7481_set_op_src. */
    method SetOpSrc(output: AdvOutput, input: AdvInput) returns (ret: Int32)
      modifies this, i2c
      ensures var s := OpSrc(i2c.outcome, |old(i2c.log)|, output, input, old(Routing()));
        ret == s.ret && csiaSrc == s.st.csiaSrc && csibSrc == s.st.csibSrc && mode == s.st.mode
        && i2c.log == old(i2c.log) + s.txns
      ensures txLanes == old(txLanes) && held == old(held)
    {
      ret := 0;
      match output {
        case OpCsiA =>
          var bits := CsiaBits(input);
          var val := 0;
          if bits.None? {
            ret := -EINVAL;
          } else {
            val := bits.value;
          }
          var temp := i2c.RdByte(Io, At(0x00));
          var _ := i2c.WrByte(Io, At(0x00), Lit(Low8(Or(temp, val))));
          csiaSrc := input;
        case OpCsiB =>
          if input != IpHdmi && input != IpTtl {
            csibSrc := input;
          } else {
            ret := -EINVAL;
          }
        case _ =>
          ret := -EINVAL;
      }
    }

    /**
     * adv7481_s_routing.  The mutex is taken unless the wait for it is
     * interrupted, which returns -EINTR.  A mutex already held is treated
     * the same way: the driver would sleep until it is released or a signal
     * ends the wait, and the model keeps only the second outcome.  The
     * mutex is free again when the call returns.
     */
    method SRouting(input: BaInput, output: AdvOutput, interrupted: bool) returns (ret: Int32)
      modifies this, i2c
      ensures var s := Route(i2c.outcome, |old(i2c.log)|, input, output, old(Routing()), !old(held) && !interrupted);
        ret == s.ret && csiaSrc == s.st.csiaSrc && csibSrc == s.st.csibSrc && mode == s.st.mode
        && i2c.log == old(i2c.log) + s.txns
      ensures txLanes == old(txLanes) && held == old(held)
    {
      if held || interrupted {
        return -EINTR;
      }
      held := true;
      ret := RouteLocked(BaInpToAdv(input), output);
      held := false;
    }

    /** The body of adv7481_s_routing between taking and releasing the mutex. */
    method RouteLocked(adv: AdvInput, output: AdvOutput) returns (ret: Int32)
      modifies this, i2c
      ensures var s := RouteChip(i2c.outcome, |old(i2c.log)|, adv, output, old(Routing()));
        ret == s.ret && csiaSrc == s.st.csiaSrc && csibSrc == s.st.csibSrc && mode == s.st.mode
        && i2c.log == old(i2c.log) + s.txns
      ensures txLanes == old(txLanes) && held == old(held)
    {
      ghost var k, st, log0 := |i2c.log|, Routing(), i2c.log;
      ghost var src := OpSrc(i2c.outcome, k, output, adv, st);
      ret := SetOpSrc(output, adv);
      if ret == 0 && mode != adv {
        ghost var j := k + |src.txns|;
        ret := ChangeMode(adv, j);
        LogAppend(log0, src.txns, IpMode(i2c.outcome, j, adv).txns);
        assert RouteChip(i2c.outcome, k, adv, output, st) == Reprogram(i2c.outcome, j, adv, src);
      } else {
        assert RouteChip(i2c.outcome, k, adv, output, st) == src;
      }
    }

    /**
     * Reprograms the front end and records the mode when that succeeds; `at`
     * names the current log position.
     */
    method ChangeMode(adv: AdvInput, ghost at: nat) returns (ret: Int32)
      requires at == |i2c.log|
      modifies this, i2c
      ensures var m := IpMode(i2c.outcome, at, adv);
        && ret == m.ret && i2c.log == old(i2c.log) + m.txns
        && mode == (if m.ret == 0 then adv else old(mode))
      ensures csiaSrc == old(csiaSrc) && csibSrc == old(csibSrc)
      ensures txLanes == old(txLanes) && held == old(held)
    {
      ret := SetIpMode(adv);
      if ret == 0 {
        mode := adv;
      }
    }

    /** adv7481_csi_powerup with the lane count currently configured. */
    method CsiPowerup(output: AdvOutput) returns (ret: Int32)
      modifies i2c
      ensures var o := Adv7481Bus.CsiPowerup(i2c.outcome, |old(i2c.log)|, output, old(txLanes));
        ret == o.ret && i2c.log == old(i2c.log) + o.txns
    {
      ret := i2c.Program(CsiPowerupTxns(output, txLanes));
    }

    /**
     * adv7481_set_op_stream: sets the lane count the stream policy picks and
     * powers up the transmitter it picks.
     */
    method SetOpStream(on: bool) returns (ret: Int32)
      modifies this, i2c
      ensures var p := StreamPolicy(on, old(csiaSrc), old(csibSrc));
        var o := Adv7481Bus.CsiPowerup(i2c.outcome, |old(i2c.log)|, p.0, p.1);
        && txLanes == p.1
        && ret == o.ret && i2c.log == old(i2c.log) + o.txns
      ensures csiaSrc == old(csiaSrc) && csibSrc == old(csibSrc) && mode == old(mode) && held == old(held)
    {
      if on && csiaSrc != IpNone {
        if csiaSrc == IpHdmi {
          txLanes := TwoLanes;
          ret := CsiPowerup(OpCsiA);
        } else {
          txLanes := OneLane;
          ret := CsiPowerup(OpCsiA);
        }
      } else if on && csibSrc != IpNone {
        txLanes := OneLane;
        ret := CsiPowerup(OpCsiB);
      } else {
        txLanes := OneLane;
        ret := CsiPowerup(OpCsiA);
      }
    }

    /**
     * One do/while lock poll of adv7481_get_hdmi_timings, continuing the
     * shared counter from `count`; `at` names the current log position.
     */
    method PollLock(which: LockCheck, count: nat, ghost at: nat) returns (p: PollEnd)
      requires at == |i2c.log|
      modifies i2c
      ensures p == Poll(i2c.outcome, layout, which, at, count)
      ensures i2c.log == old(i2c.log) + Reads(PollRead(which), p.samples)
    {
      var samples, count' := 0, count;
      while true
        invariant count' == count + samples
        invariant samples > 0 ==> count' < LockTries
        invariant i2c.log == old(i2c.log) + Reads(PollRead(which), samples)
        invariant forall j :: at <= j < at + samples ==> !LockedAt(i2c.outcome, layout, which, j)
        decreases LockTries - samples
      {
        var x := i2c.RdByte(PollRead(which).t, PollRead(which).r);
        assert LockedAt(i2c.outcome, layout, which, at + samples) == Locked(layout, which, x);
        LogAppend(old(i2c.log), Reads(PollRead(which), samples), [PollRead(which)]);
        ReadsSnoc(PollRead(which), samples);
        samples := samples + 1;
        if Locked(layout, which, x) {
          PollFrom(i2c.outcome, layout, which, at, count, samples);
          return PollEnd(samples, count', true);
        }
        count' := count' + 1;
        if count' >= LockTries {
          PollFrom(i2c.outcome, layout, which, at, count, samples);
          return PollEnd(samples, count', false);
        }
      }
    }

    /** adv7481_get_hdmi_timings on the caller's two parameter records. */
    method GetHdmiTimings(vid: VidParams, hdmi: HdmiParams)
      returns (ret: Int32, vid': VidParams, hdmi': HdmiParams)
      modifies i2c
      ensures var h := HdmiTimings(i2c.outcome, layout, |old(i2c.log)|, vid, hdmi);
        ret == h.ret && vid' == h.vid && hdmi' == h.hdmi && i2c.log == old(i2c.log) + h.txns
    {
      var pll := i2c.RdByte(Hdmi, HdmiParam4);
      hdmi' := hdmi.(pllLock := GetField(layout.pllLocked, pll));
      if hdmi'.pllLock == 0 {
        return -EBUSY, vid, hdmi';
      }
      var v := ReadLocked(|i2c.log|);
      var r := AfterLock(layout, vid, hdmi', v);
      LogAppend(old(i2c.log), [Read(Hdmi, HdmiParam4)], r.txns);
      return 0, r.vid, r.hdmi;
    }

    /**
     * The reads of adv7481_get_hdmi_timings once the PLL is locked: the
     * TMDS frequency, the two lock polls on one shared counter, and the
     * parameter registers; `at` names the current log position.
     */
    method ReadLocked(ghost at: nat) returns (v: LockedReads)
      requires at == |i2c.log|
      modifies i2c
      ensures v == LockedReadsAt(i2c.outcome, layout, at)
      ensures i2c.log == old(i2c.log) + LockedTxns(v.polls)
    {
      var f1 := i2c.RdByte(Hdmi, TmdsFreq);
      var f2 := i2c.RdByte(Hdmi, TmdsFreqFrac);
      assert f2 == Answer(i2c.outcome, at + 1);
      var p1, p2 := PollBoth(at + 2);
      var raw := i2c.ReadAll(ParamReads, at + 2 + p1.samples + p2.samples);
      v := LockedReads(f1, f2, LockRun(p1, p2), raw);
      HdmiLog(old(i2c.log), Read(Hdmi, TmdsFreq), Read(Hdmi, TmdsFreqFrac),
              Reads(PollRead(DeRegenLock), p1.samples), Reads(PollRead(FilterLock), p2.samples), ParamReads);
    }

    /**
     * Both lock polls of adv7481_get_hdmi_timings, on one shared counter;
     * `at` names the current log position.
     */
    method PollBoth(ghost at: nat) returns (p1: PollEnd, p2: PollEnd)
      requires at == |i2c.log|
      modifies i2c
      ensures LockRun(p1, p2) == LockPolls(i2c.outcome, layout, at)
      ensures i2c.log == old(i2c.log) + Reads(PollRead(DeRegenLock), p1.samples)
                                      + Reads(PollRead(FilterLock), p2.samples)
    {
      ghost var k := at;
      p1 := PollLock(DeRegenLock, 0, k);
      p2 := PollLock(FilterLock, p1.count, k + p1.samples);
    }

    /**
     * adv7481_get_sd_timings; `stdNull` says the out-pointer is null and
     * `at` names the current log position.
     */
    method GetSdTimings(stdNull: bool, ghost at: nat) returns (ret: Int32, std: Option<int>)
      requires at == |i2c.log|
      modifies i2c
      ensures var r := SdTimings(i2c.outcome, layout, at, stdNull);
        ret == r.ret && std == r.std && i2c.log == old(i2c.log) + r.txns
    {
      if stdNull {
        return -EINVAL, None;
      }
      var p := Debounce();
      if p.s1 != p.s2 {
        return -ETIMEDOUT, None;
      }
      if p.s1 % 2 == 0 {
        return -EBUSY, None;
      }
      return 0, Some(StdOf(AdResultOf(layout, p.s1)));
    }

    /** The do/while of adv7481_get_sd_timings: pairs of STATUS1 reads until two agree. */
    method Debounce() returns (p: SdPollEnd)
      modifies i2c
      ensures p == SdPoll(i2c.outcome, |old(i2c.log)|, 0)
      ensures i2c.log == old(i2c.log) + Reads(Read(Sdp, SdpStatus1), 2 * p.pairs)
    {
      var k := |i2c.log|;
      var rd := Read(Sdp, SdpStatus1);
      var timeout := 0;
      var s1, s2;
      while true
        invariant timeout < SdTries
        invariant i2c.log == old(i2c.log) + Reads(rd, 2 * timeout)
        invariant forall q :: 0 <= q < timeout ==> PairDiffers(i2c.outcome, k, q)
        decreases SdTries - timeout
      {
        s1, s2 := i2c.RdPair(Sdp, SdpStatus1, k + 2 * timeout);
        LogAppend(old(i2c.log), Reads(rd, 2 * timeout), [rd, rd]);
        ReadsTwice(rd, 2 * timeout);
        if s1 == s2 || timeout + 1 >= SdTries {
          SdPollFrom(i2c.outcome, k, 0, timeout + 1, k + 2 * timeout);
          return SdPollEnd(timeout + 1, s1, s2);
        }
        assert PairDiffers(i2c.outcome, k, timeout);
        timeout := timeout + 1;
      }
    }

    /** adv7481_query_sd_std; `stdNull` says the out-pointer is null. */
    method QuerySdStd(stdNull: bool) returns (ret: Int32, std: Option<int>)
      modifies i2c
      ensures var q := Adv7481Timing.QuerySdStd(i2c.outcome, layout, |old(i2c.log)|, old(mode), stdNull);
        ret == q.ret && std == q.std && i2c.log == old(i2c.log) + q.txns
    {
      var status := i2c.RdByte(Sdp, SdpVdecLock);
      if stdNull || !IsCvbs(mode) {
        return -EINVAL, None;
      }
      var temp := 0;
      var sd;
      ghost var sdRun := SdTimings(i2c.outcome, layout, |old(i2c.log)| + 1, false);
      ret, sd := GetSdTimings(false, |old(i2c.log)| + 1);
      LogAppend(old(i2c.log), [Read(Sdp, SdpVdecLock)], sdRun.txns);
      if sd.Some? {
        temp := sd.value;
      }
      std := Some(if status == 0 then temp else StdUnknown);
    }

    /**
     * adv7481_query_dv_timings; `timingsNull` says the out-pointer is null.
     * The mutex stays held after a call that returns -EINVAL from an
     * unsupported mode.
     */
    method QueryDvTimings(timingsNull: bool, interrupted: bool) returns (ret: Int32, timings: Option<BtTimings>)
      modifies this, i2c
      ensures var q := QueryDv(i2c.outcome, layout, |old(i2c.log)|, old(mode), timingsNull, !old(held) && !interrupted);
        && ret == q.ret && timings == q.timings && i2c.log == old(i2c.log) + q.txns
        && held == (old(held) || q.keepsLock)
      ensures csiaSrc == old(csiaSrc) && csibSrc == old(csibSrc) && mode == old(mode) && txLanes == old(txLanes)
    {
      if timingsNull {
        return -EINVAL, None;
      }
      if held || interrupted {
        return -EINTR, None;
      }
      held := true;
      timings := Some(ZeroTimings);
      if mode == IpHdmi || mode == IpCvbsHdmiSim(1) {
        var _, v, _ := GetHdmiTimings(ZeroVid, ZeroHdmi);
        var interlaced := v.intrlcd != 0;
        var height := v.actLines;
        if interlaced {
          height := height / 2;
        }
        timings := Some(BtTimings(true, v.actPix, height, v.pixClk, interlaced));
        held := false;
        ret := 0;
      } else {
        ret := -EINVAL;
      }
    }
  }
}
