/**
 * The register traffic of the ADV7481: the eight I2C clients, the registers
 * the driver names, the values it writes, and the fixed write sequences that
 * program the HDMI front end, the composite (CVBS) front end, the MIPI CSI
 * transmitters and the EDID memory.
 *
 * What a transaction returns (the byte a read returns, or the code a write
 * returns) is the chip's reply at the position of the transaction in the
 * append-only log of all transactions issued.
 */
module Adv7481Bus {
  import opened CInt
  import opened Adv7481Types

  /**
   * The chip's replies, by log position.  Positions past the end of the
   * sequence reply 0: a write that succeeds, a read of 0.
   */
  type Replies = seq<Int32>

  function Answer(bus: Replies, j: nat): Int32
  {
    if j < |bus| then bus[j] else 0
  }

  /** The I2C clients: the IO map and the sub-maps created at probe time. */
  datatype Target = Io | CsiTxA | CsiTxB | Hdmi | Edid | Cp | Sdp | Rep

  /**
   * A register: a literal address, or one named in adv7481_reg.h, whose
   * address is not part of this model.
   */
  datatype Reg =
    | At(addr: Byte)
    | PwrDownCtrl | CsiPixEnSel | TxCfg1
    | HdmiParam4 | TmdsFreq | TmdsFreqFrac | RawStatus3
    | LineWidth1 | LineWidth2 | Field1Height1 | HdmiParam5
    | TotalLineWidth1 | TotalLineWidth2 | Field0Height1 | Field0Height2
    | Field0TotalHeight1 | Field0TotalHeight2
    | SdpStatus1 | SdpVdecLock

  /**
   * A written value: a literal byte, or one assembled from named bit fields
   * (ADV_REG_SETFIELD), kept symbolic because the field positions are not
   * part of this model.
   */
  datatype Val =
    | Lit(b: Byte)
      /** RX_EN set; RX, XTAL, CORE and MASTER power-down clear. */
    | RxEnable
      /** CSI_PIX_EN_SEL with CSI4_IN_SEL clear and the named enables. */
    | PixSel(csi4En: bool, csi1En: bool, pixOutEn: bool, sdThruPixOut: bool)
      /** A read-back byte with CSI4_IN_SEL set to 0x10 (SD core to the 4-lane Tx). */
    | SdToCsi4(readBack: Byte)
      /** TX_CFG1 of a CSI transmitter. */
    | Cfg1(pwrDn: bool, autoParams: bool, lanes: Lanes)

  datatype Txn = Read(t: Target, r: Reg) | Write(t: Target, r: Reg, v: Val)

  /** The return code and the transactions of one register sequence. */
  datatype Outcome = Outcome(ret: Int32, txns: seq<Txn>)

  function W(t: Target, addr: Byte, b: Byte): Txn { Write(t, At(addr), Lit(b)) }

  /** What one transaction contributes to `ret |= ...`: a read contributes nothing. */
  function Effect(x: Txn, rc: Int32): Int32 { if x.Write? then rc else 0 }

  /** Every write of `txns`, issued from log position k, returned 0. */
  ghost predicate AllWritesOk(bus: Replies, k: nat, txns: seq<Txn>)
  {
    forall i :: 0 <= i < |txns| && txns[i].Write? ==> Answer(bus, k + i) == 0
  }

  /** Some write of `txns`, issued from log position k, returned an error. */
  ghost predicate SomeWriteFailed(bus: Replies, k: nat, txns: seq<Txn>)
  {
    exists i :: 0 <= i < |txns| && txns[i].Write? && Answer(bus, k + i) < 0
  }

  /**
   * The accumulated `ret` after issuing `txns` from log position k, with each
   * write's code OR-ed in from left to right and no write skipped.
   */
  function WritesResult(bus: Replies, k: nat, txns: seq<Txn>): Int32
    decreases |txns|
  {
    if txns == [] then 0
    else
      var n := |txns| - 1;
      OrErr(WritesResult(bus, k, txns[..n]), Effect(txns[n], Answer(bus, k + n)))
  }

  /**
   * The accumulated result is zero exactly when every write succeeded, and
   * negative when any write failed.
   */
  lemma {:induction false} WritesResultMeaning(bus: Replies, k: nat, txns: seq<Txn>)
    ensures WritesResult(bus, k, txns) == 0 <==> AllWritesOk(bus, k, txns)
    ensures SomeWriteFailed(bus, k, txns) ==> WritesResult(bus, k, txns) < 0
    decreases |txns|
  {
    if txns != [] {
      var n := |txns| - 1;
      var init := txns[..n];
      WritesResultMeaning(bus, k, init);
      assert forall i :: 0 <= i < n ==> init[i] == txns[i];
      if SomeWriteFailed(bus, k, txns) {
        var i :| 0 <= i < |txns| && txns[i].Write? && Answer(bus, k + i) < 0;
        if i < n {
          assert SomeWriteFailed(bus, k, init);
        }
      }
    }
  }

  lemma WritesResultSnoc(bus: Replies, k: nat, txns: seq<Txn>, x: Txn)
    ensures WritesResult(bus, k, txns + [x])
         == OrErr(WritesResult(bus, k, txns), Effect(x, Answer(bus, k + |txns|)))
  {
    assert (txns + [x])[..|txns|] == txns;
  }

  /** The outcomes of n consecutive transactions from log position j. */
  function Samples(bus: Replies, j: nat, n: nat): (raw: seq<Int32>)
    ensures |raw| == n && forall i :: 0 <= i < n ==> raw[i] == Answer(bus, j + i)
  {
    if n == 0 then [] else Samples(bus, j, n - 1) + [Answer(bus, j + n - 1)]
  }

  /** Issuing the next transaction of a sequence extends the log by it. */
  lemma TakeStep(log: seq<Txn>, txns: seq<Txn>, i: nat)
    requires i < |txns|
    ensures log + txns[..i] + [txns[i]] == log + txns[..i + 1]
  {
    assert txns[..i + 1] == txns[..i] + [txns[i]];
  }

  /** Issuing the next transaction of a sequence extends the log and the OR-ed code. */
  lemma WritesResultTake(bus: Replies, k: nat, log: seq<Txn>, txns: seq<Txn>, i: nat)
    requires i < |txns|
    ensures log + txns[..i] + [txns[i]] == log + txns[..i + 1]
    ensures WritesResult(bus, k, txns[..i + 1]) == OrErr(WritesResult(bus, k, txns[..i]), Effect(txns[i], Answer(bus, k + i)))
  {
    TakeStep(log, txns, i);
    assert txns[..i + 1] == txns[..i] + [txns[i]];
    WritesResultSnoc(bus, k, txns[..i], txns[i]);
  }

  /** Writes of a sequence that go to one register of one client, in order. */
  function WritesTo(txns: seq<Txn>, t: Target, r: Reg): seq<Val>
  {
    if txns == [] then []
    else
      var rest := WritesTo(txns[1..], t, r);
      if txns[0].Write? && txns[0].t == t && txns[0].r == r then [txns[0].v] + rest else rest
  }

  // ---------------------------------------------------------------------
  // adv7481_set_hdmi_mode: one read (result unused) and 32 writes.

  const HdmiModeTxns: seq<Txn> := [
    Read(Io, PwrDownCtrl),
    Write(Io, PwrDownCtrl, RxEnable),
    W(Io, 0x11, 0x48), W(Io, 0x04, 0x00), W(Io, 0x12, 0xF2), W(Io, 0x17, 0x80),
    W(Io, 0x03, 0x86), W(Io, 0x0C, 0xE0), W(Io, 0x0E, 0xFF),
    Write(Io, CsiPixEnSel, PixSel(true, false, true, false)),
    W(Cp, 0x7C, 0x00),
    W(Rep, 0x40, 0x83),
    W(Hdmi, 0x00, 0x08),
    W(Hdmi, 0x98, 0xFF), W(Hdmi, 0x99, 0xA3), W(Hdmi, 0x9A, 0x00), W(Hdmi, 0x9B, 0x0A),
    W(Hdmi, 0x9D, 0x40), W(Hdmi, 0xCB, 0x09),
    W(Hdmi, 0x3D, 0x10), W(Hdmi, 0x3E, 0x69), W(Hdmi, 0x3F, 0x46), W(Hdmi, 0x4E, 0xFE),
    W(Hdmi, 0x4F, 0x18), W(Hdmi, 0x57, 0xA3), W(Hdmi, 0x58, 0x04), W(Hdmi, 0x85, 0x10),
    W(Hdmi, 0x83, 0x00),
    W(Hdmi, 0xA3, 0x01), W(Hdmi, 0xBE, 0x00),
    W(Hdmi, 0x6C, 0x01), W(Hdmi, 0xF8, 0x01),
    W(Hdmi, 0x0F, 0x00)
  ]

  /** adv7481_set_hdmi_mode issued from log position k. */
  function HdmiMode(bus: Replies, k: nat): (o: Outcome)
    ensures o.txns == HdmiModeTxns && |o.txns| == 33
    ensures o.ret == 0 <==> AllWritesOk(bus, k, o.txns)
  {
    WritesResultMeaning(bus, k, HdmiModeTxns);
    Outcome(WritesResult(bus, k, HdmiModeTxns), HdmiModeTxns)
  }

  // ---------------------------------------------------------------------
  // adv7481_set_cvbs_mode: ten writes, a read-modify-write of the pixel
  // select register, and the autodetect enable.

  const CvbsSetupTxns: seq<Txn> := [
    W(Io, 0x00, 0x30),
    W(Sdp, 0x0f, 0x00), W(Sdp, 0x00, 0x00), W(Sdp, 0x03, 0x42), W(Sdp, 0x04, 0x07),
    W(Sdp, 0x13, 0x00), W(Sdp, 0x17, 0x41), W(Sdp, 0x31, 0x12), W(Sdp, 0x52, 0xcd),
    W(Sdp, 0x0e, 0xff)
  ]

  /** The sequence once the pixel-select read has returned a byte. */
  function CvbsModeTxns(readBack: Byte): seq<Txn>
  {
    CvbsSetupTxns + [
      Read(Io, CsiPixEnSel),
      Write(Io, CsiPixEnSel, SdToCsi4(readBack)),
      W(Sdp, 0x0e, 0x81)
    ]
  }

  /**
   * adv7481_set_cvbs_mode issued from log position k: the read-back byte is
   * the low byte of what the read at position k + 10 returned.
   */
  function CvbsMode(bus: Replies, k: nat): (o: Outcome)
    ensures |o.txns| == 13
    ensures o.ret == 0 <==> AllWritesOk(bus, k, o.txns)
    ensures o.txns[11] == Write(Io, CsiPixEnSel, SdToCsi4(Low8(Answer(bus, k + 10))))
  {
    var txns := CvbsModeTxns(Low8(Answer(bus, k + |CvbsSetupTxns|)));
    WritesResultMeaning(bus, k, txns);
    Outcome(WritesResult(bus, k, txns), txns)
  }

  // ---------------------------------------------------------------------
  // adv7481_csi_powerup.

  /** The CSI transmitter map a power-up programs: TxB for CSI-B, else TxA. */
  function CsiMap(output: AdvOutput): Target
  {
    if output == OpCsiB then CsiTxB else CsiTxA
  }

  /** The IO pixel-enable select value a power-up writes for each output. */
  function CsiSel(output: AdvOutput): Val
  {
    match output
    case OpCsiA => PixSel(true, false, true, false)
    case OpCsiB => PixSel(false, true, true, true)
    case _ => Lit(0)
  }

  /** The D-PHY settings written between the second and third TX_CFG1 writes. */
  function DphyTxns(m: Target): (ts: seq<Txn>)
    ensures |ts| == 8
    ensures forall i :: 0 <= i < |ts| ==> ts[i].Write? && ts[i].t == m && ts[i].r.At?
  {
    [W(m, 0xd6, 0x07), W(m, 0xc4, 0x0a), W(m, 0x71, 0x33), W(m, 0x72, 0x11),
     W(m, 0xf0, 0x00),
     W(m, 0x31, 0x82), W(m, 0x1e, 0x40),
     W(m, 0xda, 0x01)]
  }

  /**
   * The power-up sequence for `output` with `lanes` configured.  TX_CFG1 is
   * written exactly three times: powered down with the lane count, then the
   * same with automatic D-PHY timing, then powered up; the pixel-select write
   * falls between the first two, and every other write goes to the
   * transmitter's own map.
   */
  function CsiPowerupTxns(output: AdvOutput, lanes: Lanes): (ts: seq<Txn>)
    ensures |ts| == 14 && forall i :: 0 <= i < |ts| ==> ts[i].Write?
    ensures WritesTo(ts, CsiMap(output), TxCfg1)
         == [Cfg1(true, false, lanes), Cfg1(true, true, lanes), Cfg1(false, true, lanes)]
    ensures ts[1] == Write(Io, CsiPixEnSel, CsiSel(output))
    ensures forall i :: 0 <= i < |ts| && i != 1 ==> ts[i].t == CsiMap(output)
  {
    CsiSequenceShape(CsiMap(output), CsiSel(output), lanes);
    CsiSequenceCfg1(CsiMap(output), CsiSel(output), lanes);
    CsiSequence(CsiMap(output), CsiSel(output), lanes)
  }

  function CsiSequence(m: Target, sel: Val, lanes: Lanes): seq<Txn>
  {
    CsiHead(m, sel, lanes) + DphyTxns(m) + CsiPower(m, lanes) + CsiTail(m)
  }

  /** Lanes set while powered down, pixel select, then automatic D-PHY timing. */
  function CsiHead(m: Target, sel: Val, lanes: Lanes): (ts: seq<Txn>)
    ensures |ts| == 3 && ts[1] == Write(Io, CsiPixEnSel, sel)
    ensures ts[0].Write? && ts[0].t == m && ts[2].Write? && ts[2].t == m
  {
    [Write(m, TxCfg1, Cfg1(true, false, lanes)),
     Write(Io, CsiPixEnSel, sel),
     Write(m, TxCfg1, Cfg1(true, true, lanes))]
  }

  /** Power-up of the transmitter. */
  function CsiPower(m: Target, lanes: Lanes): (ts: seq<Txn>)
    ensures |ts| == 1 && ts[0].Write? && ts[0].t == m
  {
    [Write(m, TxCfg1, Cfg1(false, true, lanes))]
  }

  /** The two closing writes to literal addresses. */
  function CsiTail(m: Target): (ts: seq<Txn>)
    ensures |ts| == 2 && forall i :: 0 <= i < |ts| ==> ts[i].Write? && ts[i].t == m && ts[i].r.At?
  {
    [W(m, 0xc1, 0x2b), W(m, 0x31, 0x80)]
  }

  lemma CsiSequenceShape(m: Target, sel: Val, lanes: Lanes)
    ensures var ts := CsiSequence(m, sel, lanes);
      && |ts| == 14 && (forall i :: 0 <= i < |ts| ==> ts[i].Write?)
      && ts[1] == Write(Io, CsiPixEnSel, sel)
      && forall i :: 0 <= i < |ts| && i != 1 ==> ts[i].t == m
  {
    var head, rest := CsiHead(m, sel, lanes), DphyTxns(m) + CsiPower(m, lanes) + CsiTail(m);
    assert forall i :: 0 <= i < |rest| ==> rest[i].Write? && rest[i].t == m;
    assert CsiSequence(m, sel, lanes) == head + rest;
  }

  lemma CsiSequenceCfg1(m: Target, sel: Val, lanes: Lanes)
    ensures WritesTo(CsiSequence(m, sel, lanes), m, TxCfg1)
         == [Cfg1(true, false, lanes), Cfg1(true, true, lanes), Cfg1(false, true, lanes)]
  {
    var head, dphy, power, tail := CsiHead(m, sel, lanes), DphyTxns(m), CsiPower(m, lanes), CsiTail(m);
    CsiHeadCfg1(m, sel, lanes);
    CsiPowerCfg1(m, lanes);
    WritesToLiterals(dphy, m);
    WritesToLiterals(tail, m);
    WritesToAppend(head, dphy, m, TxCfg1);
    WritesToAppend(head + dphy, power, m, TxCfg1);
    WritesToAppend(head + dphy + power, tail, m, TxCfg1);
  }

  lemma CsiHeadCfg1(m: Target, sel: Val, lanes: Lanes)
    ensures WritesTo(CsiHead(m, sel, lanes), m, TxCfg1) == [Cfg1(true, false, lanes), Cfg1(true, true, lanes)]
  {
    var head := CsiHead(m, sel, lanes);
    assert WritesTo(head[2..], m, TxCfg1) == [Cfg1(true, true, lanes)] by {
      assert head[2..][1..] == [];
    }
    assert head[1..][1..] == head[2..];
  }

  lemma CsiPowerCfg1(m: Target, lanes: Lanes)
    ensures WritesTo(CsiPower(m, lanes), m, TxCfg1) == [Cfg1(false, true, lanes)]
  {
    assert CsiPower(m, lanes)[1..] == [];
  }

  lemma {:induction false} WritesToAppend(xs: seq<Txn>, ys: seq<Txn>, t: Target, r: Reg)
    ensures WritesTo(xs + ys, t, r) == WritesTo(xs, t, r) + WritesTo(ys, t, r)
  {
    if xs == [] {
      assert xs + ys == ys;
    } else {
      assert (xs + ys)[1..] == xs[1..] + ys;
      WritesToAppend(xs[1..], ys, t, r);
    }
  }

  /** Writes to literal addresses never touch a named register. */
  lemma {:induction false} WritesToLiterals(xs: seq<Txn>, t: Target)
    requires forall i :: 0 <= i < |xs| ==> xs[i].r.At?
    ensures WritesTo(xs, t, TxCfg1) == []
  {
    if xs != [] {
      WritesToLiterals(xs[1..], t);
    }
  }

  /** adv7481_csi_powerup issued from log position k. */
  function CsiPowerup(bus: Replies, k: nat, output: AdvOutput, lanes: Lanes): Outcome
  {
    var ts := CsiPowerupTxns(output, lanes);
    Outcome(WritesResult(bus, k, ts), ts)
  }

  // ---------------------------------------------------------------------
  // adv7481_set_edid.

  /** adv7481_default_edid_data: the base block and one CEA extension block. */
  const EdidData: seq<Byte> := [
    0x00, 0xFF, 0xFF, 0xFF, 0xFF, 0xFF, 0xFF, 0x00, 0x45, 0x23, 0xDD, 0xDD, 0x01, 0x01, 0x01, 0x01,
    0x01, 0x16, 0x01, 0x03, 0x80, 0x90, 0x51, 0x78, 0x0A, 0x0D, 0xC9, 0xA0, 0x57, 0x47, 0x98, 0x27,
    0x12, 0x48, 0x4C, 0x21, 0x08, 0x00, 0x81, 0x80, 0x01, 0x01, 0x01, 0x01, 0x01, 0x01, 0x01, 0x01,
    0x01, 0x01, 0x01, 0x01, 0x01, 0x01, 0x02, 0x3A, 0x80, 0x18, 0x71, 0x38, 0x2D, 0x40, 0x58, 0x2C,
    0x45, 0x00, 0xA0, 0x2A, 0x53, 0x00, 0x00, 0x1E, 0x01, 0x1D, 0x00, 0x72, 0x51, 0xD0, 0x1E, 0x20,
    0x6E, 0x28, 0x55, 0x00, 0xA0, 0x2A, 0x53, 0x00, 0x00, 0x1E, 0x00, 0x00, 0x00, 0xFD, 0x00, 0x3A,
    0x3E, 0x0F, 0x46, 0x0F, 0x00, 0x0A, 0x20, 0x20, 0x20, 0x20, 0x20, 0x20, 0x00, 0x00, 0x00, 0xFC,
    0x00, 0x54, 0x56, 0x0A, 0x20, 0x20, 0x20, 0x20, 0x20, 0x20, 0x20, 0x20, 0x20, 0x20, 0x01, 0x9A,
    0x02, 0x03, 0x37, 0xF0, 0x4A, 0x10, 0x04, 0x05, 0x03, 0x02, 0x07, 0x06, 0x20, 0x01, 0x3C, 0x29,
    0x09, 0x07, 0x07, 0x15, 0x07, 0x50, 0x3D, 0x07, 0x50, 0x83, 0x01, 0x00, 0x00, 0x76, 0x03, 0x0C,
    0x00, 0x30, 0x00, 0x80, 0x21, 0x2F, 0x88, 0x0C, 0x20, 0x90, 0x08, 0x10, 0x18, 0x10, 0x28, 0x10,
    0x78, 0x10, 0x06, 0x26, 0xE2, 0x00, 0x7B, 0x01, 0x1D, 0x80, 0x18, 0x71, 0x1C, 0x16, 0x20, 0x58,
    0x2C, 0x25, 0x00, 0xA0, 0x2A, 0x53, 0x00, 0x00, 0x9E, 0x8C, 0x0A, 0xD0, 0x8A, 0x20, 0xE0, 0x2D,
    0x10, 0x10, 0x3E, 0x96, 0x00, 0xA0, 0x2A, 0x53, 0x00, 0x00, 0x18, 0x8C, 0x0A, 0xD0, 0x8A, 0x20,
    0xE0, 0x2D, 0x10, 0x10, 0x3E, 0x96, 0x00, 0x38, 0x2A, 0x43, 0x00, 0x00, 0x18, 0x8C, 0x0A, 0xA0,
    0x14, 0x51, 0xF0, 0x16, 0x00, 0x26, 0x7C, 0x43, 0x00, 0x38, 0x2A, 0x43, 0x00, 0x00, 0x98, 0x38
  ]

  /** ADV7481_EDID_SIZE. */
  const EdidSize := 256

  const EdidHeadTxns: seq<Txn> := [W(Hdmi, 0x74, 0x01), W(Hdmi, 0x7A, 0x08), W(Hdmi, 0x70, 0x80)]

  /** The table writes: byte i of the table to EDID register i, for the first n bytes. */
  function EdidTableTxns(data: seq<Byte>, n: nat): (ts: seq<Txn>)
    requires n <= |data| <= EdidSize
    ensures |ts| == n
    ensures forall i :: 0 <= i < n ==> ts[i] == W(Edid, i, data[i])
  {
    if n == 0 then [] else EdidTableTxns(data, n - 1) + [W(Edid, n - 1, data[n - 1])]
  }

  /**
   * adv7481_set_edid with table `data`: the three HDMI-map writes, every
   * table byte to its own EDID register in ascending order, then the port
   * enable.
   */
  function EdidTxns(data: seq<Byte>): (ts: seq<Txn>)
    requires |data| <= EdidSize
    ensures |ts| == |data| + 4
    ensures ts[..3] == EdidHeadTxns && ts[|data| + 3] == W(Hdmi, 0x07, 0x01)
    ensures forall i :: 0 <= i < |data| ==> ts[3 + i] == W(Edid, i, data[i])
  {
    EdidHeadTxns + EdidTableTxns(data, |data|) + [W(Hdmi, 0x07, 0x01)]
  }
}
