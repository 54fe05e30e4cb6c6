/**
 * The ADV7481 routing and mode state machine as functions of the routing
 * state and the bus oracle: mapping a bridge-level input to a chip input,
 * recording the source of an output, reprogramming the front end when the
 * input mode changes, and choosing the transmitter and lane count when a
 * stream starts.
 */
module Adv7481Routing {
  import opened CInt
  import opened MsmBaTypes
  import opened Adv7481Types
  import opened Adv7481Bus

  /** The routing part of the device record: csia_src, csib_src and mode. */
  datatype Routing = Routing(csiaSrc: AdvInput, csibSrc: AdvInput, mode: AdvInput)

  /** The return code, the new routing state and the transactions of one call. */
  datatype Step = Step(ret: Int32, st: Routing, txns: seq<Txn>)

  /**
   * ba_inp_to_adv7481: CVBS_0..CVBS_5 select analog channels 1..6, TTL
   * selects the TTL port, and every other bridge input (HDMI_1, MHL_1 and
   * anything unlisted) selects HDMI.
   */
  function BaInpToAdv(input: BaInput): (r: AdvInput)
    ensures r.IpCvbs? <==> input.BaCvbs? && input.n < 6
    ensures r.IpCvbs? ==> r.ch == input.n + 1
    ensures r == IpTtl <==> input == BaTtl
    ensures r == IpHdmi <==> !r.IpCvbs? && r != IpTtl
    ensures r != IpNone && !r.IpCvbsHdmiSim?
  {
    match input
    case BaCvbs(0) => IpCvbs(1)
    case BaCvbs(1) => IpCvbs(2)
    case BaCvbs(2) => IpCvbs(3)
    case BaCvbs(3) => IpCvbs(4)
    case BaCvbs(4) => IpCvbs(5)
    case BaCvbs(5) => IpCvbs(6)
    case BaHdmi1 => IpHdmi
    case BaMhl1 => IpHdmi
    case BaTtl => IpTtl
    case _ => IpHdmi
  }

  /**
   * The analog input selector adv7481_set_analog_mux computes: channel n
   * (plain or simultaneous with HDMI) selects AIN n-1.  The driver never
   * writes it: the mux step issues no transaction and returns 0.
   */
  function AnalogMuxSel(input: AdvInput): (sel: int)
    ensures IsCvbs(input) ==> sel == input.ch - 1
    ensures !IsCvbs(input) ==> sel == 0
    ensures 0 <= sel < 8
  {
    match input
    case IpCvbs(1) | IpCvbsHdmiSim(1) => 0x0
    case IpCvbs(2) | IpCvbsHdmiSim(2) => 0x1
    case IpCvbs(3) | IpCvbsHdmiSim(3) => 0x2
    case IpCvbs(4) | IpCvbsHdmiSim(4) => 0x3
    case IpCvbs(5) | IpCvbsHdmiSim(5) => 0x4
    case IpCvbs(6) | IpCvbsHdmiSim(6) => 0x5
    case IpCvbs(7) | IpCvbsHdmiSim(7) => 0x6
    case IpCvbs(8) | IpCvbsHdmiSim(8) => 0x7
    case _ => 0x0
  }

  /** The bits set_op_src ORs into IO register 0x00 for a CSI-A source; None for an input it rejects. */
  function CsiaBits(input: AdvInput): Option<Byte>
  {
    match input
    case IpCvbs(_) => Some(0x10)
    case IpCvbsHdmiSim(_) => Some(0x00)
    case IpHdmi => Some(0x00)
    case IpTtl => Some(0x1)
    case IpNone => None
  }

  /**
   * adv7481_set_op_src issued from log position k.
   *
   * CSI-A: reads IO register 0x00, ORs in the input's bits and writes the
   * result back (the write's code is ignored), and records the input as the
   * CSI-A source even when it rejects the input with -EINVAL.
   * CSI-B: records any input except HDMI and TTL, with no register access;
   * HDMI and TTL are rejected and change nothing.
   * Any other output is rejected and changes nothing.
   */
  function OpSrc(bus: Replies, k: nat, output: AdvOutput, input: AdvInput, st: Routing): Step
  {
    match output
    case OpCsiA =>
      var bits := CsiaBits(input);
      var ret: Int32 := if bits.None? then -EINVAL else 0;
      var temp := Or(Answer(bus, k), if bits.Some? then bits.value else 0);
      Step(ret, st.(csiaSrc := input),
           [Read(Io, At(0x00)), Write(Io, At(0x00), Lit(Low8(temp)))])
    case OpCsiB =>
      if input != IpHdmi && input != IpTtl then Step(0, st.(csibSrc := input), [])
      else Step(-EINVAL, st, [])
    case _ => Step(-EINVAL, st, [])
  }

  /** What OpSrc does, case by case. */
  lemma OpSrcSpec(bus: Replies, k: nat, output: AdvOutput, input: AdvInput, st: Routing)
    ensures var s := OpSrc(bus, k, output, input, st);
      && (s.ret == 0 || s.ret == -EINVAL)
      && s.st.mode == st.mode
      && (output == OpCsiA ==>
        && s.st == st.(csiaSrc := input)
        && (s.ret == 0 <==> input != IpNone)
        && |s.txns| == 2 && s.txns[0] == Read(Io, At(0x00))
        && s.txns[1].Write? && s.txns[1].t == Io && s.txns[1].r == At(0x00))
      && (output == OpCsiB ==>
        && s.txns == []
        && (s.ret == 0 <==> input != IpHdmi && input != IpTtl)
        && s.st == (if s.ret == 0 then st.(csibSrc := input) else st))
      && (output != OpCsiA && output != OpCsiB ==> s == Step(-EINVAL, st, []))
  {
  }

  /**
   * adv7481_set_ip_mode issued from log position k: HDMI runs the HDMI
   * sequence; channel n runs the CVBS sequence and then the mux step;
   * channel n with HDMI runs the HDMI sequence, then the CVBS sequence, then
   * the mux step, OR-ing the three codes.  Any other selector, TTL included,
   * returns -EINVAL with no transaction.  The result is 0 exactly when the
   * selector is supported and every write it issued succeeded.
   */
  function IpMode(bus: Replies, k: nat, input: AdvInput): Outcome
  {
    match input
    case IpHdmi => HdmiMode(bus, k)
    case IpCvbs(_) =>
      var c := CvbsMode(bus, k);
      Outcome(OrErr(c.ret, 0), c.txns)
    case IpCvbsHdmiSim(_) => SimMode(bus, k)
    case _ => Outcome(-EINVAL, [])
  }

  /**
   * What IpMode does: no transaction and -EINVAL exactly for an unsupported
   * selector, otherwise 0 exactly when every write succeeded.
   */
  lemma IpModeSpec(bus: Replies, k: nat, input: AdvInput)
    ensures var o := IpMode(bus, k, input);
      && (o.txns == [] <==> !(input == IpHdmi || IsCvbs(input)))
      && (o.txns == [] ==> o.ret == -EINVAL)
      && (o.txns != [] ==> (o.ret == 0 <==> AllWritesOk(bus, k, o.txns)))
      && (input == IpHdmi ==> o == HdmiMode(bus, k))
      && (input.IpCvbs? ==> o == CvbsMode(bus, k))
      && (input.IpCvbsHdmiSim? ==> o.txns == HdmiMode(bus, k).txns + CvbsMode(bus, k + 33).txns)
  {
  }

  /** The HDMI sequence followed by the CVBS sequence, codes OR-ed (the mux step adds 0). */
  function SimMode(bus: Replies, k: nat): (o: Outcome)
    ensures o.txns == HdmiMode(bus, k).txns + CvbsMode(bus, k + 33).txns
    ensures o.ret == 0 <==> AllWritesOk(bus, k, o.txns)
  {
    var h := HdmiMode(bus, k);
    var c := CvbsMode(bus, k + |h.txns|);
    AllWritesOkAppend(bus, k, h.txns, c.txns);
    Outcome(OrErr(OrErr(h.ret, c.ret), 0), h.txns + c.txns)
  }

  lemma AllWritesOkAppend(bus: Replies, k: nat, xs: seq<Txn>, ys: seq<Txn>)
    ensures AllWritesOk(bus, k, xs + ys) <==> AllWritesOk(bus, k, xs) && AllWritesOk(bus, k + |xs|, ys)
  {
    if AllWritesOk(bus, k, xs) && AllWritesOk(bus, k + |xs|, ys) {
      forall i | 0 <= i < |xs + ys| && (xs + ys)[i].Write? ensures Answer(bus, k + i) == 0 {
        if i >= |xs| {
          assert (xs + ys)[i] == ys[i - |xs|];
          assert k + |xs| + (i - |xs|) == k + i;
        }
      }
    }
    if AllWritesOk(bus, k, xs + ys) {
      forall i | 0 <= i < |ys| && ys[i].Write? ensures Answer(bus, k + |xs| + i) == 0 {
        assert (xs + ys)[|xs| + i] == ys[i];
      }
      forall i | 0 <= i < |xs| && xs[i].Write? ensures Answer(bus, k + i) == 0 {
        assert (xs + ys)[i] == xs[i];
      }
    }
  }

  /**
   * adv7481_s_routing issued from log position k.  `locked` says whether the
   * device mutex was acquired; when it was not, the call returns -EINTR and
   * changes nothing.  Otherwise the bridge input is mapped, the output's
   * source is set, and only when that succeeds and the chip is not already in
   * the mapped mode is the front end reprogrammed; the mode is recorded only
   * when reprogramming returns 0.
   */
  function Route(bus: Replies, k: nat, input: BaInput, output: AdvOutput, st: Routing, locked: bool): (s: Step)
    ensures !locked ==> s == Step(-EINTR, st, [])
    ensures s.st.mode == st.mode || (s.ret == 0 && s.st.mode == BaInpToAdv(input))
    ensures locked && s.ret == 0 ==> s.st.mode == BaInpToAdv(input)
    ensures locked && OpSrc(bus, k, output, BaInpToAdv(input), st).ret != 0
            ==> s == OpSrc(bus, k, output, BaInpToAdv(input), st)
    ensures locked && st.mode == BaInpToAdv(input) ==> s == OpSrc(bus, k, output, BaInpToAdv(input), st)
    ensures locked && OpSrc(bus, k, output, BaInpToAdv(input), st).ret == 0 && st.mode != BaInpToAdv(input) ==>
      var src := OpSrc(bus, k, output, BaInpToAdv(input), st);
      var m := IpMode(bus, k + |src.txns|, BaInpToAdv(input));
      && s.ret == m.ret
      && s.txns == src.txns + m.txns
      && s.st == (if m.ret == 0 then src.st.(mode := BaInpToAdv(input)) else src.st)
    ensures locked && output == OpCsiA ==> s.st.csiaSrc == BaInpToAdv(input) && s.st.csibSrc == st.csibSrc
    ensures locked && output == OpCsiB ==>
      s.st.csiaSrc == st.csiaSrc && (s.ret == 0 ==> s.st.csibSrc == BaInpToAdv(input))
  {
    if !locked then Step(-EINTR, st, [])
    else RouteChip(bus, k, BaInpToAdv(input), output, st)
  }

  /** The locked part of adv7481_s_routing, once the chip input is known. */
  function RouteChip(bus: Replies, k: nat, adv: AdvInput, output: AdvOutput, st: Routing): (s: Step)
  {
    var src := OpSrc(bus, k, output, adv, st);
    if src.ret != 0 || src.st.mode == adv then src
    else Reprogram(bus, k + |src.txns|, adv, src)
  }

  /** Reprogramming the front end after a successful source change. */
  function Reprogram(bus: Replies, j: nat, adv: AdvInput, src: Step): (s: Step)
  {
    var m := IpMode(bus, j, adv);
    Step(m.ret, if m.ret == 0 then src.st.(mode := adv) else src.st, src.txns + m.txns)
  }

  /**
   * The transmitter and lane count adv7481_set_op_stream powers up: CSI-A
   * when streaming with a CSI-A source (two lanes for HDMI, else one), CSI-B
   * at one lane when streaming with only a CSI-B source, and CSI-A at one
   * lane otherwise, including when the stream is being stopped.
   */
  function StreamPolicy(on: bool, csiaSrc: AdvInput, csibSrc: AdvInput): (p: (AdvOutput, Lanes))
    ensures p.0 == OpCsiB <==> on && csiaSrc == IpNone && csibSrc != IpNone
    ensures p.0 != OpCsiB ==> p.0 == OpCsiA
    ensures p.1 == TwoLanes <==> on && csiaSrc == IpHdmi
  {
    if on && csiaSrc != IpNone then
      if csiaSrc == IpHdmi then (OpCsiA, TwoLanes) else (OpCsiA, OneLane)
    else if on && csibSrc != IpNone then (OpCsiB, OneLane)
    else (OpCsiA, OneLane)
  }

  // ---------------------------------------------------------------------
  // Properties of the routing state machine.

  /** CSI-B refuses HDMI and TTL and leaves the state as it was. */
  lemma CsibRefusesHdmiAndTtl(bus: Replies, k: nat, input: BaInput, st: Routing)
    requires BaInpToAdv(input) == IpHdmi || BaInpToAdv(input) == IpTtl
    ensures Route(bus, k, input, OpCsiB, st, true) == Step(-EINVAL, st, [])
  {
  }

  /**
   * TTL routed to CSI-A: the source is recorded, but the mode selector
   * rejects TTL, so the mode is kept and the call returns -EINVAL after
   * touching only IO register 0x00.
   */
  lemma TtlOnCsiaKeepsMode(bus: Replies, k: nat, st: Routing)
    requires st.mode != IpTtl
    ensures var s := Route(bus, k, BaTtl, OpCsiA, st, true);
      && s.ret == -EINVAL
      && s.st == st.(csiaSrc := IpTtl)
      && |s.txns| == 2
  {
  }

  /** Routing again to the mode the chip is already in issues no mode programming. */
  lemma SameModeNoReprogram(bus: Replies, k: nat, input: BaInput, output: AdvOutput, st: Routing)
    requires st.mode == BaInpToAdv(input)
    ensures Route(bus, k, input, output, st, true) == OpSrc(bus, k, output, BaInpToAdv(input), st)
  {
  }

  /**
   * A successful routing, repeated, succeeds again without reprogramming the
   * front end and leaves the state where the first call put it.
   */
  lemma RouteIdempotent(bus: Replies, k: nat, k2: nat, input: BaInput, output: AdvOutput, st: Routing)
    requires Route(bus, k, input, output, st, true).ret == 0
    ensures var s1 := Route(bus, k, input, output, st, true);
      var s2 := Route(bus, k2, input, output, s1.st, true);
      && s2.ret == 0
      && s2.st == s1.st
      && |s2.txns| <= 2
  {
  }

  /** A failed mode change leaves the mode as it was; the source is still recorded. */
  lemma FailedModeChangeKeepsMode(bus: Replies, k: nat, input: BaInput, output: AdvOutput, st: Routing)
    requires OpSrc(bus, k, output, BaInpToAdv(input), st).ret == 0
    requires st.mode != BaInpToAdv(input)
    requires IpMode(bus, k + |OpSrc(bus, k, output, BaInpToAdv(input), st).txns|, BaInpToAdv(input)).ret != 0
    ensures var s := Route(bus, k, input, output, st, true);
      && s.ret != 0
      && s.st == OpSrc(bus, k, output, BaInpToAdv(input), st).st
  {
  }
}
