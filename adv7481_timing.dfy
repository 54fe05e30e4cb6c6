/**
 * Timing and standard decoding of the ADV7481: the HDMI lock polls and
 * timing-parameter decoding of adv7481_get_hdmi_timings, the SD-standard
 * debounce of adv7481_get_sd_timings, and the two queries built on them.
 *
 * The field positions and code values of adv7481_reg.h are not part of
 * this model: a `RegLayout` gives, for each named field, the bits it
 * occupies in its register, and the values of the CD_* and AD_* codes the
 * driver switches on.  The masks and shifts written out in the driver
 * itself are modelled explicitly.
 */
module Adv7481Timing {
  import opened CInt
  import opened MsmBaTypes
  import opened Adv7481Types
  import opened Adv7481Bus

  /** The colour depths the driver distinguishes, and any other value. */
  datatype ColourDepth = Cd8 | Cd10 | Cd12 | Cd16 | CdOther

  /** The autodetect results of the SD core, and any other value. */
  datatype AdResult =
    | AdNtscMJ | AdNtsc443 | AdPalM | AdPal60 | AdPalBG | AdSecam | AdPalComb | AdSecam525
    | AdUnlisted

  /** The values of CD_8BIT, CD_10BIT, CD_12BIT and CD_16BIT. */
  datatype DepthCodes = DepthCodes(cd8: int, cd10: int, cd12: int, cd16: int)

  /** The values of the eight AD_* results. */
  datatype AdCodes = AdCodes(
    ntscMJ: int, ntsc443: int, palM: int, pal60: int,
    palBG: int, secam: int, palComb: int, secam525: int)

  datatype RegLayout = RegLayout(
    pllLocked: FieldPos, tmdsFreqInt: FieldPos, tmdsFreqBit0: FieldPos, tmdsFreqFraction: FieldPos,
    deRegenLocked: FieldPos, vertFilterLocked: FieldPos, deRegenFilterLocked: FieldPos,
    deepColourMode: FieldPos, pixelRepetition: FieldPos, dviHsyncPolarity: FieldPos,
    lineWidthHi: FieldPos, lineWidthLo: FieldPos, totalLineWidthHi: FieldPos, totalLineWidthLo: FieldPos,
    field0HeightHi: FieldPos, field0HeightLo: FieldPos,
    field0TotalHeightHi: FieldPos, field0TotalHeightLo: FieldPos,
    depthCodes: DepthCodes,
    /** SDP_CTRL_ADRESLT selects this many bits from bit 4, the shift the driver applies. */
    adResultWidth: FieldWidth,
    adCodes: AdCodes)

  /** The switch on the colour depth, in the driver's case order. */
  function DepthOf(c: DepthCodes, v: int): ColourDepth
  {
    if v == c.cd10 then Cd10
    else if v == c.cd12 then Cd12
    else if v == c.cd16 then Cd16
    else if v == c.cd8 then Cd8
    else CdOther
  }

  /** `(status & SDP_CTRL_ADRESLT) >> 4` and the switch on it, in the driver's case order. */
  function AdResultOf(layout: RegLayout, status: Int32): AdResult
  {
    var v := GetField(FieldPos(4, layout.adResultWidth), status);
    var c := layout.adCodes;
    if v == c.ntscMJ then AdNtscMJ
    else if v == c.ntsc443 then AdNtsc443
    else if v == c.palM then AdPalM
    else if v == c.pal60 then AdPal60
    else if v == c.palBG then AdPalBG
    else if v == c.secam then AdSecam
    else if v == c.palComb then AdPalComb
    else if v == c.secam525 then AdSecam525
    else AdUnlisted
  }

  // ---------------------------------------------------------------------
  // V4L2 analog standards (v4l2_std_id bits of linux/videodev2.h).

  const StdUnknown := 0
  const StdPal := 0xff
  const StdPalM := 0x100
  const StdPalN := 0x200
  const StdPalNc := 0x400
  const StdPal60 := 0x800
  const StdNtsc := 0xb000
  const StdNtsc443 := 0x4000
  const StdSecam := 0xff_0000

  /** V4L2_STD_PAL_Nc | V4L2_STD_PAL_N. */
  function StdPalComb(): (r: int)
    ensures r == StdPalNc + StdPalN
  {
    Pow2Values();
    OrLowBits(1, StdPalN, 10);
    Or(StdPalNc, StdPalN)
  }

  /**
   * The standard the switch of adv7481_get_sd_timings reports for an
   * autodetect result: both SECAM results give SECAM, PAL combination N
   * gives PAL-Nc and PAL-N together, and an unlisted result gives
   * V4L2_STD_UNKNOWN.
   */
  function StdOf(ad: AdResult): (r: int)
    ensures r == StdUnknown <==> ad == AdUnlisted
    ensures r == StdSecam <==> ad == AdSecam || ad == AdSecam525
    ensures ad == AdPalComb ==> r == StdPalNc + StdPalN
  {
    match ad
    case AdNtscMJ => StdNtsc
    case AdNtsc443 => StdNtsc443
    case AdPalM => StdPalM
    case AdPal60 => StdPal60
    case AdPalBG => StdPal
    case AdSecam => StdSecam
    case AdPalComb => StdPalComb()
    case AdSecam525 => StdSecam
    case AdUnlisted => StdUnknown
  }

  // ---------------------------------------------------------------------
  // HDMI timing parameters.

  datatype HdmiParams = HdmiParams(
    pllLock: U16, tmdsFreq: U16, vertLock: U16, horzLock: U16, pixRep: U16, colorDepth: U16)

  datatype VidParams = VidParams(
    pixClk: U16, actPix: U16, actLines: U16, totPix: U16, totLines: U16, frRate: U16, intrlcd: U16)

  const ZeroHdmi := HdmiParams(0, 0, 0, 0, 0, 0)
  const ZeroVid := VidParams(0, 0, 0, 0, 0, 0, 0)

  /** Width of the high part of each split value: masks 0x1F00 and 0x3F00. */
  const ActPixHiBits := 5
  const TotalHiBits := 6

  /**
   * `((hi << 8) & mask) | lo` with mask = (2^hiBits - 1) << 8: the high
   * register keeps its low hiBits bits as bits 8 and up, and the low
   * register supplies bits 0..7.  Splitting the result again gives back
   * both parts.
   */
  function HiLo(hi: Byte, lo: Byte, hiBits: nat): (r: U16)
    requires hiBits == ActPixHiBits || hiBits == TotalHiBits
    ensures r % 256 == lo && r / 256 == hi % Pow2(hiBits)
    ensures r < Pow2(hiBits) * 256
    ensures hiBits == ActPixHiBits ==> r < 0x2000
    ensures hiBits == TotalHiBits ==> r < 0x4000
  {
    Pow2Values();
    var m := Pow2(hiBits);
    assert m == 32 || m == 64;
    var high := hi % m;
    OrLowBits(high, lo, 8);
    var r := high * 256 + lo;
    DivUnique(r, 256, high, lo);
    MulLe(high, m - 1, 256);
    Or(high * 256, lo)
  }

  /**
   * The colour-depth correction of the pixel clock: 10-bit scales by 4/5,
   * 12-bit by 2/3, 16-bit by 1/2, rounding down; 8-bit and any other code
   * leave it unchanged.  The clock never grows, and it is kept exactly when
   * it is 0 or no scaling applies.
   */
  function ScalePixClk(depth: ColourDepth, p: U16): (r: U16)
    ensures r <= p
    ensures r == p <==> depth == Cd8 || depth == CdOther || p == 0
    ensures depth == Cd10 ==> 5 * r <= 4 * p < 5 * r + 5
    ensures depth == Cd12 ==> 3 * r <= 2 * p < 3 * r + 3
    ensures depth == Cd16 ==> 2 * r <= p < 2 * r + 2
  {
    match depth
    case Cd10 => p * 4 / 5
    case Cd12 => p * 2 / 3
    case Cd16 => p / 2
    case _ => p / 1
  }

  /** Dividing by a, then by b, is dividing by a * b. */
  lemma DivDiv(x: nat, a: nat, b: nat)
    requires a > 0 && b > 0
    ensures x / a / b == x / (a * b)
  {
    var q, r1 := x / a, x % a;
    var q2, r2 := q / b, q % b;
    var ab := a * b;
    assert ab == b * a;
    Distrib(q2 * b, r2, a);
    Assoc(q2, b, a);
    assert x == q2 * ab + (r2 * a + r1);
    MulLe(r2, b - 1, a);
    Distrib(b - 1, 1, a);
    DivUnique(x, ab, q2, r2 * a + r1);
  }

  lemma Distrib(u: int, v: int, a: int)
    ensures (u + v) * a == u * a + v * a
  {
  }

  lemma Assoc(u: int, v: int, a: int)
    ensures (u * v) * a == u * (v * a)
  {
  }

  lemma MulLe(u: int, v: int, a: nat)
    requires u <= v
    ensures u * a <= v * a
  {
    Distrib(u, v - u, a);
    assert (v - u) * a >= 0;
  }

  lemma DivUnique(x: int, d: int, q: int, r: int)
    requires d > 0 && 0 <= r < d && x == q * d + r
    ensures x / d == q && x % d == r
  {
    var q', r' := x / d, x % d;
    assert x == q' * d + r';
    Distrib(q, -q', d);
    assert (q - q') * d == r' - r;
    if q > q' {
      MulLe(1, q - q', d);
    } else if q < q' {
      MulLe(1, q' - q, d);
      Distrib(q' , -q, d);
    }
  }

  lemma DivLe(x: nat, d: nat)
    requires d > 0
    ensures 0 <= x / d <= x
  {
    DivUnique(x, d, x / d, x % d);
    MulLe(1, d, x / d);
  }

  lemma DivChain(x: nat, a: nat, b: nat, c: nat)
    requires a > 0 && b > 0 && c > 0
    ensures x / a < 0x1_0000 ==> ToU16(x / a) / b / c == x / (a * b * c)
  {
    var ab := a * b;
    MulPos(a, b);
    if x / a < 0x1_0000 {
      var y := x / a;
      assert ToU16(y) == y;
      DivDiv(x, a, b);
      assert y / b == x / ab;
      DivDiv(x, ab, c);
      assert x / ab / c == x / (ab * c);
    }
  }

  /**
   * The frame-rate formula, applied only when both totals are nonzero
   * (otherwise the previous value stays): the pixel clock times the field
   * factor is divided by the total lines and stored in 16 bits, then divided
   * by the total pixels, then by the repetition factor.  While the first
   * quotient fits 16 bits this is one division by the product of the three
   * divisors.
   */
  function FrameRate(pixClk: U16, ff: int, totLines: U16, totPix: U16, pixRep: U16, prev: U16): (r: U16)
    requires ff == 1 || ff == 2
    ensures totPix == 0 || totLines == 0 ==> r == prev
    ensures totPix != 0 && totLines != 0 && pixClk * ff / totLines < 0x1_0000
            ==> r == pixClk * ff / (totLines * totPix * (pixRep + 1))
    ensures pixClk == 0 ==> r == 0 || r == prev
  {
    if totPix != 0 && totLines != 0 then
      var x: nat := pixClk * ff;
      assert pixClk == 0 ==> x == 0;
      var fr := ToU16(x / totLines);
      DivLe(x, totLines);
      DivLe(fr, totPix);
      var fr2: U16 := fr / totPix;
      DivLe(fr2, pixRep + 1);
      DivChain(x, totLines, totPix, pixRep + 1);
      fr2 / (pixRep + 1)
    else prev
  }

  // ---------------------------------------------------------------------
  // The lock polls.

  /** LOCK_NUM_TRIES: the shared retry budget of the two polls. */
  const LockTries := 20

  /** The two locks the driver waits for. */
  datatype LockCheck = DeRegenLock | FilterLock

  /** The register a poll samples. */
  function PollRead(which: LockCheck): Txn
  {
    match which
    case DeRegenLock => Read(Io, RawStatus3)
    case FilterLock => Read(Hdmi, LineWidth1)
  }

  function Locked(layout: RegLayout, which: LockCheck, raw: Int32): bool
  {
    match which
    case DeRegenLock => GetField(layout.deRegenLocked, raw) != 0
    case FilterLock => GetField(layout.vertFilterLocked, raw) != 0 && GetField(layout.deRegenFilterLocked, raw) != 0
  }

  /** Whether the sample at log position j shows the lock. */
  predicate LockedAt(bus: Replies, layout: RegLayout, which: LockCheck, j: nat)
  {
    Locked(layout, which, Answer(bus, j))
  }

  /** How a poll ended: the samples it read, the counter after it, and whether it saw the lock. */
  datatype PollEnd = PollEnd(samples: nat, count: nat, locked: bool)

  /**
   * One do/while poll starting at log position k with the shared counter at
   * `count`: a sample that shows the lock ends the poll; otherwise the
   * counter is incremented (and the driver sleeps) and the poll repeats
   * while the counter is below the budget.  At least one sample is always
   * read, and a poll that starts with the budget spent reads exactly one.
   */
  function Poll(bus: Replies, layout: RegLayout, which: LockCheck, k: nat, count: nat): (p: PollEnd)
    ensures 1 <= p.samples <= (if count < LockTries then LockTries - count else 1)
    ensures p.locked ==> p.count == count + p.samples - 1 && LockedAt(bus, layout, which, k + p.samples - 1)
    ensures !p.locked ==> p.count == count + p.samples && p.count >= LockTries
    ensures forall j :: k <= j < k + p.samples - 1 ==> !LockedAt(bus, layout, which, j)
    decreases if count < LockTries then LockTries - count else 0
  {
    if LockedAt(bus, layout, which, k) then PollEnd(1, count, true)
    else if count + 1 < LockTries then
      var p := Poll(bus, layout, which, k + 1, count + 1);
      PollEnd(p.samples + 1, p.count, p.locked)
    else PollEnd(1, count + 1, false)
  }

  /**
   * Poll is the loop's outcome: a run of n samples that finds no lock before
   * the last one, with the counter still below the limit whenever the loop
   * went round again, ends where the last sample says.
   */
  lemma {:induction false} PollFrom(bus: Replies, layout: RegLayout, which: LockCheck, k: nat, count: nat, n: nat)
    requires 1 <= n && (n == 1 || count + n - 1 < LockTries)
    requires forall j :: k <= j < k + n - 1 ==> !LockedAt(bus, layout, which, j)
    requires LockedAt(bus, layout, which, k + n - 1) || count + n >= LockTries
    ensures var locked := LockedAt(bus, layout, which, k + n - 1);
      Poll(bus, layout, which, k, count) == PollEnd(n, if locked then count + n - 1 else count + n, locked)
    decreases n
  {
    if n > 1 {
      assert !LockedAt(bus, layout, which, k);
      PollFrom(bus, layout, which, k + 1, count + 1, n - 1);
    }
  }

  function Reads(x: Txn, n: nat): (ts: seq<Txn>)
    ensures |ts| == n && forall i :: 0 <= i < n ==> ts[i] == x
  {
    if n == 0 then [] else Reads(x, n - 1) + [x]
  }

  /** One more read of the same register extends the run of reads by one. */
  lemma ReadsSnoc(x: Txn, n: nat)
    ensures Reads(x, n + 1) == Reads(x, n) + [x]
  {
  }

  /** Two more reads of the same register extend the run of reads by two. */
  lemma ReadsTwice(x: Txn, n: nat)
    ensures Reads(x, n + 2) == Reads(x, n) + [x, x]
  {
    ReadsSnoc(x, n);
    ReadsSnoc(x, n + 1);
  }

  /** How the two polls ended. */
  datatype LockRun = LockRun(first: PollEnd, second: PollEnd)

  /** Both polls: the first from a zero counter, the second from where the first left it. */
  function LockPolls(bus: Replies, layout: RegLayout, k: nat): LockRun
  {
    var p1 := Poll(bus, layout, DeRegenLock, k, 0);
    LockRun(p1, Poll(bus, layout, FilterLock, k + p1.samples, p1.count))
  }

  /**
   * Because the two polls share one counter they read at most
   * LOCK_NUM_TRIES + 1 = 21 samples together, and exactly 21 whenever either
   * of them ends without seeing its lock.
   */
  lemma LockPollsBounded(bus: Replies, layout: RegLayout, k: nat)
    ensures var LockRun(p1, p2) := LockPolls(bus, layout, k);
      && p1.samples + p2.samples <= LockTries + 1
      && (!p1.locked || !p2.locked ==> p1.samples + p2.samples == LockTries + 1)
  {
  }

  // ---------------------------------------------------------------------
  // adv7481_get_hdmi_timings.

  /** The ten parameter reads that follow the polls, in order. */
  const ParamReads: seq<Txn> := [
    Read(Hdmi, Field1Height1), Read(Hdmi, HdmiParam5),
    Read(Hdmi, LineWidth1), Read(Hdmi, LineWidth2),
    Read(Hdmi, TotalLineWidth1), Read(Hdmi, TotalLineWidth2),
    Read(Hdmi, Field0Height1), Read(Hdmi, Field0Height2),
    Read(Hdmi, Field0TotalHeight1), Read(Hdmi, Field0TotalHeight2)
  ]

  /** The field factor: 2 exactly when the interlace field reads 1. */
  function FieldFactor(intrlcd: U16): (ff: int)
    ensures ff == 2 <==> intrlcd == 1
    ensures ff == 1 || ff == 2
  {
    if intrlcd == 1 then 2 else 1
  }

  /**
   * Decoding of the ten parameter reads (in the order of ParamReads) into
   * the parameter records: colour depth, pixel repetition and interlace,
   * the four split dimensions, the depth-corrected pixel clock (which is
   * only ever the clock already in `vid`), and the frame rate.
   */
  function DecodeParams(raw: seq<Int32>, layout: RegLayout, vid: VidParams, hdmi: HdmiParams)
    : (d: (VidParams, HdmiParams))
    requires |raw| == |ParamReads|
    ensures d.0.pixClk <= vid.pixClk
    ensures d.0.actPix < 0x2000 && d.0.totPix < 0x4000 && d.0.actLines < 0x4000 && d.0.totLines < 0x4000
    ensures d.0.intrlcd == GetField(layout.dviHsyncPolarity, raw[1])
    ensures d.0.actPix % 256 == GetField(layout.lineWidthLo, raw[3])
         && d.0.actPix / 256 == GetField(layout.lineWidthHi, raw[2]) % 32
    ensures d.0.totPix % 256 == GetField(layout.totalLineWidthLo, raw[5])
         && d.0.totPix / 256 == GetField(layout.totalLineWidthHi, raw[4]) % 64
    ensures d.0.actLines % 256 == GetField(layout.field0HeightLo, raw[7])
         && d.0.actLines / 256 == GetField(layout.field0HeightHi, raw[6]) % 64
    ensures d.0.totLines % 256 == GetField(layout.field0TotalHeightLo, raw[9])
         && d.0.totLines / 256 == GetField(layout.field0TotalHeightHi, raw[8]) % 64
    ensures d.0.totPix == 0 || d.0.totLines == 0 ==> d.0.frRate == vid.frRate
    ensures vid.pixClk == 0 ==> d.0.pixClk == 0 && (d.0.frRate == 0 || d.0.frRate == vid.frRate)
    ensures d.1.pllLock == hdmi.pllLock && d.1.tmdsFreq == hdmi.tmdsFreq
    ensures d.1.colorDepth == GetField(layout.deepColourMode, raw[0])
         && d.1.pixRep == GetField(layout.pixelRepetition, raw[1])
    ensures d.0.pixClk == ScalePixClk(DepthOf(layout.depthCodes, d.1.colorDepth), vid.pixClk)
    ensures d.0.frRate == FrameRate(d.0.pixClk, FieldFactor(d.0.intrlcd), d.0.totLines, d.0.totPix, d.1.pixRep, vid.frRate)
  {
    Pow2Values();
    var cd := GetField(layout.deepColourMode, raw[0]);
    var pixRep := GetField(layout.pixelRepetition, raw[1]);
    var intrlcd := GetField(layout.dviHsyncPolarity, raw[1]);
    var ff := FieldFactor(intrlcd);
    var actPix := HiLo(GetField(layout.lineWidthHi, raw[2]), GetField(layout.lineWidthLo, raw[3]), ActPixHiBits);
    var totPix := HiLo(GetField(layout.totalLineWidthHi, raw[4]), GetField(layout.totalLineWidthLo, raw[5]), TotalHiBits);
    var actLines := HiLo(GetField(layout.field0HeightHi, raw[6]), GetField(layout.field0HeightLo, raw[7]), TotalHiBits);
    var totLines := HiLo(GetField(layout.field0TotalHeightHi, raw[8]), GetField(layout.field0TotalHeightLo, raw[9]), TotalHiBits);
    var pixClk := ScalePixClk(DepthOf(layout.depthCodes, cd), vid.pixClk);
    var fr := FrameRate(pixClk, ff, totLines, totPix, pixRep, vid.frRate);
    (VidParams(pixClk, actPix, actLines, totPix, totLines, fr, intrlcd),
     hdmi.(pixRep := pixRep, colorDepth := cd))
  }

  /** The result of adv7481_get_hdmi_timings: code, both records, and the transactions. */
  datatype HdmiRun = HdmiRun(ret: Int32, vid: VidParams, hdmi: HdmiParams, txns: seq<Txn>)

  /**
   * adv7481_get_hdmi_timings issued from log position k.  A PLL-lock field
   * of 0 returns -EBUSY after that single read with the video record
   * untouched.  Otherwise it reads the TMDS frequency, runs both lock polls
   * and decodes the parameters, and returns 0 whatever the polls saw.
   */
  function HdmiTimings(bus: Replies, layout: RegLayout, k: nat, vid: VidParams, hdmi: HdmiParams)
    : (h: HdmiRun)
    ensures h.ret == 0 || h.ret == -EBUSY
    ensures h.ret == -EBUSY <==> GetField(layout.pllLocked, Answer(bus, k)) == 0
    ensures h.ret == -EBUSY ==> h.txns == [Read(Hdmi, HdmiParam4)] && h.vid == vid
    ensures h.ret == 0 ==> 15 <= |h.txns| <= 3 + LockTries + 1 + 10
    ensures h.hdmi.pllLock == GetField(layout.pllLocked, Answer(bus, k))
    ensures vid.pixClk == 0 ==> h.vid.pixClk == 0
    ensures vid.pixClk == 0 && vid.frRate == 0 ==> h.vid.frRate == 0
  {
    var pll := GetField(layout.pllLocked, Answer(bus, k));
    var hdmi1 := hdmi.(pllLock := pll);
    if pll == 0 then HdmiRun(-EBUSY, vid, hdmi1, [Read(Hdmi, HdmiParam4)])
    else
      var r := HdmiLockedRun(bus, layout, k + 1, vid, hdmi1);
      HdmiRun(0, r.vid, r.hdmi, [Read(Hdmi, HdmiParam4)] + r.txns)
  }

  /** The TMDS frequency from its two registers, each step stored in 16 bits. */
  function TmdsFreqOf(layout: RegLayout, f1: Int32, f2: Int32): U16
  {
    ToU16(ToU16(2 * GetField(layout.tmdsFreqInt, f1) + GetField(layout.tmdsFreqBit0, f2))
          + GetField(layout.tmdsFreqFraction, f2) / 128)
  }

  /**
   * The part of adv7481_get_hdmi_timings after a PLL lock, from log
   * position j: what it reads, decoded.
   */
  function HdmiLockedRun(bus: Replies, layout: RegLayout, j: nat, vid: VidParams, hdmi: HdmiParams)
    : (h: HdmiRun)
    ensures h.ret == 0 && 14 <= |h.txns| <= 2 + LockTries + 1 + 10
    ensures h.hdmi.pllLock == hdmi.pllLock
    ensures h.hdmi.tmdsFreq == TmdsFreqOf(layout, Answer(bus, j), Answer(bus, j + 1))
    ensures vid.pixClk == 0 ==> h.vid.pixClk == 0
    ensures vid.pixClk == 0 && vid.frRate == 0 ==> h.vid.frRate == 0
  {
    LockPollsBounded(bus, layout, j + 2);
    AfterLock(layout, vid, hdmi, LockedReadsAt(bus, layout, j))
  }

  /** What adv7481_get_hdmi_timings reads after a PLL lock. */
  datatype LockedReads = LockedReads(freq: Int32, frac: Int32, polls: LockRun, params: seq<Int32>)

  /**
   * The reads after a PLL lock from log position j: the two TMDS
   * registers, the two polls, then the ten parameter registers.
   */
  function LockedReadsAt(bus: Replies, layout: RegLayout, j: nat): (v: LockedReads)
    ensures |v.params| == |ParamReads|
    ensures v.polls == LockPolls(bus, layout, j + 2)
  {
    var ps := LockPolls(bus, layout, j + 2);
    LockedReads(Answer(bus, j), Answer(bus, j + 1), ps,
                Samples(bus, j + 2 + ps.first.samples + ps.second.samples, |ParamReads|))
  }

  /** The transactions of the reads after a PLL lock, given how the polls ended. */
  function LockedTxns(ps: LockRun): (ts: seq<Txn>)
    ensures |ts| == 2 + ps.first.samples + ps.second.samples + |ParamReads|
  {
    [Read(Hdmi, TmdsFreq), Read(Hdmi, TmdsFreqFrac)]
    + Reads(PollRead(DeRegenLock), ps.first.samples) + Reads(PollRead(FilterLock), ps.second.samples)
    + ParamReads
  }

  /** What adv7481_get_hdmi_timings makes of the values it read after a PLL lock. */
  function AfterLock(layout: RegLayout, vid: VidParams, hdmi: HdmiParams, v: LockedReads): (h: HdmiRun)
    requires |v.params| == |ParamReads|
    ensures h.ret == 0 && h.txns == LockedTxns(v.polls)
    ensures h.hdmi.pllLock == hdmi.pllLock && h.hdmi.tmdsFreq == TmdsFreqOf(layout, v.freq, v.frac)
    ensures vid.pixClk == 0 ==> h.vid.pixClk == 0
    ensures vid.pixClk == 0 && vid.frRate == 0 ==> h.vid.frRate == 0
  {
    var d := DecodeParams(v.params, layout, vid, hdmi.(tmdsFreq := TmdsFreqOf(layout, v.freq, v.frac)));
    HdmiRun(0, d.0, d.1, LockedTxns(v.polls))
  }

  // ---------------------------------------------------------------------
  // adv7481_get_sd_timings and adv7481_query_sd_std.

  /** SDP_NUM_TRIES: the number of read pairs the debounce may take. */
  const SdTries := 30

  /** How the debounce ended: the pairs read and the last pair. */
  datatype SdPollEnd = SdPollEnd(pairs: nat, s1: Int32, s2: Int32)

  /** Whether the q-th pair read from log position k disagrees. */
  predicate PairDiffers(bus: Replies, k: nat, q: nat)
  {
    Answer(bus, k + 2 * q) != Answer(bus, k + 2 * q + 1)
  }

  /**
   * The debounce from log position k with `timeout` pairs already taken:
   * STATUS1 is read twice (with a sleep between) until the two reads agree
   * or SDP_NUM_TRIES pairs have been taken.
   */
  function SdPoll(bus: Replies, k: nat, timeout: nat): (p: SdPollEnd)
    requires timeout < SdTries
    ensures 1 <= p.pairs <= SdTries - timeout
    ensures p.s1 == Answer(bus, k + 2 * p.pairs - 2) && p.s2 == Answer(bus, k + 2 * p.pairs - 1)
    ensures p.s1 != p.s2 ==> timeout + p.pairs == SdTries
    ensures forall q :: 0 <= q < p.pairs - 1 ==> PairDiffers(bus, k, q)
    decreases SdTries - timeout
  {
    var s1, s2 := Answer(bus, k), Answer(bus, k + 1);
    if s1 != s2 && timeout + 1 < SdTries then
      var p := SdPoll(bus, k + 2, timeout + 1);
      assert PairDiffers(bus, k, 0);
      forall q | 1 <= q < p.pairs
        ensures PairDiffers(bus, k, q)
      {
        assert PairDiffers(bus, k + 2, q - 1);
      }
      SdPollEnd(p.pairs + 1, p.s1, p.s2)
    else SdPollEnd(1, s1, s2)
  }

  /**
   * SdPoll is the debounce loop's outcome: n pairs of which all but the
   * last disagree, ending either on an agreeing pair or on the last try.
   */
  lemma {:induction false} SdPollFrom(bus: Replies, k: nat, timeout: nat, n: nat, last: nat)
    requires 1 <= n && timeout + n <= SdTries && last == k + 2 * (n - 1)
    requires forall q :: 0 <= q < n - 1 ==> PairDiffers(bus, k, q)
    requires !PairDiffers(bus, k, n - 1) || timeout + n == SdTries
    ensures SdPoll(bus, k, timeout) == SdPollEnd(n, Answer(bus, last), Answer(bus, last + 1))
    decreases n
  {
    if n > 1 {
      assert PairDiffers(bus, k, 0);
      var k' := k + 2;
      forall q | 0 <= q < n - 2
        ensures PairDiffers(bus, k', q)
      {
        assert PairDiffers(bus, k, q + 1);
        assert k + 2 * (q + 1) == k' + 2 * q;
      }
      assert !PairDiffers(bus, k', n - 2) || timeout + 1 + (n - 1) == SdTries by {
        assert k + 2 * (n - 1) == k' + 2 * (n - 2);
      }
      SdPollFrom(bus, k', timeout + 1, n - 1, last);
    }
  }

  /** The result of adv7481_get_sd_timings: code, the standard written (None: untouched), transactions. */
  datatype SdRun = SdRun(ret: Int32, std: Option<int>, txns: seq<Txn>)

  /**
   * adv7481_get_sd_timings issued from log position k.  A null out-pointer
   * gives -EINVAL; a debounce whose last pair still differs gives
   * -ETIMEDOUT after 30 pairs; a stable status with bit 0 clear (no lock)
   * gives -EBUSY; otherwise the autodetect result is decoded and 0 returned.
   */
  function SdTimings(bus: Replies, layout: RegLayout, k: nat, stdNull: bool): (r: SdRun)
    ensures stdNull ==> r == SdRun(-EINVAL, None, [])
    ensures !stdNull ==>
      && 2 <= |r.txns| <= 2 * SdTries && |r.txns| % 2 == 0
      && (forall i :: 0 <= i < |r.txns| ==> r.txns[i] == Read(Sdp, SdpStatus1))
      && (r.ret == -ETIMEDOUT <==> Answer(bus, k + |r.txns| - 2) != Answer(bus, k + |r.txns| - 1))
      && (r.ret == -ETIMEDOUT ==> |r.txns| == 2 * SdTries)
      && (r.ret == -EBUSY <==> Answer(bus, k + |r.txns| - 2) == Answer(bus, k + |r.txns| - 1) && Answer(bus, k + |r.txns| - 2) % 2 == 0)
      && (r.ret == 0 <==> Answer(bus, k + |r.txns| - 2) == Answer(bus, k + |r.txns| - 1) && Answer(bus, k + |r.txns| - 2) % 2 == 1)
      && (r.ret == 0 <==> r.std.Some?)
      && (r.ret == 0 ==> r.std.value == StdOf(AdResultOf(layout, Answer(bus, k + |r.txns| - 2))))
  {
    if stdNull then SdRun(-EINVAL, None, [])
    else SdOutcome(layout, SdPoll(bus, k, 0))
  }

  /** What adv7481_get_sd_timings makes of a finished debounce. */
  function SdOutcome(layout: RegLayout, p: SdPollEnd): (r: SdRun)
    ensures |r.txns| == 2 * p.pairs
    ensures forall i :: 0 <= i < |r.txns| ==> r.txns[i] == Read(Sdp, SdpStatus1)
    ensures r.ret == -ETIMEDOUT <==> p.s1 != p.s2
    ensures r.ret == -EBUSY <==> p.s1 == p.s2 && p.s1 % 2 == 0
    ensures r.ret == 0 <==> p.s1 == p.s2 && p.s1 % 2 == 1
    ensures r.ret == 0 <==> r.std.Some?
    ensures r.ret == 0 ==> r.std.value == StdOf(AdResultOf(layout, p.s1))
  {
    var txns := Reads(Read(Sdp, SdpStatus1), 2 * p.pairs);
    if p.s1 != p.s2 then SdRun(-ETIMEDOUT, None, txns)
    else if p.s1 % 2 == 0 then SdRun(-EBUSY, None, txns)
    else SdRun(0, Some(StdOf(AdResultOf(layout, p.s1))), txns)
  }

  /** The result of adv7481_query_sd_std: code, the standard written (None: untouched), transactions. */
  datatype StdQuery = StdQuery(ret: Int32, std: Option<int>, txns: seq<Txn>)

  /**
   * adv7481_query_sd_std issued from log position k in input `mode`.  The
   * VDEC lock status is read first, whatever follows.  A null out-pointer or
   * a mode without an analog channel gives -EINVAL with nothing written.
   * Otherwise the debounce runs and the standard is written in every case:
   * the decoded standard when the lock status read was 0, else
   * V4L2_STD_UNKNOWN; the code is that of the debounce.
   */
  function QuerySdStd(bus: Replies, layout: RegLayout, k: nat, mode: AdvInput, stdNull: bool)
    : (q: StdQuery)
    ensures |q.txns| >= 1 && q.txns[0] == Read(Sdp, SdpVdecLock)
    ensures stdNull || !IsCvbs(mode) ==> q == StdQuery(-EINVAL, None, [Read(Sdp, SdpVdecLock)])
    ensures !stdNull && IsCvbs(mode) ==>
      && q.ret == SdTimings(bus, layout, k + 1, false).ret
      && q.std.Some?
      && (Answer(bus, k) != 0 ==> q.std.value == StdUnknown)
      && (q.ret != 0 ==> q.std.value == StdUnknown)
      && (Answer(bus, k) == 0 && q.ret == 0 ==> q.std == SdTimings(bus, layout, k + 1, false).std)
    ensures q.std.Some? && q.std.value != StdUnknown ==> Answer(bus, k) == 0 && q.ret == 0
  {
    var status := Answer(bus, k);
    if stdNull || !IsCvbs(mode) then StdQuery(-EINVAL, None, [Read(Sdp, SdpVdecLock)])
    else
      var sd := SdTimings(bus, layout, k + 1, false);
      var temp := if sd.std.Some? then sd.std.value else 0;
      StdQuery(sd.ret, Some(if status == 0 then temp else StdUnknown),
               [Read(Sdp, SdpVdecLock)] + sd.txns)
  }

  // ---------------------------------------------------------------------
  // adv7481_query_dv_timings.

  /** The v4l2_bt_timings fields the query fills in. */
  datatype BtTimings = BtTimings(bt656: bool, width: int, height: int, pixelclock: int, interlaced: bool)

  const ZeroTimings := BtTimings(false, 0, 0, 0, false)

  /** The result of adv7481_query_dv_timings: code, timings (None: untouched), whether the mutex stays held. */
  datatype DvQuery = DvQuery(ret: Int32, timings: Option<BtTimings>, keepsLock: bool, txns: seq<Txn>)

  predicate DvSupported(mode: AdvInput) { mode == IpHdmi || mode == IpCvbsHdmiSim(1) }

  /**
   * adv7481_query_dv_timings issued from log position k; `locked` says
   * whether the mutex was acquired.  In HDMI mode or CVBS_1_HDMI_SIM the
   * timings are zeroed, the HDMI timings are read (their code ignored) and
   * reported as BT.656/1120 with the active size, the height halved when
   * interlaced, and the pixel clock of a zeroed record; the call returns 0.
   * In any other mode it returns -EINVAL with the timings zeroed and the
   * mutex still held.
   */
  function QueryDv(bus: Replies, layout: RegLayout, k: nat, mode: AdvInput,
                   timingsNull: bool, locked: bool): (q: DvQuery)
    ensures timingsNull ==> q == DvQuery(-EINVAL, None, false, [])
    ensures !timingsNull && !locked ==> q == DvQuery(-EINTR, None, false, [])
    ensures !timingsNull && locked ==>
      && q.timings.Some?
      && (q.ret == 0 <==> DvSupported(mode))
      && (q.ret != 0 ==> q.ret == -EINVAL && q.timings.value == ZeroTimings)
      && (q.keepsLock <==> !DvSupported(mode))
    ensures q.ret == 0 ==> q.timings.Some? && q.timings.value.pixelclock == 0 && q.timings.value.bt656
    ensures q.ret == 0 ==> var t := q.timings.value;
      t.interlaced ==> 2 * t.height <= HdmiTimings(bus, layout, k, ZeroVid, ZeroHdmi).vid.actLines
    ensures q.ret == 0 ==> var t, h := q.timings.value, HdmiTimings(bus, layout, k, ZeroVid, ZeroHdmi);
      && t.width == h.vid.actPix
      && t.interlaced == (h.vid.intrlcd != 0)
      && t.height == (if t.interlaced then h.vid.actLines / 2 else h.vid.actLines)
      && q.txns == h.txns
  {
    if timingsNull then DvQuery(-EINVAL, None, false, [])
    else if !locked then DvQuery(-EINTR, None, false, [])
    else if DvSupported(mode) then
      var h := HdmiTimings(bus, layout, k, ZeroVid, ZeroHdmi);
      var v := h.vid;
      var interlaced := v.intrlcd != 0;
      DvQuery(0, Some(BtTimings(true, v.actPix, if interlaced then v.actLines / 2 else v.actLines,
                                v.pixClk, interlaced)), false, h.txns)
    else DvQuery(-EINVAL, Some(ZeroTimings), true, [])
  }

  /** adv7481_g_frame_interval: a fixed interval of 1/60 second, always successful. */
  function GFrameInterval(): (r: IntervalReply)
    ensures r.rc == 0 && r.denominator == 60 * r.numerator && r.numerator == 1
  {
    IntervalReply(0, 1, 60)
  }
}
