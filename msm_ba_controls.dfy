/**
 * The MSM bridge-abstraction control surface: the frame-rate query with its
 * Q16 conversion, the node-address control read and written through the
 * input registry, and the two V4L2 control callbacks that walk a control
 * cluster.
 *
 * The instance is reduced to what these paths use: the index of its
 * selected input and the frame-interval answer of its subdevice.
 */
module MsmBaControls {
  import opened CInt
  import opened MsmBaTypes
  import opened MsmBaRegistry
  import Adv7481Timing

  /** The parts of an msm_ba_inst the controls read; `sd` is None when no subdevice is registered. */
  datatype Inst = Inst(inputIndex: int, sd: Option<IntervalReply>)

  /** The two private controls and any other control id. */
  datatype CtrlId = NodeAddrCtrl | FpsCtrl | OtherCtrl(id: int)

  /** The value a control read leaves in `ctrl->val`: a known int, or what an undefined shift produced. */
  datatype CtrlVal = Known(v: Int32) | Unspecified

  // ---------------------------------------------------------------------
  // The Q16 conversion.

  /** ilog2: the position of the highest set bit. */
  function Ilog2(n: nat): (r: nat)
    requires n >= 1
    ensures Pow2(r) <= n < Pow2(r + 1)
  {
    if n == 1 then 0 else 1 + Ilog2(n / 2)
  }

  /** `x << s` on a `u32`: the bits shifted past bit 31 are lost. */
  function ShlU32(x: U32, s: nat): U32
  {
    (x * Pow2(s)) % 0x1_0000_0000
  }

  /**
   * BA_FRAC_TO_Q16 stored into an `int`: num << (16 - ilog2(den)), all in
   * `u32`.  When ilog2(den) exceeds 16 the unsigned difference wraps and the
   * shift count exceeds the width, which C leaves undefined.
   */
  function FracToQ16(num: U32, den: U32): CtrlVal
    requires den != 0
  {
    var pwr := Ilog2(den);
    if pwr <= 16 then Known(U32ToInt32(ShlU32(num, 16 - pwr))) else Unspecified
  }

  /** What msm_ba_g_fps answers: its return code and what it stored (None: the output was not touched). */
  datatype FpsResult = FpsResult(rc: Int32, fps: Option<CtrlVal>)

  /**
   * msm_ba_g_fps: `outNull` says the output pointer is NULL.  With a zero
   * denominator the numerator is moved up 16 bits and the low bit set
   * (the shifted value's low bits are clear, so the OR adds one).
   */
  function GFps(inst: Option<Inst>, outNull: bool): FpsResult
  {
    if inst.None? || outNull then FpsResult(-EINVAL, None)
    else match inst.value.sd
      case None => FpsResult(-EINVAL, None)
      case Some(reply) =>
        if reply.rc != 0 then FpsResult(reply.rc, None)
        else if reply.denominator != 0 then FpsResult(0, Some(FracToQ16(reply.numerator, reply.denominator)))
        else FpsResult(0, Some(Known(U32ToInt32(ShiftUpSetLow(reply.numerator)))))
  }

  /**
   * `(num << 16) | 1` on a `u32`: the numerator's low 16 bits moved up, and
   * the low bit set (the shifted value's low bits are clear, so the OR adds
   * one).
   */
  function ShiftUpSetLow(num: U32): U32
  {
    (num % 0x1_0000) * 0x1_0000 + 1
  }

  /**
   * The outcomes of msm_ba_g_fps: -EINVAL without an instance, an output or
   * a subdevice; the subdevice's error, with the output untouched, when its
   * g_frame_interval fails; otherwise success and a stored value.
   */
  lemma GFpsOutcomes(inst: Option<Inst>, outNull: bool)
    ensures var r := GFps(inst, outNull);
      && (inst.None? || outNull || inst.value.sd.None? ==> r == FpsResult(-EINVAL, None))
      && (inst.Some? && !outNull && inst.value.sd.Some? ==> r.rc == inst.value.sd.value.rc)
      && (r.fps.Some? <==> r.rc == 0)
  {
  }

  /** Pow2 of a sum is the product of the Pow2s. */
  lemma {:induction false} Pow2Add(a: nat, b: nat)
    ensures Pow2(a + b) == Pow2(a) * Pow2(b)
    decreases a
  {
    if a > 0 {
      Pow2Add(a - 1, b);
    }
  }

  /**
   * For a denominator below 2^17 and a non-zero numerator small enough not
   * to lose bits, the Q16 value q brackets num/den within a factor of two:
   * num/den <= q/2^16 < 2 * num/den.  The denominator is rounded down to a
   * power of two.
   */
  lemma Q16Bounds(num: U32, den: U32)
    requires 0 < den < 0x2_0000 && 0 < num < 0x8000
    ensures FracToQ16(num, den).Known?
    ensures var q := FracToQ16(num, den).v;
      num * 0x1_0000 <= q * den < 2 * num * 0x1_0000
  {
    var p := Ilog2(den);
    assert p <= 16 by {
      if p > 16 {
        Pow2Le(17, p);
        Pow2Small();
      }
    }
    Pow2Add(16 - p, p);
    Pow2Small();
    ShlNoWrap(num, 16 - p);
    Bracket(num, Pow2(16 - p), Pow2(p), den);
  }

  lemma Pow2Small()
    ensures Pow2(16) == 0x1_0000 && Pow2(17) == 0x2_0000
  {
    Pow2Values();
  }

  /** A shift of a value below 2^15 by at most 16 bits loses nothing and stays a positive `int`. */
  lemma ShlNoWrap(x: U32, s: nat)
    requires x < 0x8000 && s <= 16
    ensures ShlU32(x, s) == x * Pow2(s) < 0x8000_0000
    ensures U32ToInt32(ShlU32(x, s)) == x * Pow2(s)
  {
    var y := x * Pow2(s);
    assert y < 0x8000_0000 by {
      Pow2Le(s, 16);
      Pow2Small();
      MulMono(x, Pow2(s), 0x1_0000);
    }
    assert y % 0x1_0000_0000 == y;
  }

  /** The arithmetic of Q16Bounds: n*m*den lies in [n*m*P, 2*n*m*P) when P <= den < 2P. */
  lemma Bracket(n: nat, m: nat, pw: nat, den: nat)
    requires m * pw == 0x1_0000 && pw <= den < 2 * pw && n > 0
    ensures n * 0x1_0000 <= n * m * den < 2 * n * 0x1_0000
  {
    assert m > 0;
    var k := n * m;
    MulMono(k, pw, den);
    MulMonoStrict(k, den, 2 * pw);
    assert k * pw == n * 0x1_0000 by {
      assert k * pw == n * (m * pw);
    }
    assert k * (2 * pw) == 2 * (k * pw);
  }

  lemma MulMono(k: nat, a: nat, b: nat)
    requires a <= b
    ensures k * a <= k * b
  {
  }

  lemma MulMonoStrict(k: nat, a: nat, b: nat)
    requires a < b && k > 0
    ensures k * a < k * b
  {
  }

  /** ilog2 is the only exponent whose power of two brackets its argument. */
  lemma {:induction false} Ilog2Unique(n: nat, r: nat)
    requires 1 <= n && Pow2(r) <= n < Pow2(r + 1)
    ensures Ilog2(n) == r
  {
    var k := Ilog2(n);
    if k < r {
      Pow2Le(k + 1, r);
    } else if k > r {
      Pow2Le(r + 1, k);
    }
  }

  /**
   * The ADV7481's fixed 1/60 interval: ilog2(60) is 5, so the stored value
   * is 1 << 11.
   */
  lemma Adv7481Fps(index: int)
    ensures GFps(Some(Inst(index, Some(Adv7481Timing.GFrameInterval()))), false) == FpsResult(0, Some(Known(2048)))
  {
    assert Pow2(5) == 32 && Pow2(6) == 64 && Pow2(11) == 2048 by {
      Pow2Values();
    }
    Ilog2Unique(60, 5);
    ShlNoWrap(1, 11);
  }

  /**
   * With a zero denominator the stored value, read as a `u32`, carries the
   * numerator's low 16 bits above a set low bit.
   */
  lemma ZeroDenominator(inst: Inst, num: U32)
    requires inst.sd == Some(IntervalReply(0, num, 0))
    ensures var r := GFps(Some(inst), false);
      r.rc == 0 && r.fps.Some? && r.fps.value.Known?
      && var u := ShiftUpSetLow(num);
      U32ToInt32(u) == r.fps.value.v && u == ShlU32(num, 16) + 1
      && u % 0x1_0000 == 1 && u / 0x1_0000 == num % 0x1_0000
  {
    Pow2Values();
    assert ShlU32(num, 16) == (num * 0x1_0000) % 0x1_0000_0000;
    assert num * 0x1_0000 == (num / 0x1_0000) * 0x1_0000_0000 + (num % 0x1_0000) * 0x1_0000;
  }

  // ---------------------------------------------------------------------
  // Reading and writing one control.

  /** What msm_ba_try_get_ctrl answers: its return code and the control's value afterwards. */
  datatype Got = Got(rc: Int32, val: CtrlVal)

  /**
   * msm_ba_try_get_ctrl over the registered inputs `xs`: the node address of
   * the instance's input, or the frame rate; anything else is -EINVAL with
   * the value left as it was.
   */
  function TryGet(inst: Option<Inst>, xs: seq<Input>, id: CtrlId, val: CtrlVal): Got
  {
    if inst.None? then Got(-EINVAL, val)
    else match id
      case NodeAddrCtrl =>
        (match FindInput(xs, inst.value.inputIndex)
         case Some(j) => Got(0, Known(xs[j].nodeAddr))
         case None => Got(-EINVAL, val))
      case FpsCtrl =>
        var f := GFps(inst, false);
        Got(f.rc, if f.fps.Some? then f.fps.value else val)
      case OtherCtrl(_) => Got(-EINVAL, val)
  }

  /** What msm_ba_try_set_ctrl answers: its return code and the registered inputs afterwards. */
  datatype Set = Set(rc: Int32, inputs: seq<Input>)

  /** The list with entry j's node address replaced. */
  function WithNodeAddr(xs: seq<Input>, j: nat, v: Int32): seq<Input>
    requires j < |xs|
  {
    xs[j := xs[j].(nodeAddr := v)]
  }

  /**
   * msm_ba_try_set_ctrl: only the node address is writable, into the entry
   * msm_ba_find_input gives for the instance's input.
   */
  function TrySet(inst: Option<Inst>, xs: seq<Input>, id: CtrlId, v: Int32): Set
  {
    if inst.None? || !id.NodeAddrCtrl? then Set(-EINVAL, xs)
    else match FindInput(xs, inst.value.inputIndex)
      case Some(j) => Set(0, WithNodeAddr(xs, j, v))
      case None => Set(-EINVAL, xs)
  }

  /**
   * The outcomes of a read: -EINVAL without an instance, for an unknown id,
   * or for the node address when no entry has the instance's input; a
   * failed read leaves the value as it was.
   */
  lemma TryGetOutcomes(inst: Option<Inst>, xs: seq<Input>, id: CtrlId, val: CtrlVal)
    ensures var g := TryGet(inst, xs, id, val);
      && (inst.None? || id.OtherCtrl? ==> g == Got(-EINVAL, val))
      && (inst.Some? && id.NodeAddrCtrl? ==>
            (g.rc == 0 <==> FindInput(xs, inst.value.inputIndex).Some?))
      && (g.rc != 0 ==> g.val == val)
  {
  }

  /**
   * A successful read does not depend on the value it replaces, and reading
   * again gives the same answer: the value is derived afresh from the
   * registry and the subdevice on every call.
   */
  lemma TryGetFresh(inst: Option<Inst>, xs: seq<Input>, id: CtrlId, v1: CtrlVal, v2: CtrlVal)
    ensures TryGet(inst, xs, id, v1).rc == TryGet(inst, xs, id, v2).rc
    ensures TryGet(inst, xs, id, v1).rc == 0 ==> TryGet(inst, xs, id, v1) == TryGet(inst, xs, id, v2)
    ensures TryGet(inst, xs, id, TryGet(inst, xs, id, v1).val) == TryGet(inst, xs, id, v1)
  {
  }

  /**
   * The outcomes of a write: -EINVAL with nothing changed without an
   * instance, for any id but the node address (the frame rate is
   * read-only), or when no entry has the instance's input; otherwise only
   * that entry's node address changes.
   */
  lemma TrySetOutcomes(inst: Option<Inst>, xs: seq<Input>, id: CtrlId, v: Int32)
    ensures var s := TrySet(inst, xs, id, v);
      && (s.rc == 0 <==> inst.Some? && id.NodeAddrCtrl? && FindInput(xs, inst.value.inputIndex).Some?)
      && (s.rc != 0 ==> s.rc == -EINVAL && s.inputs == xs)
      && |s.inputs| == |xs|
      && forall k :: 0 <= k < |xs| ==>
           s.inputs[k] == (if s.rc == 0 && k == FindInput(xs, inst.value.inputIndex).value
                           then xs[k].(nodeAddr := v) else xs[k])
  {
  }

  /** Writing a node address keeps every entry's row number, so lookups find the same entries. */
  lemma SetKeepsFind(xs: seq<Input>, j: nat, v: Int32, baIp: int)
    requires j < |xs|
    ensures FindInput(WithNodeAddr(xs, j, v), baIp) == FindInput(xs, baIp)
  {
    var ys := WithNodeAddr(xs, j, v);
    assert forall k :: 0 <= k < |xs| ==> ys[k].baIp == xs[k].baIp;
    match FindInput(xs, baIp)
    case None =>
    case Some(i) =>
      assert ys[i].baIp == baIp;
  }

  /**
   * The node-address round trip: after a successful write of v, a read of
   * the node address gives v, whatever value the control held.
   */
  lemma NodeAddrRoundTrip(inst: Option<Inst>, xs: seq<Input>, v: Int32, val: CtrlVal)
    requires TrySet(inst, xs, NodeAddrCtrl, v).rc == 0
    ensures TryGet(inst, TrySet(inst, xs, NodeAddrCtrl, v).inputs, NodeAddrCtrl, val) == Got(0, Known(v))
  {
    var j := FindInput(xs, inst.value.inputIndex).value;
    SetKeepsFind(xs, j, v, inst.value.inputIndex);
  }

  /** msm_ba_try_set_ctrl on the device context's list. */
  method TrySetCtrl(dev: BaDev, inst: Option<Inst>, id: CtrlId, v: Int32) returns (rc: Int32)
    modifies dev
    ensures Set(rc, dev.inputs) == TrySet(inst, old(dev.inputs), id, v)
    ensures dev.numInputs == old(dev.numInputs)
  {
    if inst.None? {
      return -EINVAL;
    }
    match id {
      case NodeAddrCtrl =>
        var found := FindInput(dev.inputs, inst.value.inputIndex);
        if found.Some? {
          dev.inputs := WithNodeAddr(dev.inputs, found.value, v);
          rc := 0;
        } else {
          rc := -EINVAL;
        }
      case FpsCtrl =>
        rc := -EINVAL;
      case OtherCtrl(_) =>
        rc := -EINVAL;
    }
  }

  // ---------------------------------------------------------------------
  // The control callbacks.

  /** One control of a cluster: its id, whether the framework marked it new, and the value to set. */
  datatype ClusterMember = ClusterMember(id: CtrlId, isNew: bool, val: Int32)

  /**
   * Setting a cluster in order: members not marked new are skipped, and
   * the first failed write ends the walk with its error.
   */
  function ApplyCluster(inst: Option<Inst>, xs: seq<Input>, cl: seq<ClusterMember>): Set
    decreases |cl|
  {
    if cl == [] then Set(0, xs)
    else if !cl[0].isNew then ApplyCluster(inst, xs, cl[1..])
    else
      var s := TrySet(inst, xs, cl[0].id, cl[0].val);
      if s.rc != 0 then s else ApplyCluster(inst, s.inputs, cl[1..])
  }

  /** msm_ba_op_s_ctrl: -EINVAL without an instance, else the cluster applied. */
  function OpSCtrlSpec(inst: Option<Inst>, xs: seq<Input>, cl: seq<ClusterMember>): Set
  {
    if inst.None? then Set(-EINVAL, xs) else ApplyCluster(inst, xs, cl)
  }

  /** The members marked new, in cluster order. */
  function Flagged(cl: seq<ClusterMember>): seq<ClusterMember>
  {
    if cl == [] then [] else (if cl[0].isNew then [cl[0]] else []) + Flagged(cl[1..])
  }

  /** Members not marked new play no part: the cluster acts as its flagged members alone. */
  lemma {:induction false} UnflaggedIgnored(inst: Option<Inst>, xs: seq<Input>, cl: seq<ClusterMember>)
    ensures ApplyCluster(inst, xs, cl) == ApplyCluster(inst, xs, Flagged(cl))
    decreases |cl|
  {
    if cl != [] {
      var f := Flagged(cl[1..]);
      if cl[0].isNew {
        assert Flagged(cl) == [cl[0]] + f;
        assert Flagged(cl)[1..] == f;
        var s := TrySet(inst, xs, cl[0].id, cl[0].val);
        UnflaggedIgnored(inst, s.inputs, cl[1..]);
      } else {
        assert Flagged(cl) == f;
        UnflaggedIgnored(inst, xs, cl[1..]);
      }
    }
  }

  /**
   * Walking a cluster in two parts: the second part is applied only when
   * the first succeeded, so after a failure no later member is written.
   */
  lemma {:induction false} ClusterSplit(inst: Option<Inst>, xs: seq<Input>, c1: seq<ClusterMember>, c2: seq<ClusterMember>)
    ensures ApplyCluster(inst, xs, c1 + c2)
         == (var s := ApplyCluster(inst, xs, c1); if s.rc != 0 then s else ApplyCluster(inst, s.inputs, c2))
    decreases |c1|
  {
    if c1 != [] {
      assert (c1 + c2)[1..] == c1[1..] + c2;
      if c1[0].isNew {
        var s := TrySet(inst, xs, c1[0].id, c1[0].val);
        if s.rc == 0 {
          ClusterSplit(inst, s.inputs, c1[1..], c2);
        }
      } else {
        ClusterSplit(inst, xs, c1[1..], c2);
      }
    } else {
      assert c1 + c2 == c2;
    }
  }

  /**
   * With an instance, a cluster is set without error exactly when every
   * member marked new is the node address and the instance's input is
   * registered; a failed walk returns -EINVAL.
   */
  lemma {:induction false} ClusterSucceeds(inst: Option<Inst>, xs: seq<Input>, cl: seq<ClusterMember>)
    requires inst.Some?
    ensures var s := ApplyCluster(inst, xs, cl);
      && (s.rc == 0 <==> forall k :: 0 <= k < |cl| && cl[k].isNew ==>
                             cl[k].id.NodeAddrCtrl? && FindInput(xs, inst.value.inputIndex).Some?)
      && (s.rc != 0 ==> s.rc == -EINVAL)
    decreases |cl|
  {
    if cl != [] {
      if cl[0].isNew {
        var s := TrySet(inst, xs, cl[0].id, cl[0].val);
        if s.rc == 0 {
          var j := FindInput(xs, inst.value.inputIndex).value;
          SetKeepsFind(xs, j, cl[0].val, inst.value.inputIndex);
          ClusterSucceeds(inst, s.inputs, cl[1..]);
          assert forall k :: 1 <= k < |cl| ==> cl[k] == cl[1..][k - 1];
        } else {
          assert !(cl[0].id.NodeAddrCtrl? && FindInput(xs, inst.value.inputIndex).Some?);
        }
      } else {
        ClusterSucceeds(inst, xs, cl[1..]);
        assert forall k :: 1 <= k < |cl| ==> cl[k] == cl[1..][k - 1];
      }
    }
  }

  /** msm_ba_op_s_ctrl on the device context's list. */
  method OpSCtrl(dev: BaDev, inst: Option<Inst>, cl: seq<ClusterMember>) returns (rc: Int32)
    modifies dev
    ensures Set(rc, dev.inputs) == OpSCtrlSpec(inst, old(dev.inputs), cl)
    ensures dev.numInputs == old(dev.numInputs)
  {
    if inst.None? {
      return -EINVAL;
    }
    rc := 0;
    var c := 0;
    while c < |cl|
      invariant 0 <= c <= |cl| && rc == 0
      invariant ApplyCluster(inst, old(dev.inputs), cl) == ApplyCluster(inst, dev.inputs, cl[c..])
      invariant dev.numInputs == old(dev.numInputs)
    {
      assert cl[c..][1..] == cl[c + 1..];
      if cl[c].isNew {
        rc := TrySetCtrl(dev, inst, cl[c].id, cl[c].val);
        if rc != 0 {
          return;
        }
      }
      c := c + 1;
    }
  }

  /**
   * msm_ba_op_g_volatile_ctrl for control `id` of a cluster whose ids are
   * `ids`: every member with that id triggers a read of the control, and
   * the first failure is returned.
   */
  method OpGVolatileCtrl(inst: Option<Inst>, xs: seq<Input>, ids: seq<CtrlId>, id: CtrlId, val: CtrlVal)
    returns (rc: Int32, val': CtrlVal)
    ensures Got(rc, val') == (if id in ids then TryGet(inst, xs, id, val) else Got(0, val))
  {
    rc, val' := 0, val;
    var c := 0;
    while c < |ids|
      invariant 0 <= c <= |ids| && rc == 0
      invariant if id in ids[..c] then Got(0, val') == TryGet(inst, xs, id, val) else val' == val
    {
      assert ids[..c + 1] == ids[..c] + [ids[c]];
      if ids[c] == id {
        var g := TryGet(inst, xs, id, val');
        TryGetFresh(inst, xs, id, val, val');
        rc, val' := g.rc, g.val;
        if rc != 0 {
          return;
        }
      }
      c := c + 1;
    }
    assert ids[..c] == ids;
  }
}
