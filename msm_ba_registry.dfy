/**
 * The MSM bridge-abstraction input registry: the fixed catalogue of bridge
 * inputs, the list of registered inputs a bridge chip's probe adds to and
 * its removal deletes from, and the lookups over that list.
 *
 * A subdevice is named by an identity (standing for its pointer) and its
 * name; an entry of the list is a value, and the list is a sequence in list
 * order, so a lookup answers with the position of the entry it found.
 */
module MsmBaRegistry {
  import opened CInt
  import opened MsmBaTypes

  /** One row of msm_ba_inp_cfg. */
  datatype InputConfig = InputConfig(
    kind: InputKind, index: nat, name: string, baIp: BaInput, baOut: nat, sdName: string, signalStatus: int)

  /** The catalogue: CVBS-0/1 and COMP-0 on the first ADV7180, CVBS-2..4 on the second, HDMI-1 on the ADV7481. */
  const Catalogue: seq<InputConfig> := [
    InputConfig(InputCvbs, 0, "CVBS-0", BaCvbs(0), 0, "adv7180", 1),
    InputConfig(InputCvbs, 1, "CVBS-1", BaCvbs(1), 0, "adv7180", 1),
    InputConfig(InputComponent, 0, "COMP-0", BaComponent(0), 0, "adv7180", 1),
    InputConfig(InputCvbs, 2, "CVBS-2", BaCvbs(0), 1, "adv7180", 1),
    InputConfig(InputCvbs, 3, "CVBS-3", BaCvbs(1), 1, "adv7180", 1),
    InputConfig(InputCvbs, 4, "CVBS-4", BaCvbs(2), 1, "adv7180", 1),
    InputConfig(InputHdmi, 0, "HDMI-1", BaHdmi1, 2, "adv7481", 1)
  ]

  /** A registered subdevice: its identity and its name. */
  datatype Subdev = Subdev(id: nat, name: string)

  /**
   * One registered input (struct msm_ba_input): what was copied from its
   * catalogue row, the row number `baIp`, the owning subdevice, the signal
   * status seeded at registration and the node address set through the
   * control interface.
   */
  datatype Input = Input(
    kind: InputKind, nameIndex: nat, name: string, bridgeChipIp: BaInput, baOut: nat,
    baIp: nat, sd: nat, signalStatus: Int32, nodeAddr: Int32)

  /** The list of registered inputs and the counter kept beside it. */
  datatype Registry = Registry(inputs: seq<Input>, numInputs: nat)

  /**
   * The memcmp of msm_ba_add_inputs: the first |prefix| bytes of the device
   * name equal the catalogue's subdevice name.  A shorter device name ends
   * in its terminating zero byte, which no catalogue name contains, so it
   * never matches.
   */
  predicate NamePrefix(prefix: string, name: string)
  {
    |prefix| <= |name| && name[..|prefix|] == prefix
  }

  /** Row i belongs to the batch with ordinal `ord` of a device called `name`. */
  predicate RowMatches(cat: seq<InputConfig>, i: nat, name: string, ord: nat)
    requires i < |cat|
  {
    NamePrefix(cat[i].sdName, name) && cat[i].baOut == ord
  }

  /**
   * The entry msm_ba_add_inputs builds for row i: zero-filled, the row's
   * fields copied, and the signal status taken from g_input_status only
   * when that call succeeded (None: it failed).
   */
  function NewEntry(cat: seq<InputConfig>, i: nat, sd: Subdev, status: Option<Int32>): (e: Input)
    requires i < |cat|
    ensures e.baIp == i && e.sd == sd.id && e.nodeAddr == 0
    ensures e.kind == cat[i].kind && e.nameIndex == cat[i].index
    ensures e.name == cat[i].name && e.bridgeChipIp == cat[i].baIp && e.baOut == cat[i].baOut
    ensures e.signalStatus == (if status.Some? then status.value else 0)
  {
    var row := cat[i];
    Input(row.kind, row.index, row.name, row.baIp, row.baOut, i, sd.id,
          if status.Some? then status.value else 0, 0)
  }

  /**
   * The entries the scan appends from row i of `cat` on: one per matching
   * row, until an allocation fails (`allocs` counts the allocations that
   * still succeed).
   */
  function Scan(cat: seq<InputConfig>, sd: Subdev, ord: nat, i: nat, status: Option<Int32>, allocs: nat): seq<Input>
    decreases |cat| - i
  {
    if i >= |cat| then []
    else if RowMatches(cat, i, sd.name, ord) then
      if allocs == 0 then [] else [NewEntry(cat, i, sd, status)] + Scan(cat, sd, ord, i + 1, status, allocs - 1)
    else Scan(cat, sd, ord, i + 1, status, allocs)
  }

  /** Where msm_ba_add_inputs starts: the counter when the list is non-empty, else row 0. */
  function StartIndex(r: Registry): nat
  {
    if r.inputs == [] then 0 else r.numInputs
  }

  /**
   * The batch ordinal, read from the starting row.  Past the end of the
   * catalogue there is no row to read and nothing to scan: the loop bound
   * skips every row there.
   */
  function BatchOrdinal(cat: seq<InputConfig>, start: nat): (o: Option<nat>)
    ensures o.Some? <==> start < |cat|
    ensures o.Some? ==> o.value == cat[start].baOut
  {
    if start < |cat| then Some(cat[start].baOut) else None
  }

  /**
   * The batch ordinal as msm_ba_add_inputs reads it: from cfg[start], with
   * no check that the row exists.
   */
  function BatchOrdinalAsWritten(cat: seq<InputConfig>, start: nat): (o: nat)
    requires start < |cat|
    ensures BatchOrdinal(cat, start) == Some(o)
  {
    cat[start].baOut
  }

  /** The entries msm_ba_add_inputs appends for `sd`, scanning the table `cat`. */
  function NewEntries(cat: seq<InputConfig>, r: Registry, sd: Subdev, status: Option<Int32>, allocs: nat): seq<Input>
  {
    var start := StartIndex(r);
    match BatchOrdinal(cat, start)
    case None => []
    case Some(ord) => Scan(cat, sd, ord, start, status, allocs)
  }

  /** The registry after msm_ba_add_inputs: the new entries at the tail, the counter raised by as many. */
  function AfterAdd(cat: seq<InputConfig>, r: Registry, sd: Subdev, status: Option<Int32>, allocs: nat): Registry
  {
    var es := NewEntries(cat, r, sd, status, allocs);
    Registry(r.inputs + es, r.numInputs + |es|)
  }

  /** The list without the entries of subdevice `sd`, the others in order. */
  function RemoveSd(xs: seq<Input>, sd: nat): seq<Input>
  {
    if xs == [] then []
    else (if xs[0].sd == sd then [] else [xs[0]]) + RemoveSd(xs[1..], sd)
  }

  /** The registry after msm_ba_del_inputs: the counter is left as it was. */
  function AfterDel(r: Registry, sd: nat): Registry
  {
    Registry(RemoveSd(r.inputs, sd), r.numInputs)
  }

  // ---------------------------------------------------------------------
  // Properties of the scan.

  /** The scan appends at most one entry per allocation and per remaining row. */
  lemma {:induction false} ScanBound(cat: seq<InputConfig>, sd: Subdev, ord: nat, i: nat, status: Option<Int32>, allocs: nat)
    ensures |Scan(cat, sd, ord, i, status, allocs)| <= allocs
    ensures i <= |cat| ==> |Scan(cat, sd, ord, i, status, allocs)| <= |cat| - i
    decreases |cat| - i
  {
    if i < |cat| {
      if RowMatches(cat, i, sd.name, ord) {
        if allocs > 0 {
          ScanBound(cat, sd, ord, i + 1, status, allocs - 1);
        }
      } else {
        ScanBound(cat, sd, ord, i + 1, status, allocs);
      }
    }
  }

  /** Every appended entry is built from a matching row at or after i. */
  lemma {:induction false} ScanRows(cat: seq<InputConfig>, sd: Subdev, ord: nat, i: nat, status: Option<Int32>, allocs: nat, j: nat)
    requires j < |Scan(cat, sd, ord, i, status, allocs)|
    ensures var e := Scan(cat, sd, ord, i, status, allocs)[j];
      i + j <= e.baIp < |cat| && RowMatches(cat, e.baIp, sd.name, ord) && e == NewEntry(cat, e.baIp, sd, status)
    decreases |cat| - i
  {
    if RowMatches(cat, i, sd.name, ord) {
      if j > 0 {
        ScanRows(cat, sd, ord, i + 1, status, allocs - 1, j - 1);
      }
    } else {
      ScanRows(cat, sd, ord, i + 1, status, allocs, j);
    }
  }

  /** The entries appear in increasing row order, so no row is registered twice. */
  lemma {:induction false} ScanOrdered(cat: seq<InputConfig>, sd: Subdev, ord: nat, i: nat, status: Option<Int32>, allocs: nat, j1: nat, j2: nat)
    requires j1 < j2 < |Scan(cat, sd, ord, i, status, allocs)|
    ensures Scan(cat, sd, ord, i, status, allocs)[j1].baIp < Scan(cat, sd, ord, i, status, allocs)[j2].baIp
    decreases |cat| - i
  {
    if RowMatches(cat, i, sd.name, ord) {
      if j1 == 0 {
        ScanRows(cat, sd, ord, i + 1, status, allocs - 1, j2 - 1);
      } else {
        ScanOrdered(cat, sd, ord, i + 1, status, allocs - 1, j1 - 1, j2 - 1);
      }
    } else {
      ScanOrdered(cat, sd, ord, i + 1, status, allocs, j1, j2);
    }
  }

  /**
   * When fewer entries were appended than allocations were available, no
   * allocation failed and every matching row from i on got its entry.
   */
  lemma {:induction false} ScanComplete(cat: seq<InputConfig>, sd: Subdev, ord: nat, i: nat, status: Option<Int32>, allocs: nat, row: nat)
    requires i <= row < |cat| && RowMatches(cat, row, sd.name, ord)
    requires |Scan(cat, sd, ord, i, status, allocs)| < allocs
    ensures exists j :: 0 <= j < |Scan(cat, sd, ord, i, status, allocs)|
                        && Scan(cat, sd, ord, i, status, allocs)[j].baIp == row
    decreases |cat| - i
  {
    var es := Scan(cat, sd, ord, i, status, allocs);
    if row == i {
      assert es[0].baIp == row;
    } else if RowMatches(cat, i, sd.name, ord) {
      var rest := Scan(cat, sd, ord, i + 1, status, allocs - 1);
      ScanComplete(cat, sd, ord, i + 1, status, allocs - 1, row);
      var j :| 0 <= j < |rest| && rest[j].baIp == row;
      assert es[j + 1] == rest[j];
    } else {
      ScanComplete(cat, sd, ord, i + 1, status, allocs, row);
    }
  }

  /**
   * msm_ba_add_inputs only appends: the entries already present stay, in
   * order, and the counter grows by the number appended, at most one per
   * allocation.  Past the end of the table nothing changes.
   */
  lemma AddAppends(cat: seq<InputConfig>, r: Registry, sd: Subdev, status: Option<Int32>, allocs: nat)
    ensures var r' := AfterAdd(cat, r, sd, status, allocs);
      && r'.inputs[..|r.inputs|] == r.inputs
      && r'.numInputs - r.numInputs == |r'.inputs| - |r.inputs| <= allocs
      && (StartIndex(r) >= |cat| ==> r' == r)
  {
    var r' := AfterAdd(cat, r, sd, status, allocs);
    assert r'.inputs[..|r.inputs|] == r.inputs;
    if StartIndex(r) < |cat| {
      ScanBound(cat, sd, cat[StartIndex(r)].baOut, StartIndex(r), status, allocs);
    } else {
      assert r'.inputs == r.inputs;
    }
  }

  /**
   * Each entry msm_ba_add_inputs appends is built from a row of the table,
   * from the starting row on, that belongs to the batch the starting row
   * names, and lies after the row of the entry before it.
   */
  lemma AddEntry(cat: seq<InputConfig>, r: Registry, sd: Subdev, status: Option<Int32>, allocs: nat, j: nat)
    requires |r.inputs| <= j < |AfterAdd(cat, r, sd, status, allocs).inputs|
    ensures var r' := AfterAdd(cat, r, sd, status, allocs);
      var e := r'.inputs[j];
      && StartIndex(r) <= e.baIp < |cat|
      && RowMatches(cat, e.baIp, sd.name, cat[StartIndex(r)].baOut)
      && e == NewEntry(cat, e.baIp, sd, status)
      && (j > |r.inputs| ==> r'.inputs[j - 1].baIp < e.baIp)
  {
    var r' := AfterAdd(cat, r, sd, status, allocs);
    var start := StartIndex(r);
    var ord := cat[start].baOut;
    var es := Scan(cat, sd, ord, start, status, allocs);
    assert r'.inputs == r.inputs + es;
    var k := j - |r.inputs|;
    ScanRows(cat, sd, ord, start, status, allocs, k);
    if k > 0 {
      ScanOrdered(cat, sd, ord, start, status, allocs, k - 1, k);
    }
  }

  /**
   * With enough successful allocations, every catalogue row of the batch
   * from the starting row on is registered.
   */
  lemma AddComplete(cat: seq<InputConfig>, r: Registry, sd: Subdev, status: Option<Int32>, allocs: nat, row: nat)
    requires StartIndex(r) <= row < |cat| && allocs > |cat| - StartIndex(r)
    requires RowMatches(cat, row, sd.name, cat[StartIndex(r)].baOut)
    ensures exists j :: |r.inputs| <= j < |AfterAdd(cat, r, sd, status, allocs).inputs|
                        && AfterAdd(cat, r, sd, status, allocs).inputs[j].baIp == row
  {
    var start := StartIndex(r);
    var ord := cat[start].baOut;
    var es := Scan(cat, sd, ord, start, status, allocs);
    ScanBound(cat, sd, ord, start, status, allocs);
    ScanComplete(cat, sd, ord, start, status, allocs, row);
    var j :| 0 <= j < |es| && es[j].baIp == row;
    assert AfterAdd(cat, r, sd, status, allocs).inputs[|r.inputs| + j] == es[j];
  }

  // ---------------------------------------------------------------------
  // The starting row after a removal.

  /**
   * A reachable registry whose starting row lies past the catalogue: two
   * ADV7180s and the ADV7481 register all seven rows, the ADV7481 goes away
   * (the counter stays at 7), and its probe comes back.  As written, that
   * probe reads cfg[7]; with the bound checked it appends nothing.
   */
  lemma ReprobeReadsPastCatalogue()
    ensures var a, b, h := Subdev(1, "adv7180"), Subdev(2, "adv7180"), Subdev(3, "adv7481");
      var r := AfterDel(AfterAdd(Catalogue, AfterAdd(Catalogue, AfterAdd(Catalogue, Registry([], 0), a, None, 7), b, None, 7), h, None, 7), 3);
      && |r.inputs| == 6 && r.numInputs == 7
      && !(StartIndex(r) < |Catalogue|)
      && AfterAdd(Catalogue, r, h, None, 7) == r
  {
    var a, b, h := Subdev(1, "adv7180"), Subdev(2, "adv7180"), Subdev(3, "adv7481");
    var r1 := AfterAdd(Catalogue, Registry([], 0), a, None, 7);
    assert r1.inputs == [NewEntry(Catalogue, 0, a, None), NewEntry(Catalogue, 1, a, None), NewEntry(Catalogue, 2, a, None)];
    var r2 := AfterAdd(Catalogue, r1, b, None, 7);
    assert r2.inputs == r1.inputs + [NewEntry(Catalogue, 3, b, None), NewEntry(Catalogue, 4, b, None), NewEntry(Catalogue, 5, b, None)];
    var r3 := AfterAdd(Catalogue, r2, h, None, 7);
    assert r3.inputs == r2.inputs + [NewEntry(Catalogue, 6, h, None)];
    RemoveSdAppend(r2.inputs, [NewEntry(Catalogue, 6, h, None)], 3);
    RemoveSdAbsent(r2.inputs, 3);
  }

  // ---------------------------------------------------------------------
  // Properties of the removal.

  /** RemoveSd distributes over concatenation. */
  lemma {:induction false} RemoveSdAppend(xs: seq<Input>, ys: seq<Input>, sd: nat)
    ensures RemoveSd(xs + ys, sd) == RemoveSd(xs, sd) + RemoveSd(ys, sd)
  {
    if xs == [] {
      assert xs + ys == ys;
    } else {
      assert (xs + ys)[1..] == xs[1..] + ys;
      RemoveSdAppend(xs[1..], ys, sd);
    }
  }

  /**
   * The removal keeps exactly the entries of other subdevices: none of
   * `sd`'s is left, every other one is, and nothing new appears.
   */
  lemma {:induction false} RemoveSdExact(xs: seq<Input>, sd: nat)
    ensures forall e :: e in RemoveSd(xs, sd) <==> e in xs && e.sd != sd
    ensures |RemoveSd(xs, sd)| <= |xs|
  {
    if xs != [] {
      RemoveSdExact(xs[1..], sd);
      assert xs == [xs[0]] + xs[1..];
    }
  }

  /** With no entry of `sd` the removal changes nothing. */
  lemma {:induction false} RemoveSdAbsent(xs: seq<Input>, sd: nat)
    requires forall j :: 0 <= j < |xs| ==> xs[j].sd != sd
    ensures RemoveSd(xs, sd) == xs
  {
    if xs != [] {
      RemoveSdAbsent(xs[1..], sd);
    }
  }

  // ---------------------------------------------------------------------
  // Lookups.  The driver's three list walks (msm_ba_find_input,
  // msm_ba_find_output, msm_ba_sd_find) share one shape: the first element
  // whose key matches, or none; each is stated here on its own key.

  /**
   * msm_ba_find_input: the position of the first entry whose row number is
   * `baIp`, None when there is none.
   */
  function FindInput(xs: seq<Input>, baIp: int): (r: Option<nat>)
    ensures r.Some? ==> r.value < |xs| && xs[r.value].baIp == baIp
                        && forall j :: 0 <= j < r.value ==> xs[j].baIp != baIp
    ensures r.None? ==> forall j :: 0 <= j < |xs| ==> xs[j].baIp != baIp
  {
    if xs == [] then None
    else if xs[0].baIp == baIp then Some(0)
    else match FindInput(xs[1..], baIp)
      case None => None
      case Some(j) => Some(j + 1)
  }

  /** msm_ba_find_output: the position of the first entry of output ordinal `baOut`. */
  function FindOutput(xs: seq<Input>, baOut: int): (r: Option<nat>)
    ensures r.Some? ==> r.value < |xs| && xs[r.value].baOut == baOut
                        && forall j :: 0 <= j < r.value ==> xs[j].baOut != baOut
    ensures r.None? ==> forall j :: 0 <= j < |xs| ==> xs[j].baOut != baOut
  {
    if xs == [] then None
    else if xs[0].baOut == baOut then Some(0)
    else match FindOutput(xs[1..], baOut)
      case None => None
      case Some(j) => Some(j + 1)
  }

  /** msm_ba_sd_find: the position of the first subdevice whose name is exactly `name`. */
  function SdFind(sds: seq<Subdev>, name: string): (r: Option<nat>)
    ensures r.Some? ==> r.value < |sds| && sds[r.value].name == name
                        && forall j :: 0 <= j < r.value ==> sds[j].name != name
    ensures r.None? ==> forall j :: 0 <= j < |sds| ==> sds[j].name != name
  {
    if sds == [] then None
    else if sds[0].name == name then Some(0)
    else match SdFind(sds[1..], name)
      case None => None
      case Some(j) => Some(j + 1)
  }

  // ---------------------------------------------------------------------
  // The registry as the driver keeps it.

  /**
   * The BA device context: the table it registers inputs from (the driver's
   * static msm_ba_inp_cfg), its input list and the counter beside it.
   */
  class BaDev {
    const cfg: seq<InputConfig>
    var inputs: seq<Input>
    var numInputs: nat

    /** A fresh context over the catalogue: no input registered. */
    constructor()
      ensures cfg == Catalogue && inputs == [] && numInputs == 0
    {
      cfg := Catalogue;
      inputs := [];
      numInputs := 0;
    }

    /** The list and the counter, as one value. */
    function State(): Registry
      reads this
    {
      Registry(inputs, numInputs)
    }

    /**
     * msm_ba_add_inputs for subdevice `sd`: `status` is what g_input_status
     * answers (None: the call failed) and `allocs` how many allocations
     * succeed before one fails.
     */
    method AddInputs(sd: Subdev, status: Option<Int32>, allocs: nat)
      modifies this
      ensures State() == AfterAdd(cfg, old(State()), sd, status, allocs)
    {
      var start := if inputs == [] then 0 else numInputs;
      if start >= |cfg| {
        return;
      }
      var ord := cfg[start].baOut;
      ghost var inputs0, n0 := inputs, numInputs;
      var i, left := start, allocs;
      while i < |cfg|
        invariant start <= i <= |cfg|
        invariant inputs + Scan(cfg, sd, ord, i, status, left) == inputs0 + Scan(cfg, sd, ord, start, status, allocs)
        invariant numInputs + |Scan(cfg, sd, ord, i, status, left)| == n0 + |Scan(cfg, sd, ord, start, status, allocs)|
        decreases |cfg| - i
      {
        if NamePrefix(cfg[i].sdName, sd.name) && cfg[i].baOut == ord {
          if left == 0 {
            return;
          }
          var e := NewEntry(cfg, i, sd, status);
          assert inputs + Scan(cfg, sd, ord, i, status, left)
              == (inputs + [e]) + Scan(cfg, sd, ord, i + 1, status, left - 1);
          inputs := inputs + [e];
          numInputs := numInputs + 1;
          left := left - 1;
        }
        i := i + 1;
      }
    }

    /** msm_ba_del_inputs for subdevice `sd`: its entries go, the counter stays. */
    method DelInputs(sd: nat)
      modifies this
      ensures State() == AfterDel(old(State()), sd)
    {
      var xs := inputs;
      var kept := [];
      var i := 0;
      while i < |xs|
        invariant 0 <= i <= |xs|
        invariant kept == RemoveSd(xs[..i], sd)
        invariant inputs == xs && numInputs == old(numInputs)
      {
        RemoveSdAppend(xs[..i], [xs[i]], sd);
        assert xs[..i + 1] == xs[..i] + [xs[i]];
        if xs[i].sd != sd {
          kept := kept + [xs[i]];
        }
        i := i + 1;
      }
      assert xs[..i] == xs;
      inputs := kept;
    }
  }
}
