/**
 * The bridge-abstraction input identifiers shared by the MSM BA core and the
 * bridge-chip drivers (the BA_IP_* enumeration of media/msm_ba.h), and the
 * frame-interval answer a bridge chip gives the core.
 */
module MsmBaTypes {
  import opened CInt

  /** A bridge-level input: the enumerators the two drivers name, and any other. */
  datatype BaInput =
    | BaCvbs(n: nat)        // BA_IP_CVBS_<n>
    | BaComponent(n: nat)   // BA_IP_COMPONENT_<n>
    | BaHdmi1               // BA_IP_HDMI_1
    | BaMhl1                // BA_IP_MHL_1
    | BaTtl                 // BA_IP_TTL
    | BaOther(code: int)    // any other enumerator

  /** The input kinds of the catalogue (BA_INPUT_*). */
  datatype InputKind = InputCvbs | InputComponent | InputHdmi

  datatype Option<T> = None | Some(value: T)

  /** A subdevice's answer to g_frame_interval: its return code and the interval it filled in. */
  datatype IntervalReply = IntervalReply(rc: Int32, numerator: U32, denominator: U32)
}
