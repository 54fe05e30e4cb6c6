/**
 * The ADV7481 chip-level enumerations used by the routing state machine:
 * chip inputs, chip outputs and MIPI lane counts (media/adv7481.h).
 */
module Adv7481Types {

  /** An analog channel number, 1..8, as in ADV7481_IP_CVBS_<n>. */
  type Channel = c: int | 1 <= c <= 8 witness 1

  /**
   * A chip input.  IpNone is the zero value a freshly allocated device
   * record holds before any routing.
   */
  datatype AdvInput =
    | IpNone
    | IpHdmi
    | IpCvbs(ch: Channel)          // ADV7481_IP_CVBS_<ch>
    | IpCvbsHdmiSim(ch: Channel)   // ADV7481_IP_CVBS_<ch>_HDMI_SIM
    | IpTtl

  /** A chip output: the two CSI transmitters, the TTL port, or anything else. */
  datatype AdvOutput = OpCsiA | OpCsiB | OpTtl | OpUnknown

  /** ADV7481_MIPI_1LANE / ADV7481_MIPI_2LANE. */
  datatype Lanes = OneLane | TwoLanes

  predicate IsCvbs(i: AdvInput) { i.IpCvbs? || i.IpCvbsHdmiSim? }
}
