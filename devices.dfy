/**
 * The address attributes of the three device classes (`PC`, `Router`, `Switch`),
 * identical in both files, and the addresses a device answers to.
 */
module Devices {
  /** `PC` defines `IP` and `MAC`; `Router` the left and right pairs; `Switch` only `MAC`. */
  datatype Addresses =
    | Host(ip: string, mac: string)
    | RouterPorts(ipIzq: string, macIzq: string, ipDer: string, macDer: string)
    | SwitchPort(mac: string)

  /** The link addresses a device owns: `MAC_IZQ`, `MAC_DER`, `MAC`, for those it defines. */
  function OwnedMacs(a: Addresses): seq<string> {
    match a
    case Host(_, mac) => [mac]
    case RouterPorts(_, macIzq, _, macDer) => [macIzq, macDer]
    case SwitchPort(mac) => [mac]
  }

  /** The network addresses a device owns: `IP_IZQ`, `IP_DER`, `IP`, for those it defines. */
  function OwnedIps(a: Addresses): seq<string> {
    match a
    case Host(ip, _) => [ip]
    case RouterPorts(ipIzq, _, ipDer, _) => [ipIzq, ipDer]
    case SwitchPort(_) => []
  }
}
