/**
 * The device side of `encapsulamiento.py`. `Dispositivo.recibir` climbs the layers
 * of one device only: its forwarding branches build a frame or find a next hop and
 * send nothing. A device recognises its own addresses by reflection, collecting
 * the attributes whose names end in `_MAC` or `_IP`; the attributes are named
 * `MAC`, `IP`, `MAC_IZQ`, `IP_DER` and so on, so nothing is collected. The ladder
 * is modelled once, over the address lists it is given, and used both with the
 * lists reflection yields and with the addresses each device declares.
 */
module LegacyNetwork {
  import opened Wrappers
  import opened Text
  import opened Physical
  import opened Layers
  import opened LegacyLayers
  import opened Devices

  /** A device of the earlier form: no links, only its two tables. */
  datatype LegacyDevice = LegacyDevice(
    name: string,
    addrs: Addresses,
    tablaEnlace: map<string, string>,
    tablaRed: map<string, string>)

  /** The port `PC.enviar_mensaje` uses as its source. */
  const EPHEMERAL_PORT := 5000

  /** The next hop `PC.enviar_mensaje` falls back on: the router's left MAC. */
  const DEFAULT_NEXT := "C"

  // Ownership by reflection

  /**
   * The string-valued attributes of a device, by name, in the sorted order `dir`
   * lists them. The other names `dir` lists (the tables, the methods, the dunder
   * names) end in neither suffix.
   */
  function Attributes(d: LegacyDevice): seq<(string, string)> {
    match d.addrs
    case Host(ip, mac) => [("IP", ip), ("MAC", mac), ("nombre", d.name)]
    case RouterPorts(ipIzq, macIzq, ipDer, macDer) =>
      [("IP_DER", ipDer), ("IP_IZQ", ipIzq), ("MAC_DER", macDer), ("MAC_IZQ", macIzq), ("nombre", d.name)]
    case SwitchPort(mac) => [("MAC", mac), ("nombre", d.name)]
  }

  predicate EndsWith(s: string, suffix: string) {
    |suffix| <= |s| && s[|s| - |suffix|..] == suffix
  }

  predicate StartsWith(s: string, prefix: string) {
    |prefix| <= |s| && s[..|prefix|] == prefix
  }

  /** `[getattr(self, attr) for attr in dir(self) if attr.endswith(suffix)]`. */
  function WithSuffix(attrs: seq<(string, string)>, suffix: string): (r: seq<string>)
    ensures forall v :: v in r ==> exists i :: 0 <= i < |attrs| && attrs[i].1 == v && EndsWith(attrs[i].0, suffix)
    ensures forall i :: 0 <= i < |attrs| && EndsWith(attrs[i].0, suffix) ==> attrs[i].1 in r
  {
    if attrs == [] then []
    else
      var rest := WithSuffix(attrs[1..], suffix);
      if EndsWith(attrs[0].0, suffix) then [attrs[0].1] + rest else rest
  }

  /** The same list, selecting the names that start with `prefix`. */
  function WithPrefix(attrs: seq<(string, string)>, prefix: string): (r: seq<string>)
    ensures forall v :: v in r ==> exists i :: 0 <= i < |attrs| && attrs[i].1 == v && StartsWith(attrs[i].0, prefix)
    ensures forall i :: 0 <= i < |attrs| && StartsWith(attrs[i].0, prefix) ==> attrs[i].1 in r
  {
    if attrs == [] then []
    else
      var rest := WithPrefix(attrs[1..], prefix);
      if StartsWith(attrs[0].0, prefix) then [attrs[0].1] + rest else rest
  }

  /** The MACs the layer-2 test of `recibir` compares against, as written. */
  function ReflectedMacs(d: LegacyDevice): seq<string> {
    WithSuffix(Attributes(d), "_MAC")
  }

  /** The IPs the layer-3 test of `recibir` compares against, as written. */
  function ReflectedIps(d: LegacyDevice): seq<string> {
    WithSuffix(Attributes(d), "_IP")
  }

  lemma LastDiffers(s: string, suffix: string)
    requires |suffix| > 0 && (|s| < |suffix| || s[|s| - 1] != suffix[|suffix| - 1])
    ensures !EndsWith(s, suffix)
  {
    if |suffix| <= |s| {
      assert s[|s| - |suffix|..][|suffix| - 1] == s[|s| - 1];
    }
  }

  lemma FirstDiffers(s: string, prefix: string)
    requires |prefix| > 0 && (|s| < |prefix| || s[0] != prefix[0])
    ensures !StartsWith(s, prefix)
  {
    if |prefix| <= |s| {
      assert s[..|prefix|][0] == s[0];
    }
  }

  /** An attribute list none of whose names ends in `suffix` yields nothing. */
  lemma NoneWithSuffix(attrs: seq<(string, string)>, suffix: string)
    requires forall i :: 0 <= i < |attrs| ==> !EndsWith(attrs[i].0, suffix)
    ensures WithSuffix(attrs, suffix) == []
  {
  }

  /** No attribute name ends in `_MAC` or `_IP`: as written, a device owns no address. */
  lemma ReflectionFindsNothing(d: LegacyDevice)
    ensures ReflectedMacs(d) == [] && ReflectedIps(d) == []
  {
    var a := Attributes(d);
    var names := ["IP", "MAC", "nombre", "IP_DER", "IP_IZQ", "MAC_DER", "MAC_IZQ"];
    forall i | 0 <= i < |names|
      ensures !EndsWith(names[i], "_MAC") && !EndsWith(names[i], "_IP")
    {
      LastDiffers(names[i], "_MAC");
      LastDiffers(names[i], "_IP");
    }
    assert forall i :: 0 <= i < |a| ==> a[i].0 in names;
    NoneWithSuffix(a, "_MAC");
    NoneWithSuffix(a, "_IP");
  }

  /** Which attribute names start with `MAC` and which with `IP`. */
  lemma NamePrefixes()
    ensures StartsWith("MAC", "MAC") && StartsWith("MAC_DER", "MAC") && StartsWith("MAC_IZQ", "MAC")
    ensures StartsWith("IP", "IP") && StartsWith("IP_DER", "IP") && StartsWith("IP_IZQ", "IP")
    ensures !StartsWith("IP", "MAC") && !StartsWith("IP_DER", "MAC") && !StartsWith("IP_IZQ", "MAC")
    ensures !StartsWith("MAC", "IP") && !StartsWith("MAC_DER", "IP") && !StartsWith("MAC_IZQ", "IP")
    ensures !StartsWith("nombre", "MAC") && !StartsWith("nombre", "IP")
  {
    assert "MAC_DER"[..3] == "MAC" && "MAC_IZQ"[..3] == "MAC";
    assert "IP_DER"[..2] == "IP" && "IP_IZQ"[..2] == "IP";
    FirstDiffers("IP", "MAC");
    FirstDiffers("IP_DER", "MAC");
    FirstDiffers("IP_IZQ", "MAC");
    FirstDiffers("MAC", "IP");
    FirstDiffers("MAC_DER", "IP");
    FirstDiffers("MAC_IZQ", "IP");
    FirstDiffers("nombre", "MAC");
    FirstDiffers("nombre", "IP");
  }

  /**
   * Selecting the names that start with `MAC` instead collects exactly the MACs the
   * device declares, those the later form tests with `hasattr`.
   */
  lemma PrefixFindsMacs(d: LegacyDevice)
    ensures forall m :: m in WithPrefix(Attributes(d), "MAC") <==> m in OwnedMacs(d.addrs)
  {
    var a := Attributes(d);
    NamePrefixes();
    forall i | 0 <= i < |a| && StartsWith(a[i].0, "MAC")
      ensures a[i].1 in OwnedMacs(d.addrs)
    {
    }
    forall m | m in OwnedMacs(d.addrs)
      ensures exists i :: 0 <= i < |a| && a[i].1 == m && StartsWith(a[i].0, "MAC")
    {
      match d.addrs
      case Host(_, mac) => assert a[1].1 == mac;
      case RouterPorts(_, macIzq, _, macDer) => assert a[2].1 == macDer && a[3].1 == macIzq;
      case SwitchPort(mac) => assert a[0].1 == mac;
    }
  }

  /** ... and those that start with `IP` the IPs it declares. */
  lemma PrefixFindsIps(d: LegacyDevice)
    ensures forall ip :: ip in WithPrefix(Attributes(d), "IP") <==> ip in OwnedIps(d.addrs)
  {
    var a := Attributes(d);
    NamePrefixes();
    forall i | 0 <= i < |a| && StartsWith(a[i].0, "IP")
      ensures a[i].1 in OwnedIps(d.addrs)
    {
    }
    forall ip | ip in OwnedIps(d.addrs)
      ensures exists i :: 0 <= i < |a| && a[i].1 == ip && StartsWith(a[i].0, "IP")
    {
      match d.addrs
      case Host(ip', _) => assert a[0].1 == ip';
      case RouterPorts(ipIzq, _, ipDer, _) => assert a[0].1 == ipDer && a[1].1 == ipIzq;
    }
  }

  // The ladder

  /** How one call of `recibir` ends. */
  datatype Outcome =
    | Received(msg: string)              // layer 5 displayed the message
    | FrameBuilt(frame: string)          // layer 2 built a frame for the next device and sent nothing
    | UnknownMac(mac: string)            // layer 2 found no `tabla_enlace` entry
    | RouteFound(next: string)           // layer 3 found a next hop and sent nothing
    | NoRoute(ip: string)                // layer 3 found no `tabla_red` entry
    | Raised(layer: int)                 // a decapsulation raised `IndexError`
    | Ignored(layer: int)                // a layer outside 1..5

  /** What layers 2 to 4 decide: go up with the inner data, or end the call. */
  datatype Step = Up(datos: string) | Done(outcome: Outcome)

  /** `getattr(self, 'MAC', 'X')`: a router has no `MAC` attribute. */
  function OwnMacOr(a: Addresses): string {
    if a.RouterPorts? then "X" else a.mac
  }

  /**
   * Layer 2: a frame for one of `macs` goes up; otherwise a `tabla_enlace` entry
   * (checked for truthiness) gives a new frame that is built and not sent.
   */
  function LinkStep(d: LegacyDevice, datos: string, macs: seq<string>): (r: Step)
    ensures r.Up? <==> AddressDecap(datos).Some? && AddressDecap(datos).value.dst in macs
    ensures r.Up? ==> r.datos == AddressDecap(datos).value.payload && |r.datos| < |datos|
    ensures r.Done? ==> r.outcome.FrameBuilt? || r.outcome.UnknownMac? || r.outcome == Raised(2)
  {
    match AddressDecap(datos)
    case None => Done(Raised(2))
    case Some(f) =>
      if f.dst in macs then Up(f.payload)
      else if f.dst in d.tablaEnlace && d.tablaEnlace[f.dst] != "" then
        Done(FrameBuilt(EnEncap(f.payload, OwnMacOr(d.addrs), d.tablaEnlace[f.dst])))
      else Done(UnknownMac(f.dst))
  }

  /** Layer 3: a packet for one of `ips` goes up; otherwise a `tabla_red` entry is found and nothing more. */
  function NetStep(d: LegacyDevice, datos: string, ips: seq<string>): (r: Step)
    ensures r.Up? <==> AddressDecap(datos).Some? && AddressDecap(datos).value.dst in ips
    ensures r.Up? ==> r.datos == AddressDecap(datos).value.payload && |r.datos| < |datos|
    ensures r.Done? ==> r.outcome.RouteFound? || r.outcome.NoRoute? || r.outcome == Raised(3)
  {
    match AddressDecap(datos)
    case None => Done(Raised(3))
    case Some(p) =>
      if p.dst in ips then Up(p.payload)
      else if p.dst in d.tablaRed && d.tablaRed[p.dst] != "" then Done(RouteFound(d.tablaRed[p.dst]))
      else Done(NoRoute(p.dst))
  }

  /** Layer 4: the payload goes up; the source port is read and dropped. */
  function SegmentStep(datos: string): (r: Step)
    ensures r.Up? <==> TrDecap(datos).Some?
    ensures r.Up? ==> |r.datos| < |datos|
    ensures r.Done? ==> r.outcome == Raised(4)
  {
    match TrDecap(datos)
    case None => Done(Raised(4))
    case Some(t) => Up(t.payload)
  }

  /** Layer 5: the message is displayed. */
  function AppLayer(datos: string): (r: Outcome)
    ensures r.Received? || r == Raised(5)
    ensures r.Received? ==> |r.msg| < |datos| && r.msg == datos[|datos| - |r.msg|..]
    ensures ']' !in datos ==> r == Raised(5)
  {
    match ApDecap(datos)
    case None => Raised(5)
    case Some(a) => Received(a.msg)
  }

  /** The handler of layer 2, 3 or 4. */
  function LayerStep(d: LegacyDevice, datos: string, layer: int, macs: seq<string>, ips: seq<string>): Step {
    if layer == 2 then LinkStep(d, datos, macs) else if layer == 3 then NetStep(d, datos, ips) else SegmentStep(datos)
  }

  /** The ladder's measure: the layers still to climb. */
  function LayersLeft(layer: int): nat {
    if 1 <= layer <= 5 then 6 - layer else 0
  }

  /** `Dispositivo.recibir(datos, capa_actual)` for a device that owns the MACs `macs` and the IPs `ips`. */
  function Ladder(d: LegacyDevice, datos: string, layer: int, macs: seq<string>, ips: seq<string>): Outcome
    requires layer == 1 ==> IsBinary(datos)
    decreases LayersLeft(layer)
  {
    if layer == 1 then Ladder(d, DecodeBits(datos), 2, macs, ips)
    else if 2 <= layer <= 4 then
      match LayerStep(d, datos, layer, macs, ips)
      case Up(inner) => Ladder(d, inner, layer + 1, macs, ips)
      case Done(o) => o
    else if layer == 5 then AppLayer(datos)
    else Ignored(layer)
  }

  /** `recibir` as written: the address lists come from reflection. */
  function Receive(d: LegacyDevice, datos: string, layer: int): Outcome
    requires layer == 1 ==> IsBinary(datos)
  {
    Ladder(d, datos, layer, ReflectedMacs(d), ReflectedIps(d))
  }

  /** `recibir` with the address lists the device declares. */
  function ReceiveDeclared(d: LegacyDevice, datos: string, layer: int): Outcome
    requires layer == 1 ==> IsBinary(datos)
  {
    Ladder(d, datos, layer, OwnedMacs(d.addrs), OwnedIps(d.addrs))
  }

  /** With no MAC of its own, layer 2 never climbs: every frame ends the call there. */
  lemma LinkNeverClimbs(d: LegacyDevice, datos: string, ips: seq<string>)
    ensures var r := Ladder(d, datos, 2, [], ips);
            r.FrameBuilt? || r.UnknownMac? || r.Raised?
  {
    assert LinkStep(d, datos, []).Done?;
  }

  /**
   * As written, nothing entering at the physical or link layer reaches the
   * application: layer 2 never climbs, and whatever it does ends the call.
   */
  lemma NeverDelivered(d: LegacyDevice, datos: string, layer: int)
    requires layer == 1 || layer == 2
    requires layer == 1 ==> IsBinary(datos)
    ensures var r := Receive(d, datos, layer);
            r.FrameBuilt? || r.UnknownMac? || r.Raised?
  {
    ReflectionFindsNothing(d);
    var ips := ReflectedIps(d);
    if layer == 1 {
      LinkNeverClimbs(d, DecodeBits(datos), ips);
    } else {
      LinkNeverClimbs(d, datos, ips);
    }
  }

  /** With no IP of its own, layer 3 never climbs either. */
  lemma NetNeverClimbs(d: LegacyDevice, datos: string, macs: seq<string>)
    ensures var r := Ladder(d, datos, 3, macs, []);
            r.RouteFound? || r.NoRoute? || r.Raised?
  {
    assert NetStep(d, datos, []).Done?;
  }

  /** Nor does a packet handed to layer 3: it is never for the device itself. */
  lemma NeverClimbsFromNetwork(d: LegacyDevice, datos: string)
    ensures var r := Receive(d, datos, 3);
            r.RouteFound? || r.NoRoute? || r.Raised?
  {
    ReflectionFindsNothing(d);
    NetNeverClimbs(d, datos, ReflectedMacs(d));
  }

  // `PC.enviar_mensaje`

  /** `[EN:mac:next][RE:ip:dst][TR:5000][AP:proto:port]msg`, before it becomes bits. */
  function MessageFrame(a: Addresses, msg: string, ipDst: string, proto: string, port: int, next: string): string
    requires a.Host?
  {
    EnEncap(ReEncap(TrEncap(ApEncap(msg, proto, port), EPHEMERAL_PORT), a.ip, ipDst), a.mac, next)
  }

  /** `tabla_red.get(ip_destino, ROUTER_MAC_LEFT)`: no truthiness test here, an empty entry is used as it is. */
  function NextHop(d: LegacyDevice, ipDst: string): string {
    if ipDst in d.tablaRed then d.tablaRed[ipDst] else DEFAULT_NEXT
  }

  /** `PC.enviar_mensaje`: it never fails, and returns the bits of the frame instead of sending them. */
  function SendMessage(d: LegacyDevice, msg: string, ipDst: string, proto: string, port: int): (bits: string)
    requires d.addrs.Host?
    ensures IsBinary(bits)
  {
    EncodeBits(MessageFrame(d.addrs, msg, ipDst, proto, port, NextHop(d, ipDst)))
  }

  /** The message's frame stays within 8-bit characters. */
  lemma MessageFrameLatin1(a: Addresses, msg: string, ipDst: string, proto: string, port: int, next: string)
    requires a.Host? && Latin1(msg) && Latin1(proto) && Latin1(a.ip) && Latin1(a.mac) && Latin1(ipDst) && Latin1(next)
    ensures Latin1(ReEncap(TrEncap(ApEncap(msg, proto, port), EPHEMERAL_PORT), a.ip, ipDst))
    ensures Latin1(MessageFrame(a, msg, ipDst, proto, port, next))
  {
    var seg := TrEncap(ApEncap(msg, proto, port), EPHEMERAL_PORT);
    ApEncapLatin1(msg, proto, port);
    TrEncapLatin1(ApEncap(msg, proto, port), EPHEMERAL_PORT);
    ReEncapLatin1(seg, a.ip, ipDst);
    EnEncapLatin1(ReEncap(seg, a.ip, ipDst), a.mac, next);
  }

  /**
   * Peeling the bits layer by layer gives back everything `enviar_mensaje` put in:
   * the sender's MAC and the next hop, the sender's IP and the destination, the
   * source port, the protocol, the port and the message.
   */
  lemma PeelMessage(d: LegacyDevice, msg: string, ipDst: string, proto: string, port: int)
    requires d.addrs.Host? && Field(d.addrs.ip) && Field(d.addrs.mac) && Field(ipDst) && Field(proto)
    requires Field(NextHop(d, ipDst))
    requires Latin1(msg) && Latin1(proto) && Latin1(d.addrs.ip) && Latin1(d.addrs.mac) && Latin1(ipDst)
    requires Latin1(NextHop(d, ipDst))
    ensures var seg := TrEncap(ApEncap(msg, proto, port), EPHEMERAL_PORT);
            var pkt := ReEncap(seg, d.addrs.ip, ipDst);
            var frame := MessageFrame(d.addrs, msg, ipDst, proto, port, NextHop(d, ipDst));
            && |SendMessage(d, msg, ipDst, proto, port)| == 8 * |frame|
            && DecodeBits(SendMessage(d, msg, ipDst, proto, port)) == frame
            && AddressDecap(frame) == Some(Frame(pkt, d.addrs.mac, NextHop(d, ipDst)))
            && AddressDecap(pkt) == Some(Frame(seg, d.addrs.ip, ipDst))
            && TrDecap(seg) == Some(TransData(ApEncap(msg, proto, port), IntToString(EPHEMERAL_PORT)))
            && ApDecap(ApEncap(msg, proto, port)) == Some(AppData(msg, proto, IntToString(port)))
  {
    var next := NextHop(d, ipDst);
    var seg := TrEncap(ApEncap(msg, proto, port), EPHEMERAL_PORT);
    var pkt := ReEncap(seg, d.addrs.ip, ipDst);
    MessageFrameLatin1(d.addrs, msg, ipDst, proto, port, next);
    DecodeEncode(EnEncap(pkt, d.addrs.mac, next));
    EnRoundTrip(pkt, d.addrs.mac, next);
    ReRoundTrip(seg, d.addrs.ip, ipDst);
    TrRoundTrip(ApEncap(msg, proto, port), EPHEMERAL_PORT);
    ApRoundTrip(msg, proto, port);
  }

  // The ladder on a message's bits, one layer at a time

  lemma LadderBits(d: LegacyDevice, frame: string, macs: seq<string>, ips: seq<string>)
    requires Latin1(frame)
    ensures Ladder(d, EncodeBits(frame), 1, macs, ips) == Ladder(d, frame, 2, macs, ips)
  {
    DecodeEncode(frame);
  }

  /** A frame for an owned MAC goes up to layer 3 ... */
  lemma LadderLinkUp(d: LegacyDevice, pkt: string, src: string, dst: string, macs: seq<string>, ips: seq<string>)
    requires Field(src) && Field(dst) && dst in macs
    ensures Ladder(d, EnEncap(pkt, src, dst), 2, macs, ips) == Ladder(d, pkt, 3, macs, ips)
  {
    EnRoundTrip(pkt, src, dst);
  }

  /** ... and a frame for another MAC with no `tabla_enlace` entry is dropped. */
  lemma LadderLinkMiss(d: LegacyDevice, pkt: string, src: string, dst: string, macs: seq<string>, ips: seq<string>)
    requires Field(src) && Field(dst) && dst !in macs && (dst !in d.tablaEnlace || d.tablaEnlace[dst] == "")
    ensures Ladder(d, EnEncap(pkt, src, dst), 2, macs, ips) == UnknownMac(dst)
  {
    EnRoundTrip(pkt, src, dst);
  }

  /**
   * A frame for another MAC with a truthy `tabla_enlace` entry ends the call with a
   * new frame, from the device's `MAC` (or `X` on a router) to that entry, sent nowhere.
   */
  lemma LadderLinkForward(d: LegacyDevice, pkt: string, src: string, dst: string, macs: seq<string>, ips: seq<string>)
    requires Field(src) && Field(dst) && dst !in macs && dst in d.tablaEnlace && d.tablaEnlace[dst] != ""
    ensures Ladder(d, EnEncap(pkt, src, dst), 2, macs, ips)
         == FrameBuilt(EnEncap(pkt, if d.addrs.RouterPorts? then "X" else d.addrs.mac, d.tablaEnlace[dst]))
  {
    EnRoundTrip(pkt, src, dst);
  }

  /** A packet for an owned IP goes up to layer 4 ... */
  lemma LadderNetUp(d: LegacyDevice, seg: string, src: string, dst: string, macs: seq<string>, ips: seq<string>)
    requires Field(src) && Field(dst) && dst in ips
    ensures Ladder(d, ReEncap(seg, src, dst), 3, macs, ips) == Ladder(d, seg, 4, macs, ips)
  {
    ReRoundTrip(seg, src, dst);
  }

  /** ... and one for another IP with a `tabla_red` entry ends with the next hop found. */
  lemma LadderNetRoute(d: LegacyDevice, seg: string, src: string, dst: string, macs: seq<string>, ips: seq<string>)
    requires Field(src) && Field(dst) && dst !in ips && dst in d.tablaRed && d.tablaRed[dst] != ""
    ensures Ladder(d, ReEncap(seg, src, dst), 3, macs, ips) == RouteFound(d.tablaRed[dst])
  {
    ReRoundTrip(seg, src, dst);
  }

  lemma LadderSegment(d: LegacyDevice, data: string, srcPort: int, macs: seq<string>, ips: seq<string>)
    ensures Ladder(d, TrEncap(data, srcPort), 4, macs, ips) == Ladder(d, data, 5, macs, ips)
  {
    TrRoundTrip(data, srcPort);
  }

  lemma LadderApp(d: LegacyDevice, msg: string, proto: string, port: int, macs: seq<string>, ips: seq<string>)
    requires Field(proto)
    ensures Ladder(d, ApEncap(msg, proto, port), 5, macs, ips) == Received(msg)
  {
    ApRoundTrip(msg, proto, port);
  }

  /**
   * The bits of a message framed to a MAC the device owns and addressed to an IP it
   * owns climb all five layers, and the message is displayed.
   */
  lemma LadderDelivers(d: LegacyDevice, macs: seq<string>, ips: seq<string>, msg: string, proto: string, port: int,
                       ipSrc: string, macSrc: string, ipDst: string, macDst: string)
    requires Field(ipSrc) && Field(macSrc) && Field(ipDst) && Field(macDst) && Field(proto)
    requires Latin1(msg) && Latin1(proto) && Latin1(ipSrc) && Latin1(macSrc) && Latin1(ipDst) && Latin1(macDst)
    requires macDst in macs && ipDst in ips
    ensures Ladder(d, EncodeBits(MessageFrame(Host(ipSrc, macSrc), msg, ipDst, proto, port, macDst)), 1, macs, ips)
         == Received(msg)
  {
    var app := ApEncap(msg, proto, port);
    var seg := TrEncap(app, EPHEMERAL_PORT);
    var pkt := ReEncap(seg, ipSrc, ipDst);
    MessageFrameLatin1(Host(ipSrc, macSrc), msg, ipDst, proto, port, macDst);
    LadderBits(d, EnEncap(pkt, macSrc, macDst), macs, ips);
    LadderLinkUp(d, pkt, macSrc, macDst, macs, ips);
    LadderNetUp(d, seg, ipSrc, ipDst, macs, ips);
    LadderSegment(d, app, EPHEMERAL_PORT, macs, ips);
    LadderApp(d, msg, proto, port, macs, ips);
  }

  /** The bits of a frame for a MAC the device neither owns nor has in `tabla_enlace` are dropped at layer 2. */
  lemma LadderDropsBits(d: LegacyDevice, macs: seq<string>, ips: seq<string>, msg: string, proto: string, port: int,
                        ipSrc: string, macSrc: string, ipDst: string, macDst: string)
    requires Field(macSrc) && Field(macDst)
    requires Latin1(msg) && Latin1(proto) && Latin1(ipSrc) && Latin1(macSrc) && Latin1(ipDst) && Latin1(macDst)
    requires macDst !in macs && (macDst !in d.tablaEnlace || d.tablaEnlace[macDst] == "")
    ensures Ladder(d, EncodeBits(MessageFrame(Host(ipSrc, macSrc), msg, ipDst, proto, port, macDst)), 1, macs, ips)
         == UnknownMac(macDst)
  {
    var pkt := ReEncap(TrEncap(ApEncap(msg, proto, port), EPHEMERAL_PORT), ipSrc, ipDst);
    MessageFrameLatin1(Host(ipSrc, macSrc), msg, ipDst, proto, port, macDst);
    LadderBits(d, EnEncap(pkt, macSrc, macDst), macs, ips);
    LadderLinkMiss(d, pkt, macSrc, macDst, macs, ips);
  }

  /**
   * The bits of a frame for a MAC the device owns, carrying a packet for an IP it
   * does not own but has in `tabla_red`, end with that next hop found.
   */
  lemma LadderRoutesBits(d: LegacyDevice, macs: seq<string>, ips: seq<string>, msg: string, proto: string, port: int,
                         ipSrc: string, macSrc: string, ipDst: string, macDst: string)
    requires Field(ipSrc) && Field(macSrc) && Field(ipDst) && Field(macDst)
    requires Latin1(msg) && Latin1(proto) && Latin1(ipSrc) && Latin1(macSrc) && Latin1(ipDst) && Latin1(macDst)
    requires macDst in macs && ipDst !in ips && ipDst in d.tablaRed && d.tablaRed[ipDst] != ""
    ensures Ladder(d, EncodeBits(MessageFrame(Host(ipSrc, macSrc), msg, ipDst, proto, port, macDst)), 1, macs, ips)
         == RouteFound(d.tablaRed[ipDst])
  {
    var seg := TrEncap(ApEncap(msg, proto, port), EPHEMERAL_PORT);
    var pkt := ReEncap(seg, ipSrc, ipDst);
    MessageFrameLatin1(Host(ipSrc, macSrc), msg, ipDst, proto, port, macDst);
    LadderBits(d, EnEncap(pkt, macSrc, macDst), macs, ips);
    LadderLinkUp(d, pkt, macSrc, macDst, macs, ips);
    LadderNetRoute(d, seg, ipSrc, ipDst, macs, ips);
  }

  /**
   * With the declared addresses, a PC receiving the bits of a message framed to its
   * MAC and addressed to its IP displays the message.
   */
  lemma DeclaredDelivers(d: LegacyDevice, msg: string, proto: string, port: int, ipSrc: string, macSrc: string)
    requires d.addrs.Host? && Field(d.addrs.ip) && Field(d.addrs.mac) && Latin1(d.addrs.ip) && Latin1(d.addrs.mac)
    requires Field(ipSrc) && Field(macSrc) && Field(proto)
    requires Latin1(msg) && Latin1(proto) && Latin1(ipSrc) && Latin1(macSrc)
    ensures ReceiveDeclared(d, EncodeBits(MessageFrame(Host(ipSrc, macSrc), msg, d.addrs.ip, proto, port, d.addrs.mac)), 1)
         == Received(msg)
  {
    LadderDelivers(d, OwnedMacs(d.addrs), OwnedIps(d.addrs), msg, proto, port, ipSrc, macSrc, d.addrs.ip, d.addrs.mac);
  }

  /**
   * As written, a device drops at layer 2 the bits of any frame whose destination
   * MAC has no `tabla_enlace` entry, its own MAC included: in `configurar_red` no
   * PC has its own MAC in that table.
   */
  lemma ReflectedDrops(d: LegacyDevice, msg: string, proto: string, port: int,
                       ipSrc: string, macSrc: string, ipDst: string, macDst: string)
    requires Field(macSrc) && Field(macDst)
    requires Latin1(msg) && Latin1(proto) && Latin1(ipSrc) && Latin1(macSrc) && Latin1(ipDst) && Latin1(macDst)
    requires macDst !in d.tablaEnlace
    ensures Receive(d, EncodeBits(MessageFrame(Host(ipSrc, macSrc), msg, ipDst, proto, port, macDst)), 1)
         == UnknownMac(macDst)
  {
    ReflectionFindsNothing(d);
    LadderDropsBits(d, [], [], msg, proto, port, ipSrc, macSrc, ipDst, macDst);
  }

  /**
   * With the declared addresses, a PC drops at layer 2 the bits of a frame for
   * another MAC that has no `tabla_enlace` entry.
   */
  lemma DeclaredDrops(d: LegacyDevice, msg: string, proto: string, port: int,
                      ipSrc: string, macSrc: string, ipDst: string, macDst: string)
    requires d.addrs.Host? && macDst != d.addrs.mac
    requires Field(macSrc) && Field(macDst)
    requires Latin1(msg) && Latin1(proto) && Latin1(ipSrc) && Latin1(macSrc) && Latin1(ipDst) && Latin1(macDst)
    requires macDst !in d.tablaEnlace
    ensures ReceiveDeclared(d, EncodeBits(MessageFrame(Host(ipSrc, macSrc), msg, ipDst, proto, port, macDst)), 1)
         == UnknownMac(macDst)
  {
    LadderDropsBits(d, OwnedMacs(d.addrs), OwnedIps(d.addrs), msg, proto, port, ipSrc, macSrc, ipDst, macDst);
  }

  // `configurar_red` of the earlier form

  function LegacyPc1(): LegacyDevice {
    LegacyDevice("PC 1", Host("1", "A"), map["C" := "eth0"], map["2" := "C"])
  }

  function LegacyPc2(): LegacyDevice {
    LegacyDevice("PC 2", Host("2", "B"), map["D" := "eth0"], map["1" := "D"])
  }

  function LegacyRouter(): LegacyDevice {
    LegacyDevice("Router 1", RouterPorts("3", "C", "4", "D"),
                 map["E" := "interfaz_izq", "F" := "interfaz_der"],
                 map["1" := "E", "2" := "F"])
  }

  function LegacySwitch1(): LegacyDevice {
    LegacyDevice("Switch 1", SwitchPort("E"), map["A" := "puerto1", "C" := "puerto2"], map[])
  }

  function LegacySwitch2(): LegacyDevice {
    LegacyDevice("Switch 2", SwitchPort("F"), map["B" := "puerto1", "D" := "puerto2"], map[])
  }

  /** The addresses and protocol of the menu's messages are plain header fields. */
  lemma DemoLiterals()
    ensures Field("1") && Field("2") && Field("A") && Field("B") && Field("C") && Field("D") && Field("TCP")
    ensures Latin1("1") && Latin1("2") && Latin1("A") && Latin1("B") && Latin1("C") && Latin1("D") && Latin1("TCP")
  {
  }

  /** A frame PC2 should accept, `[EN:D:B][RE:1:2]...`: as written PC2 drops it for an unknown MAC ... */
  lemma Pc2DropsItsOwnFrame(msg: string)
    requires Latin1(msg)
    ensures Receive(LegacyPc2(), EncodeBits(MessageFrame(Host("1", "D"), msg, "2", "TCP", 80, "B")), 1) == UnknownMac("B")
  {
    var d := LegacyPc2();
    assert "B" !in d.tablaEnlace;
    DemoLiterals();
    ReflectedDrops(d, msg, "TCP", 80, "1", "D", "2", "B");
  }

  /** ... and with its declared addresses it displays the message. */
  lemma Pc2AcceptsDeclared(msg: string)
    requires Latin1(msg)
    ensures ReceiveDeclared(LegacyPc2(), EncodeBits(MessageFrame(Host("1", "D"), msg, "2", "TCP", 80, "B")), 1) == Received(msg)
  {
    var d := LegacyPc2();
    assert d.addrs == Host("2", "B");
    DemoLiterals();
    DeclaredDelivers(d, msg, "TCP", 80, "1", "D");
  }

  /** The bits PC1 returns for a message to PC2 frame it to the router's left MAC. */
  lemma Pc1Bits(msg: string)
    ensures SendMessage(LegacyPc1(), msg, "2", "TCP", 80) == EncodeBits(MessageFrame(Host("1", "A"), msg, "2", "TCP", 80, "C"))
  {
  }

  /** The bits PC1 returns for a message to PC2 reach the router: as written it drops them for an unknown MAC ... */
  lemma RouterDropsPc1Bits(msg: string)
    requires Latin1(msg)
    ensures Receive(LegacyRouter(), SendMessage(LegacyPc1(), msg, "2", "TCP", 80), 1) == UnknownMac("C")
  {
    var r := LegacyRouter();
    assert "C" !in r.tablaEnlace;
    Pc1Bits(msg);
    DemoLiterals();
    ReflectedDrops(r, msg, "TCP", 80, "1", "A", "2", "C");
  }

  /**
   * ... and with its declared addresses it takes the frame and finds the next hop,
   * Switch2's MAC, and sends nothing.
   */
  lemma RouterRoutesDeclared(msg: string)
    requires Latin1(msg)
    ensures ReceiveDeclared(LegacyRouter(), SendMessage(LegacyPc1(), msg, "2", "TCP", 80), 1) == RouteFound("F")
  {
    var r := LegacyRouter();
    assert r.addrs == RouterPorts("3", "C", "4", "D") && r.tablaRed["2"] == "F";
    Pc1Bits(msg);
    DemoLiterals();
    LadderRoutesBits(r, OwnedMacs(r.addrs), OwnedIps(r.addrs), msg, "TCP", 80, "1", "A", "2", "C");
  }

  /**
   * What the menu of the earlier form does with a message from PC1 to PC2: the bits
   * of a frame addressed to the router's left MAC are handed to PC2 directly, and PC2
   * drops them for an unknown MAC ...
   */
  lemma DemoReception(msg: string)
    requires Latin1(msg)
    ensures Receive(LegacyPc2(), SendMessage(LegacyPc1(), msg, "2", "TCP", 80), 1) == UnknownMac("C")
  {
    var d := LegacyPc2();
    assert "C" !in d.tablaEnlace;
    Pc1Bits(msg);
    DemoLiterals();
    ReflectedDrops(d, msg, "TCP", 80, "1", "A", "2", "C");
  }

  /** ... and would drop them just the same with its declared addresses. */
  lemma DemoReceptionDeclared(msg: string)
    requires Latin1(msg)
    ensures ReceiveDeclared(LegacyPc2(), SendMessage(LegacyPc1(), msg, "2", "TCP", 80), 1) == UnknownMac("C")
  {
    var d := LegacyPc2();
    assert d.addrs == Host("2", "B") && "C" !in d.tablaEnlace;
    Pc1Bits(msg);
    DemoLiterals();
    DeclaredDrops(d, msg, "TCP", 80, "1", "A", "2", "C");
  }

  /** The bits PC2 returns for a message to PC1 frame it to the router's right MAC. */
  lemma Pc2Bits(msg: string)
    ensures SendMessage(LegacyPc2(), msg, "1", "TCP", 80) == EncodeBits(MessageFrame(Host("2", "B"), msg, "1", "TCP", 80, "D"))
  {
  }

  /** The menu's other choice, PC2's bits handed to PC1, ends the same way for the router's right MAC ... */
  lemma DemoReceptionReverse(msg: string)
    requires Latin1(msg)
    ensures Receive(LegacyPc1(), SendMessage(LegacyPc2(), msg, "1", "TCP", 80), 1) == UnknownMac("D")
  {
    var d := LegacyPc1();
    assert "D" !in d.tablaEnlace;
    Pc2Bits(msg);
    DemoLiterals();
    ReflectedDrops(d, msg, "TCP", 80, "2", "B", "1", "D");
  }

  /** ... with either address list. */
  lemma DemoReceptionReverseDeclared(msg: string)
    requires Latin1(msg)
    ensures ReceiveDeclared(LegacyPc1(), SendMessage(LegacyPc2(), msg, "1", "TCP", 80), 1) == UnknownMac("D")
  {
    var d := LegacyPc1();
    assert d.addrs == Host("1", "A") && "D" !in d.tablaEnlace;
    Pc2Bits(msg);
    DemoLiterals();
    DeclaredDrops(d, msg, "TCP", 80, "2", "B", "1", "D");
  }
}
