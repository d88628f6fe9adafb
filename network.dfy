/**
 * Message dispatch in `simulador_red.py`: `Dispositivo.recibir`, the layer-indexed
 * ladder a device runs on what it receives, `Dispositivo.enviar_por_interfaz`, which
 * hands the physical encoding of a frame to the peer at the other end of a link,
 * and `PC.enviar_mensaje`. The devices and their tables form an immutable topology;
 * the chain of calls from one device to the next becomes a trace of hops, bounded
 * by a hop fuel.
 */
module Network {
  import opened Wrappers
  import opened Text
  import opened Physical
  import opened Layers
  import opened Devices

  /** The source port `PC.enviar_mensaje` always uses. */
  const SOURCE_PORT := 5000

  /** The far end of a link: `(dispositivo_destino, interfaz_remota)`. */
  datatype Port = Port(device: string, iface: string)

  /** A device once the topology is built: its addresses, `conexiones`, `tabla_enlace`, `tabla_red`. */
  datatype Device = Device(
    name: string,
    addrs: Addresses,
    conexiones: map<string, Port>,
    tablaEnlace: map<string, string>,
    tablaRed: map<string, string>)

  /** Devices by name. */
  type Topology = map<string, Device>

  /**
   * One transmission: `from` sends `frame` on `outIface`, and `to` receives its
   * physical encoding on `inIface`.
   */
  datatype Hop = Hop(from: string, outIface: string, to: string, inIface: string, frame: string)

  /** What the transport layer displayed on the way up. */
  datatype Transport = Transport(proto: string, srcPort: int, dstPort: int)

  /** Why a device gave up: the messages `recibir` and `enviar_por_interfaz` display before returning. */
  datatype Drop =
    | NotConnected(iface: string)
    | UnknownMac(mac: string)
    | NoInterface(mac: string)
    | NoRoute(ip: string)

  datatype Status =
    | Delivered(msg: string, app: string, transport: Option<Transport>)
    | Dropped(why: Drop)
    | Raised(layer: int)      // a Python exception (IndexError, ValueError, AttributeError)
    | Ignored(layer: int)     // a layer outside 1..5: `recibir` does nothing
    | Missing                 // the device is not in the topology
    | OutOfFuel

  /** The hops made, the device where the run ended, and how it ended. */
  datatype Trace = Trace(hops: seq<Hop>, at: string, status: Status)

  function Prepend(h: Hop, t: Trace): Trace {
    Trace([h] + t.hops, t.at, t.status)
  }

  /** `table.get(key)` followed by the truthiness test `if value:`. */
  function Get(table: map<string, string>, key: string): Option<string> {
    if key in table && table[key] != "" then Some(table[key]) else None
  }

  /**
   * The source MAC for a frame leaving on `out`: `MAC_IZQ` on `if_izq`, `MAC_DER` on
   * `if_der`, otherwise `getattr(self, 'MAC', 'X')`. A device without `MAC_IZQ` or
   * `MAC_DER` sending on those interfaces raises `AttributeError`, here `None`.
   */
  function SourceMac(a: Addresses, out: string): (r: Option<string>)
    ensures r.None? <==> !a.RouterPorts? && (out == "if_izq" || out == "if_der")
    ensures r.Some? && !a.RouterPorts? ==> r.value == a.mac
    ensures a.RouterPorts? ==>
              r == Some(if out == "if_izq" then a.macIzq else if out == "if_der" then a.macDer else "X")
  {
    if out == "if_izq" then (if a.RouterPorts? then Some(a.macIzq) else None)
    else if out == "if_der" then (if a.RouterPorts? then Some(a.macDer) else None)
    else if a.RouterPorts? then Some("X")
    else Some(a.mac)
  }

  /** Layer 5: `CapaAplicacion.desencapsular`, the end of the ladder. */
  function Deliver(dev: string, datos: string, transport: Option<Transport>): (r: Trace)
    ensures r.hops == [] && r.at == dev && r.status.Delivered? && r.status.transport == transport
    ensures |r.status.msg| <= |datos| && r.status.msg == datos[|datos| - |r.status.msg|..]
    ensures !AppTagged(datos) ==> r.status == Delivered(datos, GENERIC_APP, transport)
  {
    var r := AppDecap(datos);
    Trace([], dev, Delivered(r.0, r.1, transport))
  }

  /** What a layer-2 or layer-3 handler decides: go up a layer, send a frame, or stop. */
  datatype Step =
    | Climb(datos: string)
    | Forward(out: string, frame: string)
    | Stop(status: Status)

  /**
   * Layer 2 of `recibir`: a frame for one of the device's MACs goes up; otherwise
   * `tabla_enlace` picks the interface, a router rewriting the source MAC and any
   * other device forwarding the frame as it came; a miss drops it.
   */
  function LinkStep(d: Device, datos: string): (r: Step)
    ensures r.Stop? ==> r.status.Dropped? || r.status.Raised?
  {
    match PairDecap(datos)
    case None => Stop(Raised(2))
    case Some(f) =>
      if f.dst in OwnedMacs(d.addrs) then Climb(f.payload)
      else
        match Get(d.tablaEnlace, f.dst)
        case None => Stop(Dropped(UnknownMac(f.dst)))
        case Some(out) =>
          if d.addrs.RouterPorts? then
            match SourceMac(d.addrs, out)
            case None => Stop(Raised(2))
            case Some(src) => Forward(out, LinkEncap(f.payload, src, f.dst))
          else
            Forward(out, datos)
  }

  /**
   * Layer 3 of `recibir`: a packet for one of the device's IPs goes up; otherwise
   * `tabla_red` gives the next-hop MAC and `tabla_enlace` the interface, and the
   * packet leaves in a new frame from that interface's MAC.
   */
  function NetStep(d: Device, datos: string): (r: Step)
    ensures r.Stop? ==> r.status.Dropped? || r.status.Raised?
  {
    match PairDecap(datos)
    case None => Stop(Raised(3))
    case Some(p) =>
      if p.dst in OwnedIps(d.addrs) then Climb(p.payload)
      else
        match Get(d.tablaRed, p.dst)
        case None => Stop(Dropped(NoRoute(p.dst)))
        case Some(next) =>
          match Get(d.tablaEnlace, next)
          case None => Stop(Dropped(NoInterface(next)))
          case Some(out) =>
            match SourceMac(d.addrs, out)
            case None => Stop(Raised(3))
            case Some(src) => Forward(out, LinkEncap(datos, src, next))
  }

  /**
   * Each branch of layer 2, for every input: a frame that does not parse raises,
   * one for an owned MAC climbs, a `tabla_enlace` miss drops, and a hit forwards.
   */
  lemma LinkStepCases(d: Device, datos: string)
    ensures PairDecap(datos).None? ==> LinkStep(d, datos) == Stop(Raised(2))
    ensures var f := PairDecap(datos);
            f.Some? && f.value.dst in OwnedMacs(d.addrs) ==> LinkStep(d, datos) == Climb(f.value.payload)
    ensures var f := PairDecap(datos);
            f.Some? && f.value.dst !in OwnedMacs(d.addrs) && Get(d.tablaEnlace, f.value.dst).None? ==>
              LinkStep(d, datos) == Stop(Dropped(UnknownMac(f.value.dst)))
    ensures var f := PairDecap(datos);
            f.Some? && f.value.dst !in OwnedMacs(d.addrs) && Get(d.tablaEnlace, f.value.dst).Some? ==>
              var out := Get(d.tablaEnlace, f.value.dst).value;
              && (!d.addrs.RouterPorts? ==> LinkStep(d, datos) == Forward(out, datos))
              && (d.addrs.RouterPorts? ==> LinkStep(d, datos) == Forward(out, LinkEncap(f.value.payload, SourceMac(d.addrs, out).value, f.value.dst)))
  {
  }

  /**
   * Each branch of layer 3, for every input: a packet that does not parse raises,
   * one for an owned IP climbs, a `tabla_red` or `tabla_enlace` miss drops, and
   * otherwise the packet leaves in a new frame.
   */
  lemma NetStepCases(d: Device, datos: string)
    ensures PairDecap(datos).None? ==> NetStep(d, datos) == Stop(Raised(3))
    ensures var p := PairDecap(datos);
            p.Some? && p.value.dst in OwnedIps(d.addrs) ==> NetStep(d, datos) == Climb(p.value.payload)
    ensures var p := PairDecap(datos);
            p.Some? && p.value.dst !in OwnedIps(d.addrs) && Get(d.tablaRed, p.value.dst).None? ==>
              NetStep(d, datos) == Stop(Dropped(NoRoute(p.value.dst)))
    ensures var p := PairDecap(datos);
            p.Some? && p.value.dst !in OwnedIps(d.addrs) && Get(d.tablaRed, p.value.dst).Some? ==>
              var next := Get(d.tablaRed, p.value.dst).value;
              && (Get(d.tablaEnlace, next).None? ==> NetStep(d, datos) == Stop(Dropped(NoInterface(next))))
              && (Get(d.tablaEnlace, next).Some? ==>
                    var out := Get(d.tablaEnlace, next).value;
                    && (SourceMac(d.addrs, out).None? ==> NetStep(d, datos) == Stop(Raised(3)))
                    && (SourceMac(d.addrs, out).Some? ==> NetStep(d, datos) == Forward(out, LinkEncap(datos, SourceMac(d.addrs, out).value, next))))
  {
  }

  /** Layer 4 continues straight into layer 5, carrying what the transport header said. */
  function TransportLayer(dev: string, datos: string): (r: Trace)
    ensures r.hops == [] && r.at == dev
    ensures r.status == Raised(4) <==> TransDecap(datos).None?
    ensures r.status.Delivered? ==> r.status.transport.Some? && |r.status.msg| < |datos|
    ensures var s := TransDecap(datos);
            s.Some? ==> r.status.Delivered? && r.status.transport == Some(Transport(s.value.proto, s.value.srcPort, s.value.dstPort))
  {
    match TransDecap(datos)
    case None => Trace([], dev, Raised(4))
    case Some(s) => Deliver(dev, s.payload, Some(Transport(s.proto, s.srcPort, s.dstPort)))
  }

  /** The ladder's measure: the layers still to climb. */
  function Rank(layer: int): nat {
    if 1 <= layer <= 5 then 6 - layer else 0
  }

  /**
   * `dev.recibir(datos, layer, _, iface)`: layer 1 decodes the bits, layers 2 and 3
   * follow their handler's step, layer 4 decodes the segment and layer 5 is terminal.
   */
  function Receive(topo: Topology, dev: string, datos: string, layer: int, iface: string, fuel: nat): Trace
    requires layer == 1 ==> IsBinary(datos)
    decreases fuel, Rank(layer), 1
  {
    if dev !in topo then Trace([], dev, Missing)
    else if layer == 1 then Receive(topo, dev, DecodeBits(datos), 2, iface, fuel)
    else if layer == 2 then Follow(topo, dev, LinkStep(topo[dev], datos), 3, iface, fuel)
    else if layer == 3 then Follow(topo, dev, NetStep(topo[dev], datos), 4, iface, fuel)
    else if layer == 4 then TransportLayer(dev, datos)
    else if layer == 5 then Deliver(dev, datos, None)
    else Trace([], dev, Ignored(layer))
  }

  /** Carry out a handler's step: `self.recibir` one layer up, `enviar_por_interfaz`, or return. */
  function Follow(topo: Topology, dev: string, step: Step, up: int, iface: string, fuel: nat): Trace
    requires up != 1
    decreases fuel, Rank(up), 2
  {
    match step
    case Climb(datos) => Receive(topo, dev, datos, up, iface, fuel)
    case Forward(out, frame) => SendOnInterface(topo, dev, out, frame, fuel)
    case Stop(status) => Trace([], dev, status)
  }

  /**
   * `dev.enviar_por_interfaz(iface, frame)`: nothing is sent on an interface missing
   * from `conexiones`; otherwise the peer receives the physical encoding at layer 1
   * on the remote interface. Each hop spends one unit of fuel.
   */
  function SendOnInterface(topo: Topology, dev: string, iface: string, frame: string, fuel: nat): Trace
    decreases fuel, 0, 0
  {
    if dev !in topo then Trace([], dev, Missing)
    else if iface !in topo[dev].conexiones then Trace([], dev, Dropped(NotConnected(iface)))
    else if fuel == 0 then Trace([], dev, OutOfFuel)
    else
      var peer := topo[dev].conexiones[iface];
      Prepend(Hop(dev, iface, peer.device, peer.iface, frame),
              Receive(topo, peer.device, EncodeBits(frame), 1, peer.iface, fuel - 1))
  }

  /** The frame `PC.enviar_mensaje` builds: `[H2:mac:next][H3:ip:dst][H4:proto:5000:port][APP:app]msg`. */
  function MessageFrame(a: Addresses, msg: string, ipDst: string, proto: string, dstPort: int, app: string, next: string): string
    requires a.Host?
  {
    LinkEncap(NetEncap(TransEncap(AppEncap(msg, app), SOURCE_PORT, dstPort, proto), a.ip, ipDst), a.mac, next)
  }

  /**
   * `PC.enviar_mensaje`: the next hop comes from `tabla_red`, the interface from
   * `tabla_enlace`; a miss in either returns without transmitting.
   */
  function SendMessage(topo: Topology, dev: string, msg: string, ipDst: string, proto: string,
                       dstPort: int, app: string, fuel: nat): (t: Trace)
    requires dev in topo && topo[dev].addrs.Host?
    ensures Get(topo[dev].tablaRed, ipDst).None? ==> t == Trace([], dev, Dropped(NoRoute(ipDst)))
    ensures var next := Get(topo[dev].tablaRed, ipDst);
            next.Some? && Get(topo[dev].tablaEnlace, next.value).None? ==>
              t == Trace([], dev, Dropped(NoInterface(next.value)))
    ensures |t.hops| > 0 ==>
              (&& Get(topo[dev].tablaRed, ipDst).Some?
               && t.hops[0].from == dev
               && t.hops[0].frame == MessageFrame(topo[dev].addrs, msg, ipDst, proto, dstPort, app,
                                                  Get(topo[dev].tablaRed, ipDst).value))
  {
    var d := topo[dev];
    match Get(d.tablaRed, ipDst)
    case None => Trace([], dev, Dropped(NoRoute(ipDst)))
    case Some(next) =>
      var frame := MessageFrame(d.addrs, msg, ipDst, proto, dstPort, app, next);
      match Get(d.tablaEnlace, next)
      case None => Trace([], dev, Dropped(NoInterface(next)))
      case Some(out) => SendOnInterface(topo, dev, out, frame, fuel)
  }

  /** When both tables have an entry, `PC.enviar_mensaje` sends its frame on the interface found. */
  lemma MessageSent(topo: Topology, dev: string, msg: string, ipDst: string, proto: string,
                    dstPort: int, app: string, fuel: nat, next: string, out: string)
    requires dev in topo && topo[dev].addrs.Host?
    requires Get(topo[dev].tablaRed, ipDst) == Some(next) && Get(topo[dev].tablaEnlace, next) == Some(out)
    ensures SendMessage(topo, dev, msg, ipDst, proto, dstPort, app, fuel)
         == SendOnInterface(topo, dev, out, MessageFrame(topo[dev].addrs, msg, ipDst, proto, dstPort, app, next), fuel)
  {
  }

  // What each handler decides on what the codecs produce

  /** A frame for one of the device's own MACs goes up to layer 3 without a `tabla_enlace` lookup. */
  lemma FrameForMe(d: Device, pkt: string, src: string, dst: string)
    requires Field(src) && Field(dst) && dst in OwnedMacs(d.addrs)
    ensures LinkStep(d, LinkEncap(pkt, src, dst)) == Climb(pkt)
  {
    LinkRoundTrip(pkt, src, dst);
  }

  /**
   * A frame for another MAC: dropped on a `tabla_enlace` miss; on a hit a router
   * rewrites the source MAC to that of the outgoing interface, any other device
   * sends the frame on unchanged.
   */
  lemma FrameForwarded(d: Device, pkt: string, src: string, dst: string)
    requires Field(src) && Field(dst) && dst !in OwnedMacs(d.addrs)
    ensures var frame, out := LinkEncap(pkt, src, dst), Get(d.tablaEnlace, dst);
            var r := LinkStep(d, frame);
            && (out.None? ==> r == Stop(Dropped(UnknownMac(dst))))
            && (out.Some? && !d.addrs.RouterPorts? ==> r == Forward(out.value, frame))
            && (out.Some? && d.addrs.RouterPorts? ==>
                  var mac := if out.value == "if_izq" then d.addrs.macIzq
                             else if out.value == "if_der" then d.addrs.macDer
                             else "X";
                  r == Forward(out.value, LinkEncap(pkt, mac, dst)))
  {
    LinkRoundTrip(pkt, src, dst);
  }

  /**
   * A packet for one of the device's own IPs goes up to layer 4, whatever the
   * device's tables hold.
   */
  lemma PacketForMe(d: Device, seg: string, src: string, dst: string, red: map<string, string>, enlace: map<string, string>)
    requires Field(src) && Field(dst) && dst in OwnedIps(d.addrs)
    ensures NetStep(d, NetEncap(seg, src, dst)) == Climb(seg)
    ensures NetStep(d.(tablaRed := red, tablaEnlace := enlace), NetEncap(seg, src, dst)) == Climb(seg)
  {
    NetRoundTrip(seg, src, dst);
  }

  /**
   * A packet for another IP: `tabla_red` gives the next-hop MAC, `tabla_enlace` the
   * interface, and the unchanged packet leaves in a new frame from the interface's
   * MAC to the next hop; a miss in either table sends nothing.
   */
  lemma PacketForwarded(d: Device, seg: string, src: string, dst: string)
    requires Field(src) && Field(dst) && dst !in OwnedIps(d.addrs)
    ensures var pkt, next := NetEncap(seg, src, dst), Get(d.tablaRed, dst);
            var r := NetStep(d, pkt);
            && (next.None? ==> r == Stop(Dropped(NoRoute(dst))))
            && (next.Some? && Get(d.tablaEnlace, next.value).None? ==>
                  r == Stop(Dropped(NoInterface(next.value))))
            && (next.Some? && Get(d.tablaEnlace, next.value).Some? ==>
                  var out := Get(d.tablaEnlace, next.value).value;
                  match SourceMac(d.addrs, out)
                  case None => r == Stop(Raised(3))
                  case Some(mac) => r == Forward(out, LinkEncap(pkt, mac, next.value)))
  {
    NetRoundTrip(seg, src, dst);
  }

  /** A segment built by the transport and application codecs is delivered with all its fields. */
  lemma SegmentDelivered(dev: string, msg: string, app: string, srcPort: int, dstPort: int, proto: string)
    requires ']' !in app && Field(proto)
    ensures TransportLayer(dev, TransEncap(AppEncap(msg, app), srcPort, dstPort, proto))
         == Trace([], dev, Delivered(msg, app, Some(Transport(proto, srcPort, dstPort))))
  {
    TransRoundTrip(AppEncap(msg, app), srcPort, dstPort, proto);
    AppRoundTrip(msg, app);
  }

  // The ladder, one step at a time

  /** At layer 2 a device does what `LinkStep` decides: climbing to layer 3 ... */
  lemma LinkClimbs(topo: Topology, dev: string, datos: string, iface: string, fuel: nat, up: string)
    requires dev in topo && LinkStep(topo[dev], datos) == Climb(up)
    ensures Receive(topo, dev, datos, 2, iface, fuel) == Receive(topo, dev, up, 3, iface, fuel)
  {
  }

  /** ... or sending a frame on an interface. */
  lemma LinkForwards(topo: Topology, dev: string, datos: string, iface: string, fuel: nat, out: string, frame: string)
    requires dev in topo && LinkStep(topo[dev], datos) == Forward(out, frame)
    ensures Receive(topo, dev, datos, 2, iface, fuel) == SendOnInterface(topo, dev, out, frame, fuel)
  {
  }

  /** At layer 3 a device does what `NetStep` decides: climbing to layer 4 ... */
  lemma NetClimbs(topo: Topology, dev: string, datos: string, iface: string, fuel: nat, up: string)
    requires dev in topo && NetStep(topo[dev], datos) == Climb(up)
    ensures Receive(topo, dev, datos, 3, iface, fuel) == Receive(topo, dev, up, 4, iface, fuel)
  {
  }

  /** ... or sending a frame on an interface. */
  lemma NetForwards(topo: Topology, dev: string, datos: string, iface: string, fuel: nat, out: string, frame: string)
    requires dev in topo && NetStep(topo[dev], datos) == Forward(out, frame)
    ensures Receive(topo, dev, datos, 3, iface, fuel) == SendOnInterface(topo, dev, out, frame, fuel)
  {
  }

  /** Layer 4 ends the ladder. */
  lemma ReceiveSegment(topo: Topology, dev: string, datos: string, iface: string, fuel: nat)
    requires dev in topo
    ensures Receive(topo, dev, datos, 4, iface, fuel) == TransportLayer(dev, datos)
  {
  }


  /** Layer 1 hands layer 2 exactly the frame that was encoded. */
  lemma ReceiveBits(topo: Topology, dev: string, frame: string, iface: string, fuel: nat)
    requires Latin1(frame)
    ensures Receive(topo, dev, EncodeBits(frame), 1, iface, fuel) == Receive(topo, dev, frame, 2, iface, fuel)
  {
    DecodeEncode(frame);
  }

  /** Sending on a connected interface makes one hop, and the peer's layer 2 sees the frame itself. */
  lemma Transmit(topo: Topology, dev: string, iface: string, frame: string, fuel: nat, rest: nat)
    requires dev in topo && iface in topo[dev].conexiones && fuel == rest + 1 && Latin1(frame)
    ensures var p := topo[dev].conexiones[iface];
            (SendOnInterface(topo, dev, iface, frame, fuel)
               == Prepend(Hop(dev, iface, p.device, p.iface, frame),
                          Receive(topo, p.device, frame, 2, p.iface, rest)))
  {
    var p := topo[dev].conexiones[iface];
    SendStep(topo, dev, iface, frame, fuel);
    DecodedHop(topo, p.device, frame, p.iface, rest, SendOnInterface(topo, dev, iface, frame, fuel),
               Hop(dev, iface, p.device, p.iface, frame));
  }

  /** `ReceiveBits` behind a hop, kept apart so that the solver need not look inside `t`. */
  lemma DecodedHop(topo: Topology, dev: string, frame: string, iface: string, fuel: nat, t: Trace, h: Hop)
    requires Latin1(frame) && t == Prepend(h, Receive(topo, dev, EncodeBits(frame), 1, iface, fuel))
    ensures t == Prepend(h, Receive(topo, dev, frame, 2, iface, fuel))
  {
    ReceiveBits(topo, dev, frame, iface, fuel);
  }

  /** An interface missing from `conexiones` sends nothing. */
  lemma Unconnected(topo: Topology, dev: string, iface: string, frame: string, fuel: nat)
    requires dev in topo && iface !in topo[dev].conexiones
    ensures SendOnInterface(topo, dev, iface, frame, fuel) == Trace([], dev, Dropped(NotConnected(iface)))
  {
  }

  lemma SendStep(topo: Topology, dev: string, iface: string, frame: string, fuel: nat)
    requires dev in topo && iface in topo[dev].conexiones && fuel > 0
    ensures var p := topo[dev].conexiones[iface];
            (SendOnInterface(topo, dev, iface, frame, fuel)
               == Prepend(Hop(dev, iface, p.device, p.iface, frame),
                          Receive(topo, p.device, EncodeBits(frame), 1, p.iface, fuel - 1)))
  {
  }

  /** Hops prepended one by one to a run that made none are the run's hops, in order. */
  lemma Nest4(h1: Hop, h2: Hop, h3: Hop, h4: Hop, t: Trace)
    requires t.hops == []
    ensures Prepend(h1, Prepend(h2, Prepend(h3, Prepend(h4, t)))) == Trace([h1, h2, h3, h4], t.at, t.status)
  {
    assert [h1] + ([h2] + ([h3] + ([h4] + []))) == [h1, h2, h3, h4];
  }

  // Properties of whole runs

  /** A hop crosses a link of the topology: `to` and `inIface` are what `conexiones` names. */
  predicate IsLink(topo: Topology, h: Hop) {
    && h.from in topo
    && h.outIface in topo[h.from].conexiones
    && topo[h.from].conexiones[h.outIface] == Port(h.to, h.inIface)
  }

  /** The hops form a walk from `start` along links, and the run ends where the walk does. */
  predicate Walk(topo: Topology, start: string, t: Trace) {
    && (forall i :: 0 <= i < |t.hops| ==> IsLink(topo, t.hops[i]))
    && (forall i :: 0 < i < |t.hops| ==> t.hops[i].from == t.hops[i - 1].to)
    && (|t.hops| > 0 ==> t.hops[0].from == start)
    && t.at == (if |t.hops| == 0 then start else t.hops[|t.hops| - 1].to)
  }

  /** Every link leads to a device of the topology. */
  predicate Closed(topo: Topology) {
    forall n, i :: n in topo && i in topo[n].conexiones ==> topo[n].conexiones[i].device in topo
  }

  lemma WalkPrepend(topo: Topology, start: string, h: Hop, t: Trace)
    requires IsLink(topo, h) && h.from == start && Walk(topo, h.to, t)
    ensures Walk(topo, start, Prepend(h, t))
  {
    var u := Prepend(h, t);
    assert forall i :: 0 < i < |u.hops| ==> u.hops[i] == t.hops[i - 1];
  }

  /** A walk from `start` of at most `fuel` hops that, in a closed topology, stays inside it. */
  predicate WalkWithin(topo: Topology, start: string, t: Trace, fuel: nat) {
    && Walk(topo, start, t) && |t.hops| <= fuel
    && (Closed(topo) && start in topo ==> !t.status.Missing?)
  }

  /**
   * Every run is a walk along the topology's links that makes at most `fuel` hops,
   * and in a closed topology it never reaches a device that does not exist.
   */
  lemma {:induction false} ReceiveWalk(topo: Topology, dev: string, datos: string, layer: int, iface: string, fuel: nat)
    requires layer == 1 ==> IsBinary(datos)
    ensures WalkWithin(topo, dev, Receive(topo, dev, datos, layer, iface, fuel), fuel)
    decreases fuel, Rank(layer), 1
  {
    if dev in topo {
      if layer == 1 {
        ReceiveWalk(topo, dev, DecodeBits(datos), 2, iface, fuel);
      } else if layer == 2 {
        FollowWalk(topo, dev, LinkStep(topo[dev], datos), 3, iface, fuel);
      } else if layer == 3 {
        FollowWalk(topo, dev, NetStep(topo[dev], datos), 4, iface, fuel);
      }
    }
  }

  lemma {:induction false} FollowWalk(topo: Topology, dev: string, step: Step, up: int, iface: string, fuel: nat)
    requires up != 1 && dev in topo && (step.Stop? ==> !step.status.Missing?)
    ensures WalkWithin(topo, dev, Follow(topo, dev, step, up, iface, fuel), fuel)
    decreases fuel, Rank(up), 2
  {
    match step
    case Climb(datos) => ReceiveWalk(topo, dev, datos, up, iface, fuel);
    case Forward(out, frame) => SendWalk(topo, dev, out, frame, fuel);
    case Stop(_) =>
  }

  lemma {:induction false} SendWalk(topo: Topology, dev: string, iface: string, frame: string, fuel: nat)
    ensures WalkWithin(topo, dev, SendOnInterface(topo, dev, iface, frame, fuel), fuel)
    decreases fuel, 0, 0
  {
    if dev in topo && iface in topo[dev].conexiones && fuel > 0 {
      var p := topo[dev].conexiones[iface];
      var bits, rest := EncodeBits(frame), fuel - 1;
      var h, t := Hop(dev, iface, p.device, p.iface, frame), Receive(topo, p.device, bits, 1, p.iface, rest);
      assert SendOnInterface(topo, dev, iface, frame, fuel) == Prepend(h, t);
      ReceiveWalk(topo, p.device, bits, 1, p.iface, rest);
      WithinPrepend(topo, h, t, fuel);
    }
  }

  lemma WithinPrepend(topo: Topology, h: Hop, t: Trace, fuel: nat)
    requires IsLink(topo, h) && fuel > 0 && WalkWithin(topo, h.to, t, fuel - 1)
    ensures WalkWithin(topo, h.from, Prepend(h, t), fuel)
  {
    WalkPrepend(topo, h.from, h, t);
  }
}
