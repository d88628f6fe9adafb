/**
 * `configurar_red` in `simulador_red.py`: five devices wired as
 * PC1 - Switch1 - Router1 - Switch2 - PC2, each built empty and then given its
 * links with `conectar` and its tables by assignment, and what a message sent from
 * one PC to the other does on that wiring.
 */
module NetworkSetup {
  import opened Wrappers
  import opened Text
  import opened Physical
  import opened Layers
  import opened Devices
  import opened Network

  const PC1_IP := "1"
  const PC2_IP := "2"
  const ROUTER_IP_LEFT := "3"
  const ROUTER_IP_RIGHT := "4"
  const PC1_MAC := "A"
  const PC2_MAC := "B"
  const ROUTER_MAC_LEFT := "C"
  const ROUTER_MAC_RIGHT := "D"
  const SWITCH1_MAC := "E"
  const SWITCH2_MAC := "F"
  const TCP_PORT := 80
  const UDP_PORT := 53

  /** A `Dispositivo` while the topology is being built: its links and tables change in place. */
  class Node {
    const name: string
    const addrs: Addresses
    var conexiones: map<string, Port>
    var tablaEnlace: map<string, string>
    var tablaRed: map<string, string>

    /** `Dispositivo.__init__` with the address attributes of `PC`, `Router` or `Switch`. */
    constructor(name: string, addrs: Addresses)
      ensures this.name == name && this.addrs == addrs
      ensures conexiones == map[] && tablaEnlace == map[] && tablaRed == map[]
    {
      this.name := name;
      this.addrs := addrs;
      conexiones := map[];
      tablaEnlace := map[];
      tablaRed := map[];
    }

    /** `conectar`: the local interface now leads to `remote` on `dest`, replacing any earlier link. */
    method Connect(local: string, dest: Node, remote: string)
      modifies this
      ensures conexiones == old(conexiones)[local := Port(dest.name, remote)]
      ensures tablaEnlace == old(tablaEnlace) && tablaRed == old(tablaRed)
    {
      conexiones := conexiones[local := Port(dest.name, remote)];
    }

    /** The device as the dispatch functions see it. */
    function Snapshot(): Device
      reads this
    {
      Device(name, addrs, conexiones, tablaEnlace, tablaRed)
    }
  }

  function Gather(pc1: Node, pc2: Node, router: Node, switch1: Node, switch2: Node): Topology
    reads pc1, pc2, router, switch1, switch2
  {
    map[pc1.name := pc1.Snapshot(), pc2.name := pc2.Snapshot(), router.name := router.Snapshot(),
        switch1.name := switch1.Snapshot(), switch2.name := switch2.Snapshot()]
  }

  function Pc1(): Device {
    Device("PC1", Host(PC1_IP, PC1_MAC),
           map["eth0" := Port("Switch1", "puerto1")],
           map[ROUTER_MAC_LEFT := "eth0"],
           map[PC2_IP := ROUTER_MAC_LEFT])
  }

  function Pc2(): Device {
    Device("PC2", Host(PC2_IP, PC2_MAC),
           map["eth0" := Port("Switch2", "puerto1")],
           map[ROUTER_MAC_RIGHT := "eth0"],
           map[PC1_IP := ROUTER_MAC_RIGHT])
  }

  function Router1(): Device {
    Device("Router1", RouterPorts(ROUTER_IP_LEFT, ROUTER_MAC_LEFT, ROUTER_IP_RIGHT, ROUTER_MAC_RIGHT),
           map["if_izq" := Port("Switch1", "puerto2"), "if_der" := Port("Switch2", "puerto2")],
           map[PC1_MAC := "if_izq", PC2_MAC := "if_der"],
           map[PC1_IP := PC1_MAC, PC2_IP := PC2_MAC])
  }

  function Switch1(): Device {
    Device("Switch1", SwitchPort(SWITCH1_MAC),
           map["puerto1" := Port("PC1", "eth0"), "puerto2" := Port("Router1", "if_izq")],
           map[PC1_MAC := "puerto1", ROUTER_MAC_LEFT := "puerto2"],
           map[])
  }

  function Switch2(): Device {
    Device("Switch2", SwitchPort(SWITCH2_MAC),
           map["puerto2" := Port("Router1", "if_der"), "puerto1" := Port("PC2", "eth0")],
           map[PC2_MAC := "puerto1", ROUTER_MAC_RIGHT := "puerto2"],
           map[])
  }

  /** The network `configurar_red` returns, as a value. */
  function FixedTopology(): Topology {
    map["PC1" := Pc1(), "PC2" := Pc2(), "Router1" := Router1(), "Switch1" := Switch1(), "Switch2" := Switch2()]
  }

  /** `configurar_red`: builds the five devices, wires them and fills in their tables. */
  method ConfigureNetwork() returns (pc1: Node, pc2: Node, router: Node, switch1: Node, switch2: Node)
    ensures pc1.Snapshot() == Pc1() && pc2.Snapshot() == Pc2() && router.Snapshot() == Router1()
    ensures switch1.Snapshot() == Switch1() && switch2.Snapshot() == Switch2()
    ensures Gather(pc1, pc2, router, switch1, switch2) == FixedTopology()
  {
    pc1 := new Node("PC1", Host(PC1_IP, PC1_MAC));
    pc2 := new Node("PC2", Host(PC2_IP, PC2_MAC));
    router := new Node("Router1", RouterPorts(ROUTER_IP_LEFT, ROUTER_MAC_LEFT, ROUTER_IP_RIGHT, ROUTER_MAC_RIGHT));
    switch1 := new Node("Switch1", SwitchPort(SWITCH1_MAC));
    switch2 := new Node("Switch2", SwitchPort(SWITCH2_MAC));
    Wire(pc1, pc2, router, switch1, switch2);
    FillTables(pc1, pc2, router, switch1, switch2);
  }

  /** The cabling part of `configurar_red`: every link is entered at both of its ends. */
  method Wire(pc1: Node, pc2: Node, router: Node, switch1: Node, switch2: Node)
    requires pc1 != pc2 && pc1 != router && pc1 != switch1 && pc1 != switch2
    requires pc2 != router && pc2 != switch1 && pc2 != switch2
    requires router != switch1 && router != switch2 && switch1 != switch2
    requires pc1.name == "PC1" && pc2.name == "PC2" && router.name == "Router1"
    requires switch1.name == "Switch1" && switch2.name == "Switch2"
    requires pc1.conexiones == pc2.conexiones == router.conexiones == switch1.conexiones == switch2.conexiones == map[]
    modifies pc1, pc2, router, switch1, switch2
    ensures pc1.conexiones == Pc1().conexiones && pc2.conexiones == Pc2().conexiones
    ensures router.conexiones == Router1().conexiones
    ensures switch1.conexiones == Switch1().conexiones && switch2.conexiones == Switch2().conexiones
    ensures pc1.tablaRed == old(pc1.tablaRed) && pc1.tablaEnlace == old(pc1.tablaEnlace)
    ensures pc2.tablaRed == old(pc2.tablaRed) && pc2.tablaEnlace == old(pc2.tablaEnlace)
    ensures router.tablaRed == old(router.tablaRed) && router.tablaEnlace == old(router.tablaEnlace)
    ensures switch1.tablaRed == old(switch1.tablaRed) && switch1.tablaEnlace == old(switch1.tablaEnlace)
    ensures switch2.tablaRed == old(switch2.tablaRed) && switch2.tablaEnlace == old(switch2.tablaEnlace)
  {
    pc1.Connect("eth0", switch1, "puerto1");
    switch1.Connect("puerto1", pc1, "eth0");
    switch1.Connect("puerto2", router, "if_izq");
    router.Connect("if_izq", switch1, "puerto2");
    router.Connect("if_der", switch2, "puerto2");
    switch2.Connect("puerto2", router, "if_der");
    switch2.Connect("puerto1", pc2, "eth0");
    pc2.Connect("eth0", switch2, "puerto1");
  }

  /** The table part of `configurar_red`. */
  method FillTables(pc1: Node, pc2: Node, router: Node, switch1: Node, switch2: Node)
    requires pc1 != pc2 && pc1 != router && pc1 != switch1 && pc1 != switch2
    requires pc2 != router && pc2 != switch1 && pc2 != switch2
    requires router != switch1 && router != switch2 && switch1 != switch2
    requires switch1.tablaRed == switch2.tablaRed == map[]
    modifies pc1, pc2, router, switch1, switch2
    ensures pc1.tablaRed == Pc1().tablaRed && pc1.tablaEnlace == Pc1().tablaEnlace
    ensures pc2.tablaRed == Pc2().tablaRed && pc2.tablaEnlace == Pc2().tablaEnlace
    ensures router.tablaRed == Router1().tablaRed && router.tablaEnlace == Router1().tablaEnlace
    ensures switch1.tablaRed == map[] && switch1.tablaEnlace == Switch1().tablaEnlace
    ensures switch2.tablaRed == map[] && switch2.tablaEnlace == Switch2().tablaEnlace
    ensures unchanged(pc1`conexiones, pc2`conexiones, router`conexiones, switch1`conexiones, switch2`conexiones)
  {
    pc1.tablaRed := map[PC2_IP := ROUTER_MAC_LEFT];
    pc1.tablaEnlace := map[ROUTER_MAC_LEFT := "eth0"];
    pc2.tablaRed := map[PC1_IP := ROUTER_MAC_RIGHT];
    pc2.tablaEnlace := map[ROUTER_MAC_RIGHT := "eth0"];
    switch1.tablaEnlace := map[PC1_MAC := "puerto1", ROUTER_MAC_LEFT := "puerto2"];
    switch2.tablaEnlace := map[PC2_MAC := "puerto1", ROUTER_MAC_RIGHT := "puerto2"];
    router.tablaRed := map[PC1_IP := PC1_MAC, PC2_IP := PC2_MAC];
    router.tablaEnlace := map[PC1_MAC := "if_izq", PC2_MAC := "if_der"];
  }

  /** Every cable out of `n` is entered at both ends: its far end leads back to `n`. */
  predicate CabledAt(topo: Topology, n: string)
    requires n in topo
  {
    forall i :: i in topo[n].conexiones ==>
      var p := topo[n].conexiones[i];
      p.device in topo && p.iface in topo[p.device].conexiones && topo[p.device].conexiones[p.iface] == Port(n, i)
  }

  predicate Cabled(topo: Topology) {
    forall n :: n in topo ==> CabledAt(topo, n)
  }

  /** The wiring of `configurar_red` is symmetric, and no link leads outside it. */
  lemma FixedCabled()
    ensures Cabled(FixedTopology()) && Closed(FixedTopology())
  {
    var t := FixedTopology();
    assert t.Keys == {"PC1", "PC2", "Router1", "Switch1", "Switch2"};
    CabledPc1();
    CabledPc2();
    CabledRouter1();
    CabledSwitch1();
    CabledSwitch2();
  }

  lemma CabledPc1()
    ensures CabledAt(FixedTopology(), "PC1")
  {
    var t := FixedTopology();
    assert t["PC1"] == Pc1() && t["Switch1"] == Switch1();
  }

  lemma CabledPc2()
    ensures CabledAt(FixedTopology(), "PC2")
  {
    var t := FixedTopology();
    assert t["PC2"] == Pc2() && t["Switch2"] == Switch2();
  }

  lemma CabledRouter1()
    ensures CabledAt(FixedTopology(), "Router1")
  {
    var t := FixedTopology();
    assert t["Router1"] == Router1() && t["Switch1"] == Switch1() && t["Switch2"] == Switch2();
  }

  lemma CabledSwitch1()
    ensures CabledAt(FixedTopology(), "Switch1")
  {
    var t := FixedTopology();
    assert t["Switch1"] == Switch1() && t["PC1"] == Pc1() && t["Router1"] == Router1();
  }

  lemma CabledSwitch2()
    ensures CabledAt(FixedTopology(), "Switch2")
  {
    var t := FixedTopology();
    assert t["Switch2"] == Switch2() && t["PC2"] == Pc2() && t["Router1"] == Router1();
  }

  // PC1 to PC2, one device at a time. `seg` is any segment: nothing on the way reads it.

  /** The packet PC1 addresses to PC2, and the frames that carry it before and after the router. */
  function Packet12(seg: string): string {
    NetEncap(seg, PC1_IP, PC2_IP)
  }

  function FrameLeft12(seg: string): string {
    LinkEncap(Packet12(seg), PC1_MAC, ROUTER_MAC_LEFT)
  }

  function FrameRight12(seg: string): string {
    LinkEncap(Packet12(seg), ROUTER_MAC_RIGHT, PC2_MAC)
  }

  /** The four hops from PC1 to PC2. */
  function Hop12Pc1(seg: string): Hop {
    Hop("PC1", "eth0", "Switch1", "puerto1", FrameLeft12(seg))
  }

  function Hop12Switch1(seg: string): Hop {
    Hop("Switch1", "puerto2", "Router1", "if_izq", FrameLeft12(seg))
  }

  function Hop12Router(seg: string): Hop {
    Hop("Router1", "if_der", "Switch2", "puerto2", FrameRight12(seg))
  }

  function Hop12Switch2(seg: string): Hop {
    Hop("Switch2", "puerto1", "PC2", "eth0", FrameRight12(seg))
  }

  lemma Frames12Latin1(seg: string)
    requires Latin1(seg)
    ensures Latin1(FrameLeft12(seg)) && Latin1(FrameRight12(seg))
  {
    NetEncapLatin1(seg, PC1_IP, PC2_IP);
    LinkEncapLatin1(Packet12(seg), PC1_MAC, ROUTER_MAC_LEFT);
    LinkEncapLatin1(Packet12(seg), ROUTER_MAC_RIGHT, PC2_MAC);
  }

  /** PC1 looks up the router's left MAC for PC2's IP and sends the frame to Switch1. */
  lemma Pc1Sends12(msg: string, app: string, proto: string, port: int, fuel: nat, rest: nat)
    requires fuel == rest + 1 && Latin1(msg) && Latin1(app) && Latin1(proto)
    ensures SendMessage(FixedTopology(), "PC1", msg, PC2_IP, proto, port, app, fuel)
         == Prepend(Hop12Pc1(TransEncap(AppEncap(msg, app), SOURCE_PORT, port, proto)),
                    Receive(FixedTopology(), "Switch1", FrameLeft12(TransEncap(AppEncap(msg, app), SOURCE_PORT, port, proto)),
                            2, "puerto1", rest))
  {
    var t := FixedTopology();
    var seg := TransEncap(AppEncap(msg, app), SOURCE_PORT, port, proto);
    var f := FrameLeft12(seg);
    assert t["PC1"] == Pc1();
    assert MessageFrame(Pc1().addrs, msg, PC2_IP, proto, port, app, ROUTER_MAC_LEFT) == f;
    MessageSent(t, "PC1", msg, PC2_IP, proto, port, app, fuel, ROUTER_MAC_LEFT, "eth0");
    AppEncapLatin1(msg, app);
    TransEncapLatin1(AppEncap(msg, app), SOURCE_PORT, port, proto);
    Frames12Latin1(seg);
    Transmit(t, "PC1", "eth0", f, fuel, rest);
  }

  /** Switch1 does not own the router's MAC and passes the frame on, unchanged, to the router. */
  lemma Switch1Forwards12(seg: string, fuel: nat, rest: nat)
    requires fuel == rest + 1 && Latin1(seg)
    ensures Receive(FixedTopology(), "Switch1", FrameLeft12(seg), 2, "puerto1", fuel)
         == Prepend(Hop12Switch1(seg), Receive(FixedTopology(), "Router1", FrameLeft12(seg), 2, "if_izq", rest))
  {
    var t := FixedTopology();
    var f := FrameLeft12(seg);
    assert t["Switch1"] == Switch1();
    FrameForwarded(Switch1(), Packet12(seg), PC1_MAC, ROUTER_MAC_LEFT);
    LinkForwards(t, "Switch1", f, "puerto1", fuel, "puerto2", f);
    Frames12Latin1(seg);
    Transmit(t, "Switch1", "puerto2", f, fuel, rest);
  }

  /** The router takes a frame addressed to either of its MACs up to layer 3. */
  lemma RouterTakes(pkt: string, src: string, dst: string)
    requires Field(src) && (dst == ROUTER_MAC_LEFT || dst == ROUTER_MAC_RIGHT)
    ensures LinkStep(Router1(), LinkEncap(pkt, src, dst)) == Climb(pkt)
  {
    FrameForMe(Router1(), pkt, src, dst);
  }

  /**
   * The router sends a packet for PC1's IP out of its left interface, framed from its
   * left MAC to PC1's, and one for PC2's IP out of its right interface, from its right
   * MAC to PC2's.
   */
  lemma RouterForwards(seg: string, src: string, dst: string)
    requires Field(src) && (dst == PC1_IP || dst == PC2_IP)
    ensures var pkt := NetEncap(seg, src, dst);
            NetStep(Router1(), pkt)
              == if dst == PC1_IP then Forward("if_izq", LinkEncap(pkt, ROUTER_MAC_LEFT, PC1_MAC))
                 else Forward("if_der", LinkEncap(pkt, ROUTER_MAC_RIGHT, PC2_MAC))
  {
    if dst == PC1_IP {
      RouterRoute(seg, src, dst, PC1_MAC, "if_izq", ROUTER_MAC_LEFT);
    } else {
      RouterRoute(seg, src, dst, PC2_MAC, "if_der", ROUTER_MAC_RIGHT);
    }
  }

  /** The router's layer 3 on a packet for another IP, once its two tables and its MACs are read. */
  lemma RouterRoute(seg: string, src: string, dst: string, next: string, out: string, mac: string)
    requires Field(src) && Field(dst) && dst !in OwnedIps(Router1().addrs)
    requires Get(Router1().tablaRed, dst) == Some(next) && Get(Router1().tablaEnlace, next) == Some(out)
    requires SourceMac(Router1().addrs, out) == Some(mac)
    ensures NetStep(Router1(), NetEncap(seg, src, dst)) == Forward(out, LinkEncap(NetEncap(seg, src, dst), mac, next))
  {
    PacketForwarded(Router1(), seg, src, dst);
  }

  /** The router takes the frame, routes the packet to PC2's MAC and sends it from its right MAC. */
  lemma RouterRoutes12(seg: string, fuel: nat, rest: nat)
    requires fuel == rest + 1 && Latin1(seg)
    ensures Receive(FixedTopology(), "Router1", FrameLeft12(seg), 2, "if_izq", fuel)
         == Prepend(Hop12Router(seg), Receive(FixedTopology(), "Switch2", FrameRight12(seg), 2, "puerto2", rest))
  {
    var t := FixedTopology();
    var pkt, f, g := Packet12(seg), FrameLeft12(seg), FrameRight12(seg);
    assert t["Router1"] == Router1();
    RouterTakes(pkt, PC1_MAC, ROUTER_MAC_LEFT);
    RouterForwards(seg, PC1_IP, PC2_IP);
    LinkClimbs(t, "Router1", f, "if_izq", fuel, pkt);
    NetForwards(t, "Router1", pkt, "if_izq", fuel, "if_der", g);
    Frames12Latin1(seg);
    Transmit(t, "Router1", "if_der", g, fuel, rest);
  }

  /** Switch2 passes the rewritten frame on, unchanged, to PC2. */
  lemma Switch2Forwards12(seg: string, fuel: nat, rest: nat)
    requires fuel == rest + 1 && Latin1(seg)
    ensures Receive(FixedTopology(), "Switch2", FrameRight12(seg), 2, "puerto2", fuel)
         == Prepend(Hop12Switch2(seg), Receive(FixedTopology(), "PC2", FrameRight12(seg), 2, "eth0", rest))
  {
    var t := FixedTopology();
    var g := FrameRight12(seg);
    assert t["Switch2"] == Switch2();
    FrameForwarded(Switch2(), Packet12(seg), ROUTER_MAC_RIGHT, PC2_MAC);
    LinkForwards(t, "Switch2", g, "puerto2", fuel, "puerto1", g);
    Frames12Latin1(seg);
    Transmit(t, "Switch2", "puerto1", g, fuel, rest);
  }

  /** PC2 owns both the frame's MAC and the packet's IP, so the segment reaches its layer 4. */
  lemma Pc2Accepts12(seg: string, fuel: nat)
    ensures Receive(FixedTopology(), "PC2", FrameRight12(seg), 2, "eth0", fuel) == TransportLayer("PC2", seg)
  {
    var t := FixedTopology();
    var pkt := Packet12(seg);
    assert t["PC2"] == Pc2();
    FrameForMe(Pc2(), pkt, ROUTER_MAC_RIGHT, PC2_MAC);
    LinkClimbs(t, "PC2", FrameRight12(seg), "eth0", fuel, pkt);
    PacketForMe(Pc2(), seg, PC1_IP, PC2_IP, map[], map[]);
    NetClimbs(t, "PC2", pkt, "eth0", fuel, seg);
    ReceiveSegment(t, "PC2", seg, "eth0", fuel);
  }

  // The hops joined from the end of the path back to PC1. Each takes the fuel left
  // at every device as its own variable, so that the facts it joins name the same terms.

  /** From Switch2 on: one hop to PC2, which decodes the segment. */
  lemma FromSwitch2ToPc2(seg: string, f1: nat, f0: nat)
    requires f1 == f0 + 1 && Latin1(seg)
    ensures Receive(FixedTopology(), "Switch2", FrameRight12(seg), 2, "puerto2", f1)
         == Prepend(Hop12Switch2(seg), TransportLayer("PC2", seg))
  {
    Switch2Forwards12(seg, f1, f0);
    Pc2Accepts12(seg, f0);
  }

  /** From the router on: two hops. */
  lemma FromRouterToPc2(seg: string, f2: nat, f1: nat, f0: nat)
    requires f2 == f1 + 1 && f1 == f0 + 1 && Latin1(seg)
    ensures Receive(FixedTopology(), "Router1", FrameLeft12(seg), 2, "if_izq", f2)
         == Prepend(Hop12Router(seg), Prepend(Hop12Switch2(seg), TransportLayer("PC2", seg)))
  {
    RouterRoutes12(seg, f2, f1);
    FromSwitch2ToPc2(seg, f1, f0);
  }

  /** From Switch1 on: three hops. */
  lemma FromSwitch1ToPc2(seg: string, f3: nat, f2: nat, f1: nat, f0: nat)
    requires f3 == f2 + 1 && f2 == f1 + 1 && f1 == f0 + 1 && Latin1(seg)
    ensures Receive(FixedTopology(), "Switch1", FrameLeft12(seg), 2, "puerto1", f3)
         == Prepend(Hop12Switch1(seg), Prepend(Hop12Router(seg), Prepend(Hop12Switch2(seg), TransportLayer("PC2", seg))))
  {
    Switch1Forwards12(seg, f3, f2);
    FromRouterToPc2(seg, f2, f1, f0);
  }

  /**
   * A message PC1 sends to PC2's IP crosses Switch1, the router and Switch2 in four
   * hops; the switches pass the frame on as it came, the router re-frames the packet
   * from its right MAC to PC2's, and PC2 receives the message, the application tag
   * and the transport header intact.
   */
  lemma DeliveredPc1ToPc2(msg: string, app: string, proto: string, port: int, fuel: nat)
    requires fuel >= 4 && Latin1(msg) && Latin1(app) && Latin1(proto) && ']' !in app && Field(proto)
    ensures SendMessage(FixedTopology(), "PC1", msg, PC2_IP, proto, port, app, fuel)
         == Trace([Hop12Pc1(TransEncap(AppEncap(msg, app), SOURCE_PORT, port, proto)),
                   Hop12Switch1(TransEncap(AppEncap(msg, app), SOURCE_PORT, port, proto)),
                   Hop12Router(TransEncap(AppEncap(msg, app), SOURCE_PORT, port, proto)),
                   Hop12Switch2(TransEncap(AppEncap(msg, app), SOURCE_PORT, port, proto))],
                  "PC2", Delivered(msg, app, Some(Transport(proto, SOURCE_PORT, port))))
  {
    var seg := TransEncap(AppEncap(msg, app), SOURCE_PORT, port, proto);
    var f3, f2, f1, f0 := fuel - 1, fuel - 2, fuel - 3, fuel - 4;
    AppEncapLatin1(msg, app);
    TransEncapLatin1(AppEncap(msg, app), SOURCE_PORT, port, proto);
    Pc1Sends12(msg, app, proto, port, fuel, f3);
    FromSwitch1ToPc2(seg, f3, f2, f1, f0);
    SegmentDelivered("PC2", msg, app, SOURCE_PORT, port, proto);
    Nest4(Hop12Pc1(seg), Hop12Switch1(seg), Hop12Router(seg), Hop12Switch2(seg), TransportLayer("PC2", seg));
  }

  // PC2 to PC1: the same path the other way, through the router's right interface first

  function Packet21(seg: string): string {
    NetEncap(seg, PC2_IP, PC1_IP)
  }

  function FrameRight21(seg: string): string {
    LinkEncap(Packet21(seg), PC2_MAC, ROUTER_MAC_RIGHT)
  }

  function FrameLeft21(seg: string): string {
    LinkEncap(Packet21(seg), ROUTER_MAC_LEFT, PC1_MAC)
  }

  function Hop21Pc2(seg: string): Hop {
    Hop("PC2", "eth0", "Switch2", "puerto1", FrameRight21(seg))
  }

  function Hop21Switch2(seg: string): Hop {
    Hop("Switch2", "puerto2", "Router1", "if_der", FrameRight21(seg))
  }

  function Hop21Router(seg: string): Hop {
    Hop("Router1", "if_izq", "Switch1", "puerto2", FrameLeft21(seg))
  }

  function Hop21Switch1(seg: string): Hop {
    Hop("Switch1", "puerto1", "PC1", "eth0", FrameLeft21(seg))
  }

  lemma Frames21Latin1(seg: string)
    requires Latin1(seg)
    ensures Latin1(FrameRight21(seg)) && Latin1(FrameLeft21(seg))
  {
    NetEncapLatin1(seg, PC2_IP, PC1_IP);
    LinkEncapLatin1(Packet21(seg), PC2_MAC, ROUTER_MAC_RIGHT);
    LinkEncapLatin1(Packet21(seg), ROUTER_MAC_LEFT, PC1_MAC);
  }

  /** PC2 looks up the router's right MAC for PC1's IP and sends the frame to Switch2. */
  lemma Pc2Sends21(msg: string, app: string, proto: string, port: int, fuel: nat, rest: nat)
    requires fuel == rest + 1 && Latin1(msg) && Latin1(app) && Latin1(proto)
    ensures SendMessage(FixedTopology(), "PC2", msg, PC1_IP, proto, port, app, fuel)
         == Prepend(Hop21Pc2(TransEncap(AppEncap(msg, app), SOURCE_PORT, port, proto)),
                    Receive(FixedTopology(), "Switch2", FrameRight21(TransEncap(AppEncap(msg, app), SOURCE_PORT, port, proto)),
                            2, "puerto1", rest))
  {
    var t := FixedTopology();
    var seg := TransEncap(AppEncap(msg, app), SOURCE_PORT, port, proto);
    var f := FrameRight21(seg);
    assert t["PC2"] == Pc2();
    assert MessageFrame(Pc2().addrs, msg, PC1_IP, proto, port, app, ROUTER_MAC_RIGHT) == f;
    MessageSent(t, "PC2", msg, PC1_IP, proto, port, app, fuel, ROUTER_MAC_RIGHT, "eth0");
    AppEncapLatin1(msg, app);
    TransEncapLatin1(AppEncap(msg, app), SOURCE_PORT, port, proto);
    Frames21Latin1(seg);
    Transmit(t, "PC2", "eth0", f, fuel, rest);
  }

  /** Switch2 passes the frame on, unchanged, to the router's right interface. */
  lemma Switch2Forwards21(seg: string, fuel: nat, rest: nat)
    requires fuel == rest + 1 && Latin1(seg)
    ensures Receive(FixedTopology(), "Switch2", FrameRight21(seg), 2, "puerto1", fuel)
         == Prepend(Hop21Switch2(seg), Receive(FixedTopology(), "Router1", FrameRight21(seg), 2, "if_der", rest))
  {
    var t := FixedTopology();
    var f := FrameRight21(seg);
    assert t["Switch2"] == Switch2();
    FrameForwarded(Switch2(), Packet21(seg), PC2_MAC, ROUTER_MAC_RIGHT);
    LinkForwards(t, "Switch2", f, "puerto1", fuel, "puerto2", f);
    Frames21Latin1(seg);
    Transmit(t, "Switch2", "puerto2", f, fuel, rest);
  }

  /** The router takes the frame on its right MAC and sends the packet from its left MAC to PC1's. */
  lemma RouterRoutes21(seg: string, fuel: nat, rest: nat)
    requires fuel == rest + 1 && Latin1(seg)
    ensures Receive(FixedTopology(), "Router1", FrameRight21(seg), 2, "if_der", fuel)
         == Prepend(Hop21Router(seg), Receive(FixedTopology(), "Switch1", FrameLeft21(seg), 2, "puerto2", rest))
  {
    var t := FixedTopology();
    var pkt, f, g := Packet21(seg), FrameRight21(seg), FrameLeft21(seg);
    assert t["Router1"] == Router1();
    RouterTakes(pkt, PC2_MAC, ROUTER_MAC_RIGHT);
    RouterForwards(seg, PC2_IP, PC1_IP);
    LinkClimbs(t, "Router1", f, "if_der", fuel, pkt);
    NetForwards(t, "Router1", pkt, "if_der", fuel, "if_izq", g);
    Frames21Latin1(seg);
    Transmit(t, "Router1", "if_izq", g, fuel, rest);
  }

  /** Switch1 passes the rewritten frame on, unchanged, to PC1. */
  lemma Switch1Forwards21(seg: string, fuel: nat, rest: nat)
    requires fuel == rest + 1 && Latin1(seg)
    ensures Receive(FixedTopology(), "Switch1", FrameLeft21(seg), 2, "puerto2", fuel)
         == Prepend(Hop21Switch1(seg), Receive(FixedTopology(), "PC1", FrameLeft21(seg), 2, "eth0", rest))
  {
    var t := FixedTopology();
    var g := FrameLeft21(seg);
    assert t["Switch1"] == Switch1();
    FrameForwarded(Switch1(), Packet21(seg), ROUTER_MAC_LEFT, PC1_MAC);
    LinkForwards(t, "Switch1", g, "puerto2", fuel, "puerto1", g);
    Frames21Latin1(seg);
    Transmit(t, "Switch1", "puerto1", g, fuel, rest);
  }

  /** PC1 owns the frame's MAC and the packet's IP, so the segment reaches its layer 4. */
  lemma Pc1Accepts21(seg: string, fuel: nat)
    ensures Receive(FixedTopology(), "PC1", FrameLeft21(seg), 2, "eth0", fuel) == TransportLayer("PC1", seg)
  {
    var t := FixedTopology();
    var pkt := Packet21(seg);
    assert t["PC1"] == Pc1();
    FrameForMe(Pc1(), pkt, ROUTER_MAC_LEFT, PC1_MAC);
    LinkClimbs(t, "PC1", FrameLeft21(seg), "eth0", fuel, pkt);
    PacketForMe(Pc1(), seg, PC2_IP, PC1_IP, map[], map[]);
    NetClimbs(t, "PC1", pkt, "eth0", fuel, seg);
    ReceiveSegment(t, "PC1", seg, "eth0", fuel);
  }

  lemma FromSwitch1ToPc1(seg: string, f1: nat, f0: nat)
    requires f1 == f0 + 1 && Latin1(seg)
    ensures Receive(FixedTopology(), "Switch1", FrameLeft21(seg), 2, "puerto2", f1)
         == Prepend(Hop21Switch1(seg), TransportLayer("PC1", seg))
  {
    Switch1Forwards21(seg, f1, f0);
    Pc1Accepts21(seg, f0);
  }

  lemma FromRouterToPc1(seg: string, f2: nat, f1: nat, f0: nat)
    requires f2 == f1 + 1 && f1 == f0 + 1 && Latin1(seg)
    ensures Receive(FixedTopology(), "Router1", FrameRight21(seg), 2, "if_der", f2)
         == Prepend(Hop21Router(seg), Prepend(Hop21Switch1(seg), TransportLayer("PC1", seg)))
  {
    RouterRoutes21(seg, f2, f1);
    FromSwitch1ToPc1(seg, f1, f0);
  }

  lemma FromSwitch2ToPc1(seg: string, f3: nat, f2: nat, f1: nat, f0: nat)
    requires f3 == f2 + 1 && f2 == f1 + 1 && f1 == f0 + 1 && Latin1(seg)
    ensures Receive(FixedTopology(), "Switch2", FrameRight21(seg), 2, "puerto1", f3)
         == Prepend(Hop21Switch2(seg), Prepend(Hop21Router(seg), Prepend(Hop21Switch1(seg), TransportLayer("PC1", seg))))
  {
    Switch2Forwards21(seg, f3, f2);
    FromRouterToPc1(seg, f2, f1, f0);
  }

  /**
   * A message PC2 sends to PC1's IP makes the mirror path: Switch2, the router (in on
   * its right interface, out on its left with its left MAC as source), Switch1, and
   * PC1 receives it with all its fields.
   */
  lemma DeliveredPc2ToPc1(msg: string, app: string, proto: string, port: int, fuel: nat)
    requires fuel >= 4 && Latin1(msg) && Latin1(app) && Latin1(proto) && ']' !in app && Field(proto)
    ensures SendMessage(FixedTopology(), "PC2", msg, PC1_IP, proto, port, app, fuel)
         == Trace([Hop21Pc2(TransEncap(AppEncap(msg, app), SOURCE_PORT, port, proto)),
                   Hop21Switch2(TransEncap(AppEncap(msg, app), SOURCE_PORT, port, proto)),
                   Hop21Router(TransEncap(AppEncap(msg, app), SOURCE_PORT, port, proto)),
                   Hop21Switch1(TransEncap(AppEncap(msg, app), SOURCE_PORT, port, proto))],
                  "PC1", Delivered(msg, app, Some(Transport(proto, SOURCE_PORT, port))))
  {
    var seg := TransEncap(AppEncap(msg, app), SOURCE_PORT, port, proto);
    var f3, f2, f1, f0 := fuel - 1, fuel - 2, fuel - 3, fuel - 4;
    AppEncapLatin1(msg, app);
    TransEncapLatin1(AppEncap(msg, app), SOURCE_PORT, port, proto);
    Pc2Sends21(msg, app, proto, port, fuel, f3);
    FromSwitch2ToPc1(seg, f3, f2, f1, f0);
    SegmentDelivered("PC1", msg, app, SOURCE_PORT, port, proto);
    Nest4(Hop21Pc2(seg), Hop21Switch2(seg), Hop21Router(seg), Hop21Switch1(seg), TransportLayer("PC1", seg));
  }

  // Anything else a PC sends is dropped before it leaves

  /** PC1's `tabla_red` knows only PC2's IP: a message to any other IP never leaves PC1. */
  lemma Pc1OnlyRoutesToPc2(msg: string, ipDst: string, proto: string, port: int, app: string, fuel: nat)
    requires ipDst != PC2_IP
    ensures SendMessage(FixedTopology(), "PC1", msg, ipDst, proto, port, app, fuel)
         == Trace([], "PC1", Dropped(NoRoute(ipDst)))
  {
    assert FixedTopology()["PC1"] == Pc1();
  }

  /** ... and PC2's only PC1's. */
  lemma Pc2OnlyRoutesToPc1(msg: string, ipDst: string, proto: string, port: int, app: string, fuel: nat)
    requires ipDst != PC1_IP
    ensures SendMessage(FixedTopology(), "PC2", msg, ipDst, proto, port, app, fuel)
         == Trace([], "PC2", Dropped(NoRoute(ipDst)))
  {
    assert FixedTopology()["PC2"] == Pc2();
  }
}
